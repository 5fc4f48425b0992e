/** The front-end state machines of js/script.js: the carousel's slide
    index, the reassembly of `data: …` frames from the answer stream, and
    the active state of the question buttons. */
module Frontend {

  import opened Wrappers
  import opened TextUtil
  import Chunker

  // ---------------------------------------------------------------------
  // Carousel
  // ---------------------------------------------------------------------

  /** JavaScript's `%`, whose result takes the sign of the dividend. */
  function JsRem(a: int, b: int): (r: int)
    requires b > 0
    ensures a >= 0 ==> 0 <= r < b
    ensures a < 0 ==> -b < r <= 0
  {
    if a >= 0 then a % b else -((-a) % b)
  }

  /** The index `changeSlide` computes. */
  function NextSlide(index: int, direction: int, totalSlides: int): int
    requires totalSlides > 0
  {
    JsRem(index + direction + totalSlides, totalSlides)
  }

  /** Why a step throws: `slides[i]` is `undefined` for an index outside the
      slide list, and reading its `classList` raises a TypeError. */
  datatype SlideError = NoSuchSlide

  class Carousel {
    var currentSlideIndex: int

    constructor ()
      ensures currentSlideIndex == 0
    {
      currentSlideIndex := 0;
    }

    /** `changeSlide(direction)` over `totalSlides` slides (and as many
        thumbnails). The current slide is touched first, so an index outside
        the list throws before any change; otherwise the index is replaced,
        and the new slide is touched after that. */
    method ChangeSlide(direction: int, totalSlides: nat) returns (r: Outcome<SlideError>)
      modifies this
      ensures !(0 <= old(currentSlideIndex) < totalSlides) ==> r == Fail(NoSuchSlide) && currentSlideIndex == old(currentSlideIndex)
      ensures 0 <= old(currentSlideIndex) < totalSlides ==>
        currentSlideIndex == NextSlide(old(currentSlideIndex), direction, totalSlides) &&
        (r.Pass? <==> 0 <= currentSlideIndex < totalSlides)
    {
      if !(0 <= currentSlideIndex < totalSlides) {
        return Fail(NoSuchSlide);
      }
      currentSlideIndex := JsRem(currentSlideIndex + direction + totalSlides, totalSlides);
      if !(0 <= currentSlideIndex < totalSlides) {
        return Fail(NoSuchSlide);
      }
      return Pass;
    }

    /** `goToSlide(index)`: no bounds check on the argument; an index outside
        the list is stored and then throws when its slide is touched. */
    method GoToSlide(index: int, totalSlides: nat) returns (r: Outcome<SlideError>)
      modifies this
      ensures !(0 <= old(currentSlideIndex) < totalSlides) ==> r == Fail(NoSuchSlide) && currentSlideIndex == old(currentSlideIndex)
      ensures 0 <= old(currentSlideIndex) < totalSlides ==>
        currentSlideIndex == index && (r.Pass? <==> 0 <= index < totalSlides)
    {
      if !(0 <= currentSlideIndex < totalSlides) {
        return Fail(NoSuchSlide);
      }
      currentSlideIndex := index;
      if !(0 <= currentSlideIndex < totalSlides) {
        return Fail(NoSuchSlide);
      }
      return Pass;
    }
  }

  /** A step of one slide from a valid index: forward past the last slide
      wraps to the first, backward from the first wraps to the last. */
  lemma SlideStep(index: int, direction: int, totalSlides: int)
    requires totalSlides > 0 && 0 <= index < totalSlides
    requires direction == 1 || direction == -1
    ensures NextSlide(index, direction, totalSlides) ==
      if index + direction == totalSlides then 0
      else if index + direction < 0 then totalSlides - 1
      else index + direction
  {
    var x := index + direction + totalSlides;
    if x < totalSlides {
      Chunker.DivInRange(x, totalSlides, 0);
    } else if x < 2 * totalSlides {
      Chunker.DivInRange(x, totalSlides, 1);
    } else {
      Chunker.DivInRange(x, totalSlides, 2);
    }
  }

  /** From a valid index a step of one slide stays valid, and it is the
      step modulo the number of slides. */
  lemma SlideStaysInRange(index: int, direction: int, totalSlides: int)
    requires totalSlides > 0 && 0 <= index < totalSlides
    requires direction == 1 || direction == -1
    ensures 0 <= NextSlide(index, direction, totalSlides) < totalSlides
    ensures NextSlide(index, direction, totalSlides) == (index + direction) % totalSlides
  {
    SlideStep(index, direction, totalSlides);
    var x := index + direction;
    if x == -1 {
      Chunker.DivInRange(x, totalSlides, -1);
    } else if x < totalSlides {
      Chunker.DivInRange(x, totalSlides, 0);
    } else {
      Chunker.DivInRange(x, totalSlides, 1);
    }
  }

  /** "Next" then "previous" (and the other way round) comes back to the
      same slide, and "previous" from the first slide shows the last. */
  lemma SlideStepsUndo(index: int, totalSlides: int)
    requires totalSlides > 0 && 0 <= index < totalSlides
    ensures NextSlide(NextSlide(index, 1, totalSlides), -1, totalSlides) == index
    ensures NextSlide(NextSlide(index, -1, totalSlides), 1, totalSlides) == index
    ensures NextSlide(0, -1, totalSlides) == totalSlides - 1
  {
    SlideStep(index, 1, totalSlides);
    SlideStep(NextSlide(index, 1, totalSlides), -1, totalSlides);
    SlideStep(index, -1, totalSlides);
    SlideStep(NextSlide(index, -1, totalSlides), 1, totalSlides);
    SlideStep(0, -1, totalSlides);
  }

  // ---------------------------------------------------------------------
  // The answer stream
  // ---------------------------------------------------------------------

  /** What `JSON.parse` makes of a frame's payload: an answer fragment, or an
      event of another type ("property", "done"). */
  datatype Event = Answer(text: string) | OtherEvent(eventType: string)

  /** `JSON.parse` throws on a payload that is not JSON. */
  datatype StreamError = MalformedEvent

  const DataPrefix: string := "data: "

  /** All chunks decoded so far, in order. */
  function Concat(chunks: seq<string>): string
  {
    if chunks == [] then "" else Concat(chunks[..|chunks| - 1]) + chunks[|chunks| - 1]
  }

  /** The complete frames of a stream: every piece before the last `"\n\n"`. */
  function Frames(s: string): seq<string>
  {
    var pieces := SplitOnBreak(s);
    pieces[..|pieces| - 1]
  }

  /** The unterminated tail that stays in the buffer. */
  function Pending(s: string): string
  {
    var pieces := SplitOnBreak(s);
    pieces[|pieces| - 1]
  }

  /** What one frame does to `fullAnswer`: only a frame that starts with
      "data: " is parsed, its payload being the rest of the frame, and only
      an answer event extends the text. */
  function FrameStep(fullAnswer: string, frame: string, parse: string -> Option<Event>): (r: Result<string, StreamError>)
    ensures r.Ok? ==> fullAnswer <= r.value
    ensures !StartsWith(frame, DataPrefix) ==> r == Ok(fullAnswer)
  {
    if StartsWith(frame, DataPrefix) then
      match parse(frame[|DataPrefix|..])
      case None => Err(MalformedEvent)
      case Some(Answer(text)) => Ok(fullAnswer + text)
      case Some(OtherEvent(_)) => Ok(fullAnswer)
    else Ok(fullAnswer)
  }

  /** `fullAnswer` after the given frames, starting from `fullAnswer`, or
      the error of the first frame whose payload does not parse. */
  function Replay(fullAnswer: string, frames: seq<string>, parse: string -> Option<Event>): Result<string, StreamError>
  {
    if frames == [] then Ok(fullAnswer)
    else
      match Replay(fullAnswer, frames[..|frames| - 1], parse)
      case Err(e) => Err(e)
      case Ok(acc) => FrameStep(acc, frames[|frames| - 1], parse)
  }

  /** Splitting what is buffered after more input arrives gives the frames
      already split off, then the split of the old tail and the new input:
      the frames do not depend on where the stream was cut. */
  lemma {:induction false} SplitAppend(a: string, b: string)
    ensures SplitOnBreak(a + b) == Frames(a) + SplitOnBreak(Pending(a) + b)
    decreases |a|
  {
    match FindBreak(a, 0)
    case None =>
      assert SplitOnBreak(a) == [a];
    case Some(i) =>
      var rest := a[i + 2..];
      FirstBreakOfAppend(a, b, i);
      assert (a + b)[i + 2..] == rest + b;
      assert (a + b)[..i] == a[..i];
      SplitAppend(rest, b);
      var p := SplitOnBreak(rest);
      assert SplitOnBreak(a) == [a[..i]] + p;
      assert Frames(a) == [a[..i]] + Frames(rest);
  }

  lemma FirstBreakOfAppend(a: string, b: string, i: nat)
    requires FindBreak(a, 0) == Some(i)
    ensures FindBreak(a + b, 0) == Some(i)
  {
    assert BreakAt(a + b, i);
    var r := FindBreak(a + b, 0);
    assert forall j :: 0 <= j < i ==> (BreakAt(a + b, j) ==> BreakAt(a, j));
  }

  /** The frames split off a prefix of the stream come first among the
      frames of the whole stream. */
  lemma FramesPrefix(a: string, b: string)
    ensures Frames(a) <= Frames(a + b)
  {
    SplitAppend(a, b);
  }

  lemma {:induction false} ConcatPrefix(chunks: seq<string>, i: nat)
    requires i <= |chunks|
    ensures Concat(chunks[..i]) <= Concat(chunks)
    decreases |chunks|
  {
    if i < |chunks| {
      var init := chunks[..|chunks| - 1];
      assert init[..i] == chunks[..i];
      ConcatPrefix(init, i);
    } else {
      assert chunks[..i] == chunks;
    }
  }

  /** Replaying two runs of frames is replaying the first, then the second
      from where the first ended; a failure in the first is final. */
  lemma {:induction false} ReplayAppend(acc: string, xs: seq<string>, ys: seq<string>, parse: string -> Option<Event>)
    ensures Replay(acc, xs + ys, parse) ==
      match Replay(acc, xs, parse)
      case Err(e) => Err(e)
      case Ok(mid) => Replay(mid, ys, parse)
    decreases |ys|
  {
    if ys == [] {
      assert xs + ys == xs;
    } else {
      var init := ys[..|ys| - 1];
      assert (xs + ys)[..|xs + ys| - 1] == xs + init;
      assert (xs + ys)[|xs + ys| - 1] == ys[|ys| - 1];
      ReplayAppend(acc, xs, init, parse);
    }
  }

  /** One read step: the frames split off, followed by the new buffer and
      joined with "\n\n", give back the old buffer and the new input, and
      the new buffer holds no "\n\n". */
  lemma ReadStep(buffer: string, chunk: string)
    ensures Join(Frames(buffer + chunk) + [Pending(buffer + chunk)], Break) == buffer + chunk
    ensures !HasBreak(Pending(buffer + chunk))
    ensures forall i :: 0 <= i < |Frames(buffer + chunk)| ==>
              !HasBreak(Frames(buffer + chunk)[i]) &&
              (Frames(buffer + chunk)[i] == [] || Frames(buffer + chunk)[i][|Frames(buffer + chunk)[i]| - 1] != '\n')
  {
    var p := SplitOnBreak(buffer + chunk);
    assert p[..|p| - 1] + [p[|p| - 1]] == p;
    SplitOnBreakLeftmost(buffer + chunk);
    var frames := Frames(buffer + chunk);
    assert frames == p[..|p| - 1];
    forall i | 0 <= i < |frames|
      ensures !HasBreak(frames[i]) && (frames[i] == [] || frames[i][|frames[i]| - 1] != '\n')
    {
      assert frames[i] == p[i];
    }
  }

  /** The `for (const line of lines)` loop. */
  method HandleFrames(fullAnswer: string, lines: seq<string>, parse: string -> Option<Event>)
    returns (r: Result<string, StreamError>)
    ensures r == Replay(fullAnswer, lines, parse)
  {
    var answer := fullAnswer;
    for j := 0 to |lines|
      invariant Replay(fullAnswer, lines[..j], parse) == Ok(answer)
    {
      assert lines[..j + 1][..j] == lines[..j];
      if StartsWith(lines[j], DataPrefix) {
        var event := parse(lines[j][|DataPrefix|..]);
        if event.None? {
          assert Replay(fullAnswer, lines[..j + 1], parse).Err?;
          assert lines == lines[..j + 1] + lines[j + 1..];
          ReplayAppend(fullAnswer, lines[..j + 1], lines[j + 1..], parse);
          return Err(MalformedEvent);
        }
        if event.value.Answer? {
          answer := answer + event.value.text;
        }
      }
    }
    assert lines[..|lines|] == lines;
    return Ok(answer);
  }

  /** The read loop of `streamAnswer` and `streamCustomAnswer` over the
      decoded chunks of the response body. The answer is the one the frames
      of the whole stream give, so it does not depend on how the stream was
      cut into chunks; the unterminated tail is never parsed. */
  method StreamAnswer(chunks: seq<string>, parse: string -> Option<Event>) returns (r: Result<string, StreamError>)
    ensures r == Replay("", Frames(Concat(chunks)), parse)
  {
    var buffer := "";
    var fullAnswer := "";
    for i := 0 to |chunks|
      invariant buffer == Pending(Concat(chunks[..i]))
      invariant Replay("", Frames(Concat(chunks[..i])), parse) == Ok(fullAnswer)
    {
      AdvanceStream(chunks, i);
      buffer := buffer + chunks[i];
      var lines := SplitOnBreak(buffer);
      buffer := lines[|lines| - 1];
      lines := lines[..|lines| - 1];
      ReplayAppend("", Frames(Concat(chunks[..i])), lines, parse);
      var step := HandleFrames(fullAnswer, lines, parse);
      if step.Err? {
        StreamFailure(chunks, i, parse);
        return Err(step.error);
      }
      fullAnswer := step.value;
    }
    assert chunks[..|chunks|] == chunks;
    return Ok(fullAnswer);
  }

  /** Reading chunk `i` splits the buffered tail and the chunk; the complete
      pieces are the next frames of the stream and the last piece is the new
      tail. */
  lemma AdvanceStream(chunks: seq<string>, i: nat)
    requires i < |chunks|
    ensures var p := SplitOnBreak(Pending(Concat(chunks[..i])) + chunks[i]);
      Frames(Concat(chunks[..i + 1])) == Frames(Concat(chunks[..i])) + p[..|p| - 1] &&
      Pending(Concat(chunks[..i + 1])) == p[|p| - 1]
  {
    assert chunks[..i + 1][..i] == chunks[..i];
    AdvanceSplit(Concat(chunks[..i]), chunks[i]);
  }

  lemma AdvanceSplit(a: string, b: string)
    ensures var p := SplitOnBreak(Pending(a) + b);
      Frames(a + b) == Frames(a) + p[..|p| - 1] && Pending(a + b) == p[|p| - 1]
  {
    var p := SplitOnBreak(Pending(a) + b);
    var whole := SplitOnBreak(a + b);
    SplitAppend(a, b);
    DropLast(Frames(a), p);
    assert Frames(a + b) == whole[..|whole| - 1];
    assert Pending(a + b) == whole[|whole| - 1];
  }

  /** Dropping or taking the last element of `f + p` when `p` is non-empty. */
  lemma DropLast<T>(f: seq<T>, p: seq<T>)
    requires |p| >= 1
    ensures (f + p)[..|f + p| - 1] == f + p[..|p| - 1]
    ensures (f + p)[|f + p| - 1] == p[|p| - 1]
  {
  }

  /** A failure among the frames of the first `i + 1` chunks is the result
      for the whole stream. */
  lemma StreamFailure(chunks: seq<string>, i: nat, parse: string -> Option<Event>)
    requires i < |chunks|
    requires Replay("", Frames(Concat(chunks[..i + 1])), parse).Err?
    ensures Replay("", Frames(Concat(chunks)), parse) == Replay("", Frames(Concat(chunks[..i + 1])), parse)
  {
    FramesOfPrefix(chunks, i + 1);
    FailureIsFinal(Frames(Concat(chunks[..i + 1])), Frames(Concat(chunks)), parse);
  }

  lemma FramesOfPrefix(chunks: seq<string>, i: nat)
    requires i <= |chunks|
    ensures Frames(Concat(chunks[..i])) <= Frames(Concat(chunks))
  {
    ConcatPrefix(chunks, i);
    FramesMonotone(Concat(chunks[..i]), Concat(chunks));
  }

  /** A longer stream has at least the frames of a shorter one. */
  lemma FramesMonotone(a: string, whole: string)
    requires a <= whole
    ensures Frames(a) <= Frames(whole)
  {
    var tail := whole[|a|..];
    assert whole == a + tail;
    FramesPrefix(a, tail);
  }

  lemma FailureIsFinal(failed: seq<string>, all: seq<string>, parse: string -> Option<Event>)
    requires failed <= all
    requires Replay("", failed, parse).Err?
    ensures Replay("", all, parse) == Replay("", failed, parse)
  {
    var later := all[|failed|..];
    assert all == failed + later;
    ReplayAppend("", failed, later, parse);
  }

  // ---------------------------------------------------------------------
  // The stream the back end emits
  // ---------------------------------------------------------------------

  /** The body `generate` in backend/main.py writes: one `data: <json>`
      frame per event, each ended by a blank line. */
  function Emit(payloads: seq<string>): string
  {
    if payloads == [] then "" else DataPrefix + payloads[0] + Break + Emit(payloads[1..])
  }

  predicate NoNewline(s: string)
  {
    forall i :: 0 <= i < |s| ==> s[i] != '\n'
  }

  function DataFrames(payloads: seq<string>): (r: seq<string>)
    ensures |r| == |payloads|
    ensures forall i :: 0 <= i < |payloads| ==> r[i] == DataPrefix + payloads[i]
  {
    seq(|payloads|, i requires 0 <= i < |payloads| => DataPrefix + payloads[i])
  }

  /** A single-line JSON payload (`json.dumps` writes no raw newline) comes
      back as one frame: the client splits the emitted body into exactly the
      frames written, followed by an empty tail. */
  lemma {:induction false} SplitEmitted(payloads: seq<string>)
    requires forall i :: 0 <= i < |payloads| ==> NoNewline(payloads[i])
    ensures SplitOnBreak(Emit(payloads)) == DataFrames(payloads) + [""]
    decreases |payloads|
  {
    if payloads == [] {
      assert FindBreak("", 0).None?;
    } else {
      var f := DataPrefix + payloads[0];
      assert NoNewline(f) by {
        assert forall j :: |DataPrefix| <= j < |f| ==> f[j] == payloads[0][j - |DataPrefix|];
      }
      assert Emit(payloads) == f + Break + Emit(payloads[1..]);
      SplitFrame(f, Emit(payloads[1..]));
      assert forall i :: 0 <= i < |payloads[1..]| ==> payloads[1..][i] == payloads[i + 1];
      SplitEmitted(payloads[1..]);
      assert DataFrames(payloads) == [f] + DataFrames(payloads[1..]);
      assert [f] + (DataFrames(payloads[1..]) + [""]) == ([f] + DataFrames(payloads[1..])) + [""];
    }
  }

  /** Nothing is left in the buffer once the whole emitted body is read. */
  lemma EmittedFrames(payloads: seq<string>)
    requires forall i :: 0 <= i < |payloads| ==> NoNewline(payloads[i])
    ensures Frames(Emit(payloads)) == DataFrames(payloads) && Pending(Emit(payloads)) == ""
  {
    SplitEmitted(payloads);
    var p := DataFrames(payloads) + [""];
    assert p[..|p| - 1] == DataFrames(payloads);
  }

  /** A frame without newlines followed by a blank line is split off whole. */
  lemma SplitFrame(f: string, rest: string)
    requires NoNewline(f)
    ensures SplitOnBreak(f + Break + rest) == [f] + SplitOnBreak(rest)
  {
    var s := f + Break + rest;
    assert forall j :: 0 <= j < |f| ==> s[j] == f[j];
    FirstBreakAt(s, |f|);
    assert s[..|f|] == f;
    assert s[|f| + 2..] == rest;
  }

  lemma FirstBreakAt(s: string, k: nat)
    requires BreakAt(s, k)
    requires forall j :: 0 <= j < k ==> s[j] != '\n'
    ensures FindBreak(s, 0) == Some(k)
  {
  }

  /** The answer text the events carry, in order. */
  function AnswerOf(payloads: seq<string>, parse: string -> Option<Event>): string
  {
    if payloads == [] then ""
    else
      AnswerOf(payloads[..|payloads| - 1], parse) + AnswerTail(parse(payloads[|payloads| - 1]))
  }

  /** Replaying the frames of well-formed events appends exactly the text
      of the answer events, in order; property and done events add nothing. */
  lemma {:induction false} ReplayDataFrames(acc: string, payloads: seq<string>, parse: string -> Option<Event>)
    requires forall i :: 0 <= i < |payloads| ==> parse(payloads[i]).Some?
    ensures Replay(acc, DataFrames(payloads), parse) == Ok(acc + AnswerOf(payloads, parse))
    decreases |payloads|
  {
    if payloads == [] {
      assert acc + "" == acc;
    } else {
      var n := |payloads|;
      var init := payloads[..n - 1];
      var frame := DataPrefix + payloads[n - 1];
      assert DataFrames(payloads) == DataFrames(init) + [frame];
      ReplayDataFrames(acc, init, parse);
      ReplaySnoc(acc, DataFrames(init), frame, parse);
      var mid := acc + AnswerOf(init, parse);
      var tail := AnswerTail(parse(payloads[n - 1]));
      DataFrameStep(mid, payloads[n - 1], parse);
      assert AnswerOf(payloads, parse) == AnswerOf(init, parse) + tail;
      assert mid + tail == acc + AnswerOf(payloads, parse);
    }
  }

  /** The text one parsed event adds to the answer. */
  function AnswerTail(event: Option<Event>): string
  {
    if event.Some? && event.value.Answer? then event.value.text else ""
  }

  lemma DataFrameStep(acc: string, payload: string, parse: string -> Option<Event>)
    requires parse(payload).Some?
    ensures FrameStep(acc, DataPrefix + payload, parse) == Ok(acc + AnswerTail(parse(payload)))
  {
    var frame := DataPrefix + payload;
    assert frame[|DataPrefix|..] == payload;
    assert StartsWith(frame, DataPrefix);
    assert acc + "" == acc;
  }

  lemma ReplaySnoc(acc: string, frames: seq<string>, x: string, parse: string -> Option<Event>)
    ensures Replay(acc, frames + [x], parse) ==
      match Replay(acc, frames, parse)
      case Err(e) => Err(e)
      case Ok(mid) => FrameStep(mid, x, parse)
  {
    assert (frames + [x])[..|frames|] == frames;
  }

  /** The round trip: however the emitted body is cut into chunks, the
      client ends with the concatenated answer fragments. */
  lemma StreamRoundTrip(payloads: seq<string>, chunks: seq<string>, parse: string -> Option<Event>)
    requires Concat(chunks) == Emit(payloads)
    requires forall i :: 0 <= i < |payloads| ==> NoNewline(payloads[i]) && parse(payloads[i]).Some?
    ensures Replay("", Frames(Concat(chunks)), parse) == Ok(AnswerOf(payloads, parse))
  {
    EmittedReplay(payloads, parse);
  }

  lemma EmittedReplay(payloads: seq<string>, parse: string -> Option<Event>)
    requires forall i :: 0 <= i < |payloads| ==> NoNewline(payloads[i]) && parse(payloads[i]).Some?
    ensures Replay("", Frames(Emit(payloads)), parse) == Ok(AnswerOf(payloads, parse))
  {
    assert forall i :: 0 <= i < |payloads| ==> NoNewline(payloads[i]);
    EmittedFrames(payloads);
    assert forall i :: 0 <= i < |payloads| ==> parse(payloads[i]).Some?;
    ReplayDataFrames("", payloads, parse);
    assert "" + AnswerOf(payloads, parse) == AnswerOf(payloads, parse);
  }

  // ---------------------------------------------------------------------
  // Question buttons
  // ---------------------------------------------------------------------

  /** A `.question-btn` element: its `data-question` attribute (absent reads
      as null) and whether its class list holds `active`. */
  class QuestionButton {
    const question: Option<string>
    var active: bool

    constructor (question: Option<string>)
      ensures this.question == question && !active
    {
      this.question := question;
      active := false;
    }
  }

  /** `updateButtonStates`: a button is active exactly when its
      `data-question` attribute equals the argument; no other object changes.
      The clicked button's attribute is passed on as it is, so a missing
      attribute (`null`, here `None`) matches every button that lacks one. */
  method UpdateButtonStates(buttons: seq<QuestionButton>, activeQuestionType: Option<string>)
    modifies set b | b in buttons
    ensures forall b :: b in buttons ==> (b.active <==> b.question == activeQuestionType)
  {
    for i := 0 to |buttons|
      invariant forall k :: 0 <= k < i ==> (buttons[k].active <==> buttons[k].question == activeQuestionType)
    {
      var button := buttons[i];
      if button.question == activeQuestionType {
        button.active := true;
      } else {
        button.active := false;
      }
    }
  }
}
