/** Character and string helpers shared by the model: Python's `str.split()`,
    `str.join`, `str.lower()`, the `in` substring test, and the JavaScript
    `String.prototype.split` on a fixed separator. */
module TextUtil {

  import opened Wrappers

  /** Python's `str.isspace()` on one character: the characters that
      `str.split()` with no argument and the regex class `\s` treat as
      whitespace. */
  predicate IsSpace(c: char)
  {
    c == ' ' || ('\t' <= c <= '\r') || ('\U{1c}' <= c <= '\U{1f}') ||
    c == '\U{85}' || c == '\U{a0}' || c == '\U{1680}' ||
    ('\U{2000}' <= c <= '\U{200a}') || c == '\U{2028}' || c == '\U{2029}' ||
    c == '\U{202f}' || c == '\U{205f}' || c == '\U{3000}'
  }

  /** The regex class `\d`, restricted to ASCII digits. */
  predicate IsDigit(c: char)
  {
    '0' <= c <= '9'
  }

  predicate AllDigits(s: string)
  {
    forall i :: 0 <= i < |s| ==> IsDigit(s[i])
  }

  /** A word as `str.split()` produces it: non-empty, no whitespace. */
  predicate IsWord(w: string)
  {
    w != [] && forall i :: 0 <= i < |w| ==> !IsSpace(w[i])
  }

  function LowerChar(c: char): (d: char)
    ensures 'A' <= c <= 'Z' ==> 'a' <= d <= 'z'
    ensures !('A' <= c <= 'Z') ==> d == c
  {
    if 'A' <= c <= 'Z' then (c as int - 'A' as int + 'a' as int) as char else c
  }

  /** `str.lower()` on ASCII letters; every other character is kept. */
  function Lower(s: string): (r: string)
    ensures |r| == |s|
    ensures forall i :: 0 <= i < |s| ==> r[i] == LowerChar(s[i])
  {
    seq(|s|, i requires 0 <= i < |s| => LowerChar(s[i]))
  }

  /** Python's `needle in haystack` on strings. */
  predicate Contains(haystack: string, needle: string)
  {
    exists i | 0 <= i <= |haystack| :: needle <= haystack[i..]
  }

  predicate StartsWith(s: string, prefix: string)
  {
    prefix <= s
  }

  predicate EndsWith(s: string, suffix: string)
  {
    |suffix| <= |s| && s[|s| - |suffix|..] == suffix
  }

  /** Python's `sep.join(parts)` and JavaScript's `parts.join(sep)`. */
  function Join(parts: seq<string>, sep: string): (r: string)
    decreases |parts|
  {
    if |parts| == 0 then ""
    else if |parts| == 1 then parts[0]
    else parts[0] + sep + Join(parts[1..], sep)
  }

  lemma {:induction false} JoinSnoc(parts: seq<string>, x: string, sep: string)
    requires parts != []
    ensures Join(parts + [x], sep) == Join(parts, sep) + sep + x
    decreases |parts|
  {
    if |parts| == 1 {
      assert parts + [x] == [parts[0], x];
      assert ([parts[0], x])[1..] == [x];
    } else {
      assert (parts + [x])[1..] == parts[1..] + [x];
      JoinSnoc(parts[1..], x, sep);
    }
  }

  /** The index just past the word that starts at `i` (or `i` itself when
      `s[i]` is whitespace). */
  function WordEnd(s: string, i: nat): (k: nat)
    requires i <= |s|
    ensures i <= k <= |s|
    ensures forall j :: i <= j < k ==> !IsSpace(s[j])
    ensures k == |s| || IsSpace(s[k])
    decreases |s| - i
  {
    if i == |s| || IsSpace(s[i]) then i else WordEnd(s, i + 1)
  }

  /** Python's `s.split()`: the maximal runs of non-whitespace characters,
      left to right. */
  function Words(s: string): (ws: seq<string>)
    ensures forall i :: 0 <= i < |ws| ==> IsWord(ws[i])
    decreases |s|
  {
    if s == [] then []
    else if IsSpace(s[0]) then Words(s[1..])
    else
      var k := WordEnd(s, 0);
      [s[..k]] + Words(s[k..])
  }

  /** A text made only of whitespace (the empty text included) has no words,
      and a text with a non-whitespace character has at least one. */
  lemma {:induction false} WordsEmptyIff(s: string)
    ensures Words(s) == [] <==> forall i :: 0 <= i < |s| ==> IsSpace(s[i])
    decreases |s|
  {
    if s != [] && IsSpace(s[0]) {
      WordsEmptyIff(s[1..]);
      if forall i :: 0 <= i < |s[1..]| ==> IsSpace(s[1..][i]) {
        forall i | 0 <= i < |s| ensures IsSpace(s[i]) {
          if i > 0 { assert s[i] == s[1..][i - 1]; }
        }
      }
    }
  }

  lemma WordEndOfWord(w: string, rest: string)
    requires IsWord(w)
    requires rest == [] || IsSpace(rest[0])
    ensures WordEnd(w + rest, 0) == |w|
  {
    var s := w + rest;
    assert forall j :: 0 <= j < |w| ==> s[j] == w[j];
    assert rest != [] ==> s[|w|] == rest[0];
  }

  /** Splitting words that were joined with single spaces gives the words
      back: the chunker's output re-splits into its word window. */
  lemma {:induction false} WordsOfJoin(ws: seq<string>)
    requires forall i :: 0 <= i < |ws| ==> IsWord(ws[i])
    ensures Words(Join(ws, " ")) == ws
    decreases |ws|
  {
    if |ws| == 1 {
      var w := ws[0];
      WordEndOfWord(w, "");
      assert w + "" == w;
      assert w[|w|..] == [];
    } else if |ws| > 1 {
      var w := ws[0];
      var tail := Join(ws[1..], " ");
      var s := w + " " + tail;
      assert Join(ws, " ") == s;
      assert s == w + (" " + tail);
      WordEndOfWord(w, " " + tail);
      assert s[..|w|] == w;
      assert s[|w|..] == " " + tail;
      assert (" " + tail)[1..] == tail;
      WordsOfJoin(ws[1..]);
    }
  }

  /** The JavaScript separator the front end splits its stream on. */
  const Break: string := "\n\n"

  /** A `"\n\n"` separator starts at index `j` of `s`. */
  predicate BreakAt(s: string, j: int)
  {
    0 <= j && j + 1 < |s| && s[j] == '\n' && s[j + 1] == '\n'
  }

  predicate HasBreak(s: string)
  {
    exists j | 0 <= j < |s| :: BreakAt(s, j)
  }

  /** Index of the first `"\n\n"` at or after `from`, if any. */
  function FindBreak(s: string, from: nat): (r: Option<nat>)
    requires from <= |s|
    ensures r.Some? ==> from <= r.value && BreakAt(s, r.value)
    ensures r.Some? ==> forall j :: from <= j < r.value ==> !BreakAt(s, j)
    ensures r.None? ==> forall j :: from <= j ==> !BreakAt(s, j)
    decreases |s| - from
  {
    if from + 1 >= |s| then None
    else if BreakAt(s, from) then Some(from)
    else FindBreak(s, from + 1)
  }

  /** JavaScript's `s.split("\n\n")`: the pieces between the separators
      found by a left-to-right scan. */
  function SplitOnBreak(s: string): (pieces: seq<string>)
    ensures |pieces| >= 1
    ensures Join(pieces, Break) == s
    ensures forall i :: 0 <= i < |pieces| ==> !HasBreak(pieces[i])
    decreases |s|
  {
    match FindBreak(s, 0)
    case None => [s]
    case Some(i) =>
      var rest := SplitOnBreak(s[i + 2..]);
      assert !HasBreak(s[..i]) by {
        forall j | 0 <= j < |s[..i]| ensures !BreakAt(s[..i], j) {
          assert BreakAt(s[..i], j) ==> BreakAt(s, j);
        }
      }
      assert s == s[..i] + Break + s[i + 2..];
      [s[..i]] + rest
  }

  /** Every piece but the last ends in something other than a newline: the
      scan cuts at the leftmost `"\n\n"`, so of three newlines in a row the
      first two are the separator and the third starts the next piece. */
  lemma {:induction false} SplitOnBreakLeftmost(s: string)
    ensures forall i :: 0 <= i < |SplitOnBreak(s)| - 1 ==>
              SplitOnBreak(s)[i] == [] || SplitOnBreak(s)[i][|SplitOnBreak(s)[i]| - 1] != '\n'
    decreases |s|
  {
    match FindBreak(s, 0)
    case None =>
    case Some(k) =>
      var rest := s[k + 2..];
      SplitOnBreakLeftmost(rest);
      var pieces := SplitOnBreak(s);
      assert pieces == [s[..k]] + SplitOnBreak(rest);
      assert forall i :: 1 <= i < |pieces| ==> pieces[i] == SplitOnBreak(rest)[i - 1];
      assert k > 0 ==> s[..k][k - 1] != '\n' by {
        if k > 0 {
          assert !BreakAt(s, k - 1);
        }
      }
  }

  /** Three newlines split as `["", "\n"]`, not `["\n", ""]`. */
  lemma SplitThreeNewlines()
    ensures SplitOnBreak("\n\n\n") == ["", "\n"]
  {
    var s := "\n\n\n";
    assert BreakAt(s, 0);
    assert s[2..] == "\n";
    assert !HasBreak("\n");
    assert FindBreak("\n", 0).None?;
  }

  /** A scan that meets a `"\n\n"` at `k` and none before it stops at `k`. */
  lemma FirstBreakIs(s: string, k: nat)
    requires BreakAt(s, k)
    requires forall j :: 0 <= j < k ==> !BreakAt(s, j)
    ensures FindBreak(s, 0) == Some(k)
  {
  }

  /** The split is the only one with its properties: pieces that join back
      to `s`, contain no separator, and (all but the last) do not end with a
      newline are exactly what `split("\n\n")` returns. So a run of three or
      more newlines is cut at its leftmost pair. */
  lemma {:induction false} SplitOnBreakUnique(s: string, pieces: seq<string>)
    requires |pieces| >= 1
    requires Join(pieces, Break) == s
    requires forall i :: 0 <= i < |pieces| ==> !HasBreak(pieces[i])
    requires forall i :: 0 <= i < |pieces| - 1 ==> pieces[i] == [] || pieces[i][|pieces[i]| - 1] != '\n'
    ensures pieces == SplitOnBreak(s)
    decreases |pieces|
  {
    if |pieces| == 1 {
      assert s == pieces[0];
      assert !HasBreak(s);
    } else {
      var f, tail := pieces[0], pieces[1..];
      var k := |f|;
      assert s == f + Break + Join(tail, Break);
      forall j | 0 <= j < k
        ensures !BreakAt(s, j)
      {
        if j + 1 < k {
          assert !BreakAt(f, j);
        } else {
          assert s[j] == f[k - 1];
        }
      }
      FirstBreakIs(s, k);
      assert s[..k] == f;
      assert s[k + 2..] == Join(tail, Break);
      assert forall i :: 0 <= i < |tail| ==> tail[i] == pieces[i + 1];
      SplitOnBreakUnique(Join(tail, Break), tail);
    }
  }
}
