/** The word-window chunker `chunk_text` of backend/services/vector_store.py. */
module Chunker {

  import opened Wrappers
  import opened TextUtil

  /** `range(0, n, 0)` raises `ValueError`: the stride must not be zero. */
  datatype ChunkError = ZeroStep

  function Min(a: int, b: int): int
  {
    if a <= b then a else b
  }

  /** `words[i:i + size]` for a non-negative offset `i` below `|words|`. */
  function Window(words: seq<string>, i: nat, size: nat): seq<string>
    requires i <= |words|
  {
    words[i..Min(|words|, i + size)]
  }

  /** The chunks the loop emits from offset `i` onwards with stride `step`:
      each window is joined with single spaces and kept only when the joined
      string is non-empty. */
  function ChunksFrom(words: seq<string>, size: nat, step: nat, i: nat): seq<string>
    requires step > 0
    decreases if i < |words| then |words| - i else 0
  {
    if i >= |words| then []
    else
      var chunk := Join(Window(words, i, size), " ");
      (if chunk != "" then [chunk] else []) + ChunksFrom(words, size, step, i + step)
  }

  /** What `chunk_text(text, chunk_size, overlap)` returns. A zero stride is the
      `ValueError` of `range`; a negative stride is an empty `range` and so
      gives no chunks. */
  function ChunkSpec(text: string, chunkSize: nat, overlap: int): Result<seq<string>, ChunkError>
  {
    var step := chunkSize - overlap;
    if step == 0 then Err(ZeroStep)
    else if step < 0 then Ok([])
    else Ok(ChunksFrom(Words(text), chunkSize, step, 0))
  }

  /** `chunk_text`: split on whitespace, then slide a window of `chunkSize`
      words with stride `chunkSize - overlap`. */
  method ChunkText(text: string, chunkSize: nat, overlap: int) returns (r: Result<seq<string>, ChunkError>)
    ensures r == ChunkSpec(text, chunkSize, overlap)
  {
    var words := Words(text);
    var step := chunkSize - overlap;
    if step == 0 {
      return Err(ZeroStep);
    }
    var chunks: seq<string> := [];
    if step > 0 {
      var i: nat := 0;
      while i < |words|
        invariant chunks + ChunksFrom(words, chunkSize, step, i) == ChunksFrom(words, chunkSize, step, 0)
        decreases |words| - i
      {
        var chunk := Join(words[i..Min(|words|, i + chunkSize)], " ");
        assert chunk == Join(Window(words, i, chunkSize), " ");
        ghost var rest := ChunksFrom(words, chunkSize, step, i + step);
        assert ChunksFrom(words, chunkSize, step, i) == (if chunk != "" then [chunk] else []) + rest;
        if chunk != "" {
          assert chunks + ([chunk] + rest) == (chunks + [chunk]) + rest;
          chunks := chunks + [chunk];
        } else {
          assert [] + rest == rest;
        }
        i := i + step;
      }
      assert ChunksFrom(words, chunkSize, step, i) == [];
      assert chunks == ChunksFrom(words, chunkSize, step, 0);
    }
    assert step > 0 ==> ChunkSpec(text, chunkSize, overlap) == Ok(ChunksFrom(words, chunkSize, step, 0));
    return Ok(chunks);
  }

  /** Number of windows a run of `m` remaining words yields with stride `step`. */
  function Count(m: int, step: nat): nat
    requires step > 0
    decreases if m > 0 then m else 0
  {
    if m <= 0 then 0 else 1 + Count(m - step, step)
  }

  lemma JoinStartsWithFirst(parts: seq<string>, sep: string)
    requires parts != []
    ensures |Join(parts, sep)| >= |parts[0]|
  {
  }

  /** There is one chunk per window offset below the word count. */
  lemma {:induction false} ChunksFromCount(words: seq<string>, size: nat, step: nat, i: nat)
    requires size > 0 && step > 0
    requires forall k :: 0 <= k < |words| ==> IsWord(words[k])
    ensures |ChunksFrom(words, size, step, i)| == Count(|words| - i, step)
    decreases if i < |words| then |words| - i else 0
  {
    if i < |words| {
      JoinStartsWithFirst(Window(words, i, size), " ");
      ChunksFromCount(words, size, step, i + step);
    }
  }

  /** Chunk `j` from offset `i` is the join of the window at `i + j * step`. */
  lemma {:induction false} ChunksFromShape(words: seq<string>, size: nat, step: nat, i: nat)
    requires size > 0 && step > 0
    requires forall k :: 0 <= k < |words| ==> IsWord(words[k])
    ensures forall j :: 0 <= j < |ChunksFrom(words, size, step, i)| ==>
              i + j * step < |words| &&
              ChunksFrom(words, size, step, i)[j] == Join(Window(words, i + j * step, size), " ")
    decreases if i < |words| then |words| - i else 0
  {
    if i < |words| {
      var w := Window(words, i, size);
      JoinStartsWithFirst(w, " ");
      var chunk := Join(w, " ");
      ChunksFromShape(words, size, step, i + step);
      var rest := ChunksFrom(words, size, step, i + step);
      assert ChunksFrom(words, size, step, i) == [chunk] + rest;
      forall j | 0 <= j < 1 + |rest|
        ensures i + j * step < |words|
        ensures ChunksFrom(words, size, step, i)[j] == Join(Window(words, i + j * step, size), " ")
      {
        if j > 0 {
          assert i + j * step == (i + step) + (j - 1) * step;
          assert ChunksFrom(words, size, step, i)[j] == rest[j - 1];
        }
      }
    }
  }

  lemma {:induction false} CountIsCeiling(m: nat, step: nat)
    requires step > 0
    ensures Count(m, step) == (m + step - 1) / step
    decreases m
  {
    if m > 0 {
      if m <= step {
        assert Count(m - step, step) == 0;
        DivInRange(m + step - 1, step, 1);
      } else {
        CountIsCeiling(m - step, step);
        DivShift(m + step - 1, step);
      }
    } else {
      DivInRange(step - 1, step, 0);
    }
  }

  lemma MulSign(t: int, s: int)
    requires s > 0
    ensures t >= 0 ==> t * s >= 0
    ensures t < 0 ==> t * s < 0
  {
  }

  lemma DivInRange(x: int, s: int, q: int)
    requires s > 0 && q * s <= x < (q + 1) * s
    ensures x / s == q
  {
    var d, r := x / s, x % s;
    assert x == d * s + r && 0 <= r < s;
    MulSign(d - q - 1, s);
    assert (d - q - 1) * s == d * s - (q + 1) * s;
    MulSign(q - d - 1, s);
    assert (q - d - 1) * s == q * s - (d + 1) * s;
    assert (d + 1) * s == d * s + s;
  }

  lemma DivShift(x: int, s: int)
    requires s > 0 && x >= s
    ensures x / s == (x - s) / s + 1
  {
    var d, r := (x - s) / s, (x - s) % s;
    assert x - s == d * s + r && 0 <= r < s;
    assert x == (d + 1) * s + r;
    DivInRange(x, s, d + 1);
  }

  /** The words of the window a chunk was made from, re-split. */
  lemma WindowWords(words: seq<string>, i: nat, size: nat)
    requires i <= |words|
    requires forall k :: 0 <= k < |words| ==> IsWord(words[k])
    ensures Words(Join(Window(words, i, size), " ")) == Window(words, i, size)
  {
    WordsOfJoin(Window(words, i, size));
  }

  /** Empty or whitespace-only text gives no chunks (unless the stride is
      zero, which fails before any chunk is considered). */
  lemma ChunkBlankText(text: string, chunkSize: nat, overlap: int)
    requires forall i :: 0 <= i < |text| ==> IsSpace(text[i])
    requires chunkSize != overlap
    ensures ChunkSpec(text, chunkSize, overlap) == Ok([])
  {
    WordsEmptyIff(text);
  }

  lemma ChunkAt(words: seq<string>, size: nat, step: nat, j: nat)
    requires size > 0 && step > 0
    requires forall k :: 0 <= k < |words| ==> IsWord(words[k])
    requires j < |ChunksFrom(words, size, step, 0)|
    ensures j * step < |words|
    ensures ChunksFrom(words, size, step, 0)[j] == Join(Window(words, j * step, size), " ")
    ensures Words(ChunksFrom(words, size, step, 0)[j]) == Window(words, j * step, size)
    ensures ChunksFrom(words, size, step, 0)[j] != ""
  {
    ChunksFromShape(words, size, step, 0);
    assert 0 + j * step == j * step;
    WindowWords(words, j * step, size);
    JoinStartsWithFirst(Window(words, j * step, size), " ");
  }

  /** For a valid configuration `0 <= overlap < chunkSize` there are
      ceil(n / step) chunks for n words and stride `step = chunkSize - overlap`. */
  lemma ChunkCount(text: string, chunkSize: nat, overlap: int)
    requires 0 <= overlap < chunkSize
    ensures ChunkSpec(text, chunkSize, overlap).Ok?
    ensures |ChunkSpec(text, chunkSize, overlap).value| == (|Words(text)| + (chunkSize - overlap) - 1) / (chunkSize - overlap)
  {
    ChunksFromCount(Words(text), chunkSize, chunkSize - overlap, 0);
    CountIsCeiling(|Words(text)|, chunkSize - overlap);
  }

  /** For a valid configuration, chunk `j` is words `j * step` up to
      `min(n, j * step + chunkSize)` joined by single spaces; every chunk is
      non-empty and re-splits into at most `chunkSize` words. */
  lemma ChunkLayout(text: string, chunkSize: nat, overlap: int, j: nat)
    requires 0 <= overlap < chunkSize
    requires j < |ChunkSpec(text, chunkSize, overlap).value|
    ensures ChunkSpec(text, chunkSize, overlap).Ok?
    ensures var words, step, chunks := Words(text), chunkSize - overlap, ChunkSpec(text, chunkSize, overlap).value;
      && j * step < |words|
      && chunks[j] == Join(words[j * step..Min(|words|, j * step + chunkSize)], " ")
      && chunks[j] != ""
      && Words(chunks[j]) == words[j * step..Min(|words|, j * step + chunkSize)]
      && |Words(chunks[j])| <= chunkSize
  {
    ChunkAt(Words(text), chunkSize, chunkSize - overlap, j);
  }

  /** Two consecutive chunks share exactly `overlap` words when the earlier
      one is full length: the last `overlap` words of chunk `j` are the first
      `overlap` words of chunk `j + 1`. */
  lemma ChunkOverlap(text: string, chunkSize: nat, overlap: int, j: nat)
    requires 0 <= overlap < chunkSize
    requires ChunkSpec(text, chunkSize, overlap).Ok?
    requires j + 1 < |ChunkSpec(text, chunkSize, overlap).value|
    requires |Words(ChunkSpec(text, chunkSize, overlap).value[j])| == chunkSize
    ensures var chunks := ChunkSpec(text, chunkSize, overlap).value;
      |Words(chunks[j + 1])| >= overlap &&
      Words(chunks[j])[chunkSize - overlap..] == Words(chunks[j + 1])[..overlap]
  {
    ChunkLayout(text, chunkSize, overlap, j);
    ChunkLayout(text, chunkSize, overlap, j + 1);
    var words, step := Words(text), chunkSize - overlap;
    var a := j * step;
    assert (j + 1) * step == a + step;
    assert a + chunkSize <= |words|;
  }

  /** The first `step` words of a word list (all of them when shorter). */
  function Leading(ws: seq<string>, step: nat): seq<string>
  {
    ws[..Min(step, |ws|)]
  }

  /** The words of the chunks with the overlap dropped: each chunk's words up
      to the next chunk's start, in chunk order. */
  ghost function Restitch(chunks: seq<string>, step: nat): seq<string>
  {
    if chunks == [] then [] else Leading(Words(chunks[0]), step) + Restitch(chunks[1..], step)
  }

  lemma {:induction false} RestitchFrom(words: seq<string>, size: nat, step: nat, i: nat)
    requires 0 < step <= size
    requires forall k :: 0 <= k < |words| ==> IsWord(words[k])
    requires i <= |words|
    ensures Restitch(ChunksFrom(words, size, step, i), step) == words[i..]
    decreases |words| - i
  {
    if i < |words| {
      var w := Window(words, i, size);
      JoinStartsWithFirst(w, " ");
      WindowWords(words, i, size);
      var chunk := Join(w, " ");
      var rest := ChunksFrom(words, size, step, i + step);
      assert ChunksFrom(words, size, step, i) == [chunk] + rest;
      assert ([chunk] + rest)[1..] == rest;
      assert Leading(Words(chunk), step) == words[i..Min(|words|, i + step)];
      if i + step <= |words| {
        RestitchFrom(words, size, step, i + step);
        assert words[i..] == words[i..i + step] + words[i + step..];
      } else {
        assert rest == [];
      }
    }
  }

  /** Every input word appears in some chunk, in the original order: the
      chunks with their overlap dropped give back the words of the text. */
  lemma ChunkCoverage(text: string, chunkSize: nat, overlap: int)
    requires 0 <= overlap < chunkSize
    ensures ChunkSpec(text, chunkSize, overlap).Ok?
    ensures Restitch(ChunkSpec(text, chunkSize, overlap).value, chunkSize - overlap) == Words(text)
  {
    RestitchFrom(Words(text), chunkSize, chunkSize - overlap, 0);
  }
}
