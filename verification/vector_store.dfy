/** The FAISS-backed `VectorStore` of backend/services/vector_store.py.

    The embedding service and the FAISS index are oracles passed in as
    functions: `embed` maps a text to a vector of the opaque type `V`, or to
    `None` when the service call fails; `knn` stands for `index.search`, given
    the stored vectors, the query vector and `k`, and returns the labels and
    distances it reports (FAISS pads short answers with the label -1). The
    directory of persisted files is a `FileStore` value. */
module VectorStores {

  import opened Wrappers

  /** A JSON-like value in a metadata dictionary. */
  datatype MetaValue = Str(s: string) | Int(i: int)

  type Metadata = map<string, MetaValue>

  /** One entry of the index's answer: a stored position and its distance. */
  datatype Neighbor = Neighbor(position: int, distance: real)

  /** One `(text, metadata, distance)` tuple returned by `search`. */
  datatype Hit = Hit(text: string, metadata: Metadata, distance: real)

  datatype StoreError =
    | EmbeddingFailed   // the embedding service raised
    | EmptyBatch        // `index.add` on the one-dimensional empty array
    | IndexOutOfRange   // `texts[idx]` or `metadata[idx]` raised `IndexError`

  /** The three persisted artifacts of every saved store, each keyed by its
      file name inside the index directory. */
  datatype FileStore<V> = FileStore(
    indexFiles: map<string, seq<V>>,
    textFiles: map<string, seq<string>>,
    metadataFiles: map<string, seq<Metadata>>)

  /** What a successful `load` puts back into the three fields. */
  datatype Snapshot<V> = Snapshot(index: seq<V>, texts: seq<string>, metadata: seq<Metadata>)

  const DefaultName: string := "knowledge_base"
  const DefaultDimension: nat := 1536

  function IndexFile(name: string): string { name + ".index" }
  function TextsFile(name: string): string { name + "_texts.pkl" }
  function MetadataFile(name: string): string { name + "_metadata.pkl" }

  /** Python's `s[i]` for an integer `i`: negative positions count from the
      end; anything outside `-|s| <= i < |s|` raises `IndexError`. */
  function PyIndex<T>(s: seq<T>, i: int): (r: Option<T>)
    ensures r.Some? <==> -|s| <= i < |s|
    ensures 0 <= i < |s| ==> r == Some(s[i])
    ensures -|s| <= i < 0 ==> r == Some(s[|s| + i])
  {
    if 0 <= i < |s| then Some(s[i])
    else if -|s| <= i < 0 then Some(s[|s| + i])
    else None
  }

  /** The embeddings of `texts`, one per text in order, or `None` when some
      call to the embedding service fails. */
  function EmbedAll<V>(texts: seq<string>, embed: string -> Option<V>): (r: Option<seq<V>>)
    ensures r.None? <==> exists i :: 0 <= i < |texts| && embed(texts[i]).None?
    ensures r.Some? ==> (|r.value| == |texts| &&
              forall i :: 0 <= i < |texts| ==> embed(texts[i]) == Some(r.value[i]))
  {
    if texts == [] then Some([])
    else
      var init := texts[..|texts| - 1];
      assert forall i :: 0 <= i < |init| ==> init[i] == texts[i];
      match (EmbedAll(init, embed), embed(texts[|texts| - 1]))
      case (Some(es), Some(e)) => Some(es + [e])
      case (None, _) => None
      case (_, None) => None
  }

  /** The metadata entries `add_texts` appends: the given list when it is
      truthy, otherwise one empty dictionary per text. */
  function MetadataBatch(texts: seq<string>, metadata: Option<seq<Metadata>>): seq<Metadata>
  {
    if metadata.Some? && metadata.value != [] then metadata.value
    else seq(|texts|, _ => map[])
  }

  /** What the search loop makes of one reported neighbour: skipped when its
      label is not below `|texts|`, an error when Python indexing raises,
      otherwise the hit at that (possibly negative) position. */
  function HitFor(n: Neighbor, texts: seq<string>, metadata: seq<Metadata>): Result<Option<Hit>, StoreError>
  {
    if n.position < |texts| then
      match (PyIndex(texts, n.position), PyIndex(metadata, n.position))
      case (Some(t), Some(m)) => Ok(Some(Hit(t, m, n.distance)))
      case _ => Err(IndexOutOfRange)
    else Ok(None)
  }

  /** The hits of the search loop, in the order the index reports them. */
  function CollectHits(ns: seq<Neighbor>, texts: seq<string>, metadata: seq<Metadata>): (r: Result<seq<Hit>, StoreError>)
    ensures r.Ok? ==> |r.value| <= |ns|
  {
    if ns == [] then Ok([])
    else
      match HitFor(ns[0], texts, metadata)
      case Err(e) => Err(e)
      case Ok(None) => CollectHits(ns[1..], texts, metadata)
      case Ok(Some(h)) => Prepend([h], CollectHits(ns[1..], texts, metadata))
  }

  /** What `search(query, k)` returns for the given stored state. */
  function SearchSpec<V>(index: seq<V>, texts: seq<string>, metadata: seq<Metadata>, query: string, k: nat,
                         embed: string -> Option<V>, knn: (seq<V>, V, nat) -> seq<Neighbor>): (r: Result<seq<Hit>, StoreError>)
    ensures r.Ok? ==> embed(query).Some? && |r.value| <= |knn(index, embed(query).value, k)|
  {
    match embed(query)
    case None => Err(EmbeddingFailed)
    case Some(q) => CollectHits(knn(index, q, k), texts, metadata)
  }

  /** The file store after `save(name)` of the given state. */
  function SaveSpec<V>(fs: FileStore<V>, name: string, index: seq<V>, texts: seq<string>, metadata: seq<Metadata>): FileStore<V>
  {
    FileStore(
      fs.indexFiles[IndexFile(name) := index],
      fs.textFiles[TextsFile(name) := texts],
      fs.metadataFiles[MetadataFile(name) := metadata])
  }

  /** What `load(name)` reads: nothing unless all three files exist. */
  function LoadSpec<V>(fs: FileStore<V>, name: string): Option<Snapshot<V>>
  {
    if IndexFile(name) in fs.indexFiles && TextsFile(name) in fs.textFiles && MetadataFile(name) in fs.metadataFiles
    then Some(Snapshot(fs.indexFiles[IndexFile(name)], fs.textFiles[TextsFile(name)], fs.metadataFiles[MetadataFile(name)]))
    else None
  }

  class VectorStore<V> {
    const dimension: nat
    var index: seq<V>
    var texts: seq<string>
    var metadata: seq<Metadata>

    /** The three parallel sequences have one entry per stored chunk. */
    predicate Aligned()
      reads this
    {
      |index| == |texts| == |metadata|
    }

    /** The stored contents, as `save` writes them. */
    function State(): Snapshot<V>
      reads this
    {
      Snapshot(index, texts, metadata)
    }

    constructor (dimension: nat := DefaultDimension)
      ensures this.dimension == dimension
      ensures index == [] && texts == [] && metadata == []
      ensures Aligned()
    {
      this.dimension := dimension;
      index, texts, metadata := [], [], [];
    }

    /** `add_texts`: every embedding is computed before any field changes, so
        a failing call leaves the store as it was. */
    method AddTexts(newTexts: seq<string>, newMetadata: Option<seq<Metadata>>, embed: string -> Option<V>)
      returns (r: Outcome<StoreError>)
      modifies this
      ensures r.Fail? <==> EmbedAll(newTexts, embed).None? || newTexts == []
      ensures r.Fail? ==> r.error == if EmbedAll(newTexts, embed).None? then EmbeddingFailed else EmptyBatch
      ensures r.Fail? ==> index == old(index) && texts == old(texts) && metadata == old(metadata)
      ensures r.Pass? ==> index == old(index) + EmbedAll(newTexts, embed).value
      ensures r.Pass? ==> texts == old(texts) + newTexts
      ensures r.Pass? ==> metadata == old(metadata) + MetadataBatch(newTexts, newMetadata)
      ensures old(Aligned()) && (newMetadata.None? || newMetadata.value == [] || |newMetadata.value| == |newTexts|)
              ==> Aligned()
    {
      var embeddings: seq<V> := [];
      for i := 0 to |newTexts|
        invariant EmbedAll(newTexts[..i], embed) == Some(embeddings)
      {
        var e := embed(newTexts[i]);
        if e.None? {
          assert EmbedAll(newTexts, embed).None?;
          return Fail(EmbeddingFailed);
        }
        assert newTexts[..i + 1] == newTexts[..i] + [newTexts[i]];
        embeddings := embeddings + [e.value];
        assert EmbedAll(newTexts[..i + 1], embed) == Some(embeddings);
      }
      assert newTexts[..|newTexts|] == newTexts;
      if |embeddings| == 0 {
        return Fail(EmptyBatch);
      }
      index := index + embeddings;
      texts := texts + newTexts;
      if newMetadata.Some? && newMetadata.value != [] {
        metadata := metadata + newMetadata.value;
      } else {
        metadata := metadata + seq(|newTexts|, _ => map[]);
      }
      return Pass;
    }

    /** `search`: embed the query, ask the index for `k` neighbours and keep
        those whose label passes the guard `idx < len(self.texts)`. */
    method Search(query: string, k: nat, embed: string -> Option<V>, knn: (seq<V>, V, nat) -> seq<Neighbor>)
      returns (r: Result<seq<Hit>, StoreError>)
      ensures r == SearchSpec(index, texts, metadata, query, k, embed, knn)
    {
      var q := embed(query);
      if q.None? {
        return Err(EmbeddingFailed);
      }
      var neighbors := knn(index, q.value, k);
      var results: seq<Hit> := [];
      assert neighbors[0..] == neighbors;
      PrependNil(CollectHits(neighbors, texts, metadata));
      for i := 0 to |neighbors|
        invariant CollectHits(neighbors, texts, metadata) == Prepend(results, CollectHits(neighbors[i..], texts, metadata))
      {
        var n := neighbors[i];
        ghost var tail := neighbors[i..];
        assert tail[0] == n && tail[1..] == neighbors[i + 1..];
        if n.position < |texts| {
          var t := PyIndex(texts, n.position);
          var m := PyIndex(metadata, n.position);
          if t.None? || m.None? {
            return Err(IndexOutOfRange);
          }
          var h := Hit(t.value, m.value, n.distance);
          PrependTwice(results, [h], CollectHits(neighbors[i + 1..], texts, metadata));
          results := results + [h];
        }
      }
      assert neighbors[|neighbors|..] == [];
      assert results + [] == results;
      return Ok(results);
    }

    /** `save(name)`: writes the index, the texts and the metadata files. */
    method Save(fs: FileStore<V>, name: string := DefaultName) returns (fs': FileStore<V>)
      ensures fs' == SaveSpec(fs, name, index, texts, metadata)
    {
      fs' := fs.(indexFiles := fs.indexFiles[IndexFile(name) := index]);
      fs' := fs'.(textFiles := fs'.textFiles[TextsFile(name) := texts]);
      fs' := fs'.(metadataFiles := fs'.metadataFiles[MetadataFile(name) := metadata]);
    }

    /** `load(name)`: replaces all three fields when all three files exist and
        otherwise returns false with nothing changed. */
    method Load(fs: FileStore<V>, name: string := DefaultName) returns (ok: bool)
      modifies this
      ensures ok <==> LoadSpec(fs, name).Some?
      ensures !ok ==> index == old(index) && texts == old(texts) && metadata == old(metadata)
      ensures ok ==> Snapshot(index, texts, metadata) == LoadSpec(fs, name).value
    {
      if !(IndexFile(name) in fs.indexFiles && TextsFile(name) in fs.textFiles && MetadataFile(name) in fs.metadataFiles) {
        return false;
      }
      index := fs.indexFiles[IndexFile(name)];
      texts := fs.textFiles[TextsFile(name)];
      metadata := fs.metadataFiles[MetadataFile(name)];
      return true;
    }
  }

  /** Results gathered so far followed by those of the remaining neighbours. */
  function Prepend(done: seq<Hit>, rest: Result<seq<Hit>, StoreError>): Result<seq<Hit>, StoreError>
  {
    match rest
    case Ok(hs) => Ok(done + hs)
    case Err(e) => Err(e)
  }

  lemma PrependNil(rest: Result<seq<Hit>, StoreError>)
    ensures Prepend([], rest) == rest
  {
    if rest.Ok? {
      assert [] + rest.value == rest.value;
    }
  }

  lemma PrependTwice(a: seq<Hit>, b: seq<Hit>, rest: Result<seq<Hit>, StoreError>)
    ensures Prepend(a, Prepend(b, rest)) == Prepend(a + b, rest)
  {
    if rest.Ok? {
      assert a + (b + rest.value) == (a + b) + rest.value;
    }
  }

  /** The neighbours that pass the guard `idx < len(self.texts)`, in order. */
  function Kept(ns: seq<Neighbor>, n: nat): (r: seq<Neighbor>)
    ensures |r| <= |ns|
    ensures forall j :: 0 <= j < |r| ==> r[j].position < n
  {
    if ns == [] then []
    else (if ns[0].position < n then [ns[0]] else []) + Kept(ns[1..], n)
  }

  /** When every label passes the guard, every neighbour is kept. */
  lemma {:induction false} KeptAll(ns: seq<Neighbor>, n: nat)
    requires forall j :: 0 <= j < |ns| ==> ns[j].position < n
    ensures Kept(ns, n) == ns
  {
    if ns != [] {
      KeptAll(ns[1..], n);
    }
  }

  /** The stored position Python reads for a label below `n`: the label
      itself, or counted from the end when it is negative. */
  function Slot(position: int, n: nat): int
  {
    if position < 0 then n + position else position
  }

  /** For a store whose texts and metadata have the same length, and labels
      that are not below `-|texts|`, the search keeps exactly the neighbours
      that pass the guard, in the order the index reports them, and pairs
      `texts[p]` with `metadata[p]` from one and the same position `p`. A
      label -1 (FAISS's padding) passes the guard and reads the last entry. */
  lemma {:induction false} CollectHitsAligned(ns: seq<Neighbor>, texts: seq<string>, metadata: seq<Metadata>)
    requires |metadata| == |texts|
    requires forall j :: 0 <= j < |ns| ==> ns[j].position >= -|texts|
    ensures CollectHits(ns, texts, metadata).Ok?
    ensures var hits, kept := CollectHits(ns, texts, metadata).value, Kept(ns, |texts|);
      && |hits| == |kept|
      && forall j :: 0 <= j < |hits| ==>
           && 0 <= Slot(kept[j].position, |texts|) < |texts|
           && hits[j] == Hit(texts[Slot(kept[j].position, |texts|)],
                             metadata[Slot(kept[j].position, |texts|)],
                             kept[j].distance)
  {
    if ns != [] {
      var n, rest := |texts|, ns[1..];
      assert forall j :: 0 <= j < |rest| ==> rest[j] == ns[j + 1];
      CollectHitsAligned(rest, texts, metadata);
      var tail := CollectHits(rest, texts, metadata).value;
      if ns[0].position < n {
        var p := Slot(ns[0].position, n);
        var h := Hit(texts[p], metadata[p], ns[0].distance);
        assert HitFor(ns[0], texts, metadata) == Ok(Some(h));
        assert CollectHits(ns, texts, metadata) == Ok([h] + tail);
        assert Kept(ns, n) == [ns[0]] + Kept(rest, n);
      } else {
        assert CollectHits(ns, texts, metadata) == Ok(tail);
        assert Kept(ns, n) == [] + Kept(rest, n) == Kept(rest, n);
      }
    }
  }

  /** The search raises `IndexError` exactly when some neighbour passes the
      guard but its label is not a valid Python index of `texts` or of
      `metadata` (a label below `-|texts|`, or metadata shorter than texts). */
  lemma {:induction false} CollectHitsFails(ns: seq<Neighbor>, texts: seq<string>, metadata: seq<Metadata>)
    ensures CollectHits(ns, texts, metadata).Err? <==>
            exists j :: 0 <= j < |ns| && ns[j].position < |texts| &&
                        (PyIndex(texts, ns[j].position).None? || PyIndex(metadata, ns[j].position).None?)
    ensures CollectHits(ns, texts, metadata).Err? ==> CollectHits(ns, texts, metadata).error == IndexOutOfRange
  {
    if ns != [] {
      CollectHitsFails(ns[1..], texts, metadata);
      assert forall j :: 1 <= j < |ns| ==> ns[j] == ns[1..][j - 1];
      if CollectHits(ns[1..], texts, metadata).Err? {
        var j :| 0 <= j < |ns[1..]| && ns[1..][j].position < |texts| &&
                 (PyIndex(texts, ns[1..][j].position).None? || PyIndex(metadata, ns[1..][j].position).None?);
        assert ns[j + 1] == ns[1..][j];
      }
    }
  }

  /** A short answer padded with -1 repeats the last stored text: with two
      entries and `k = 3`, FAISS reports positions 1, 0, -1 and the search
      returns the second text twice. */
  lemma SearchPaddingRepeatsLast(m0: Metadata, m1: Metadata)
    ensures CollectHits([Neighbor(1, 0.25), Neighbor(0, 0.5), Neighbor(-1, 1000.0)], ["a", "b"], [m0, m1])
            == Ok([Hit("b", m1, 0.25), Hit("a", m0, 0.5), Hit("b", m1, 1000.0)])
  {
    var texts, metadata := ["a", "b"], [m0, m1];
    var ns := [Neighbor(1, 0.25), Neighbor(0, 0.5), Neighbor(-1, 1000.0)];
    assert ns[1..] == [Neighbor(0, 0.5), Neighbor(-1, 1000.0)];
    assert ns[1..][1..] == [Neighbor(-1, 1000.0)];
    assert ns[1..][1..][1..] == [];
    assert PyIndex(texts, -1) == Some("b") && PyIndex(metadata, -1) == Some(m1);
    assert HitFor(Neighbor(-1, 1000.0), texts, metadata) == Ok(Some(Hit("b", m1, 1000.0)));
    assert HitFor(Neighbor(0, 0.5), texts, metadata) == Ok(Some(Hit("a", m0, 0.5)));
    assert HitFor(Neighbor(1, 0.25), texts, metadata) == Ok(Some(Hit("b", m1, 0.25)));
    assert [Hit("b", m1, 1000.0)] + [] == [Hit("b", m1, 1000.0)];
    assert CollectHits(ns[1..][1..], texts, metadata) == Ok([Hit("b", m1, 1000.0)]);
    assert [Hit("a", m0, 0.5)] + [Hit("b", m1, 1000.0)] == [Hit("a", m0, 0.5), Hit("b", m1, 1000.0)];
    assert CollectHits(ns[1..], texts, metadata) == Ok([Hit("a", m0, 0.5), Hit("b", m1, 1000.0)]);
    assert [Hit("b", m1, 0.25)] + [Hit("a", m0, 0.5), Hit("b", m1, 1000.0)]
        == [Hit("b", m1, 0.25), Hit("a", m0, 0.5), Hit("b", m1, 1000.0)];
  }

  /** FAISS answers a query with at most `k` labels; given that, a search
      returns at most `k` hits. */
  lemma SearchAtMostK<V>(index: seq<V>, texts: seq<string>, metadata: seq<Metadata>, query: string, k: nat,
                         embed: string -> Option<V>, knn: (seq<V>, V, nat) -> seq<Neighbor>)
    requires embed(query).Some? ==> |knn(index, embed(query).value, k)| <= k
    ensures SearchSpec(index, texts, metadata, query, k, embed, knn).Ok? ==>
            |SearchSpec(index, texts, metadata, query, k, embed, knn).value| <= k
  {
  }

  /** `save(name)` followed by `load(name)` reads back exactly what was saved. */
  lemma SaveThenLoad<V>(fs: FileStore<V>, name: string, index: seq<V>, texts: seq<string>, metadata: seq<Metadata>)
    ensures LoadSpec(SaveSpec(fs, name, index, texts, metadata), name) == Some(Snapshot(index, texts, metadata))
  {
  }

  lemma AppendCancel(a: string, b: string, suffix: string)
    requires a + suffix == b + suffix
    ensures a == b
  {
    assert |a| == |b|;
    assert a == (a + suffix)[..|a|];
    assert b == (b + suffix)[..|b|];
  }

  /** Saving under one name does not change what loading another name reads. */
  lemma SaveKeepsOtherNames<V>(fs: FileStore<V>, name: string, other: string,
                               index: seq<V>, texts: seq<string>, metadata: seq<Metadata>)
    requires other != name
    ensures LoadSpec(SaveSpec(fs, name, index, texts, metadata), other) == LoadSpec(fs, other)
  {
    if IndexFile(other) == IndexFile(name) { AppendCancel(other, name, ".index"); }
    if TextsFile(other) == TextsFile(name) { AppendCancel(other, name, "_texts.pkl"); }
    if MetadataFile(other) == MetadataFile(name) { AppendCancel(other, name, "_metadata.pkl"); }
  }

  /** `add_texts` keeps the parallel sequences aligned only when the metadata
      list is absent, empty, or exactly as long as the texts: the source does
      not check this. */
  lemma MetadataBatchAligned(texts: seq<string>, metadata: Option<seq<Metadata>>)
    ensures |MetadataBatch(texts, metadata)| == |texts| <==>
            (metadata.None? || metadata.value == [] || |metadata.value| == |texts|)
  {
  }
}
