/** `build_index` of backend/build_index.py: chunk every knowledge document,
    tag each chunk with its source and position, embed the whole batch once
    and save it under the default name. */
module IndexBuild {

  import opened Wrappers
  import opened TextUtil
  import opened Chunker
  import opened VectorStores
  import opened KnowledgeBase

  /** The window and overlap the build always uses (a stride of 350 words). */
  const ChunkSize: nat := 400
  const Overlap: nat := 50

  /** The chunks of one document; there are ceil(words / 350) of them. */
  function DocChunks(content: string): (r: seq<string>)
    ensures |r| == (|Words(content)| + (ChunkSize - Overlap) - 1) / (ChunkSize - Overlap)
  {
    ChunkCount(content, ChunkSize, Overlap);
    ChunkSpec(content, ChunkSize, Overlap).value
  }

  /** The metadata of chunk `i` of document `source`. */
  function ChunkTag(source: string, i: nat): Metadata
  {
    map["source" := Str(source), "chunk_id" := Int(i)]
  }

  /** All chunk texts, document after document in dictionary order. */
  function BatchTexts(docs: seq<Entry>): seq<string>
  {
    if docs == [] then []
    else BatchTexts(docs[..|docs| - 1]) + DocChunks(docs[|docs| - 1].content)
  }

  /** The metadata list built beside `BatchTexts`. */
  function BatchMetadata(docs: seq<Entry>): seq<Metadata>
  {
    if docs == [] then []
    else
      var d := docs[|docs| - 1];
      BatchMetadata(docs[..|docs| - 1]) + seq(|DocChunks(d.content)|, i requires 0 <= i => ChunkTag(d.key, i))
  }

  /** The file store after a build from the knowledge directory `dir`, or the
      error that stops it before anything is saved. */
  function BuildSpec<V>(dir: map<string, string>, fs: FileStore<V>, embed: string -> Option<V>): Result<FileStore<V>, StoreError>
  {
    var docs := ReadFiles(dir, KnowledgeFiles);
    var texts := BatchTexts(docs);
    match EmbedAll(texts, embed)
    case None => Err(EmbeddingFailed)
    case Some(vectors) =>
      if texts == [] then Err(EmptyBatch)
      else Ok(SaveSpec(fs, DefaultName, vectors, texts, BatchMetadata(docs)))
  }

  /** The loop of `build_index`: it extends the two parallel lists one
      document at a time. */
  method CollectBatch(knowledge: seq<Entry>) returns (allTexts: seq<string>, allMetadata: seq<Metadata>)
    ensures allTexts == BatchTexts(knowledge)
    ensures allMetadata == BatchMetadata(knowledge)
  {
    allTexts, allMetadata := [], [];
    for i := 0 to |knowledge|
      invariant allTexts == BatchTexts(knowledge[..i])
      invariant allMetadata == BatchMetadata(knowledge[..i])
      invariant |allTexts| == |allMetadata|
    {
      var source, content := knowledge[i].key, knowledge[i].content;
      var chunks := ChunkText(content, ChunkSize, Overlap);
      assert chunks == Ok(DocChunks(content));
      var metadata := seq(|chunks.value|, j requires 0 <= j => ChunkTag(source, j));
      assert knowledge[..i + 1][..i] == knowledge[..i];
      allTexts := allTexts + chunks.value;
      allMetadata := allMetadata + metadata;
    }
    assert knowledge[..|knowledge|] == knowledge;
  }

  /** `build_index`: `add_texts` is called once with the whole batch, then
      `save` once with the default name. */
  method BuildIndex<V>(dir: map<string, string>, fs: FileStore<V>, embed: string -> Option<V>)
    returns (r: Result<FileStore<V>, StoreError>)
    ensures r == BuildSpec(dir, fs, embed)
  {
    var knowledge := LoadKnowledgeBase(dir);
    var store := new VectorStore<V>();
    var allTexts, allMetadata := CollectBatch(knowledge);
    BatchAligned(knowledge);
    var added := store.AddTexts(allTexts, Some(allMetadata), embed);
    if added.Fail? {
      return Err(added.error);
    }
    assert allMetadata != [] && MetadataBatch(allTexts, Some(allMetadata)) == allMetadata;
    assert store.State() == Snapshot(EmbedAll(allTexts, embed).value, allTexts, allMetadata);
    var saved := store.Save(fs);
    return Ok(saved);
  }

  /** The two lists stay the same length. */
  lemma {:induction false} BatchAligned(docs: seq<Entry>)
    ensures |BatchTexts(docs)| == |BatchMetadata(docs)|
  {
    if docs != [] {
      BatchAligned(docs[..|docs| - 1]);
    }
  }

  /** The batch of a prefix of the documents is a prefix of the batch. */
  lemma {:induction false} BatchPrefix(docs: seq<Entry>, m: nat)
    requires m <= |docs|
    ensures BatchTexts(docs[..m]) <= BatchTexts(docs)
    ensures BatchMetadata(docs[..m]) <= BatchMetadata(docs)
    decreases |docs|
  {
    if m < |docs| {
      var init := docs[..|docs| - 1];
      assert init[..m] == docs[..m];
      BatchPrefix(init, m);
    } else {
      assert docs[..m] == docs;
    }
  }

  /** Each document's chunks are contiguous and in chunking order, starting
      where the previous documents' chunks end, and chunk `j` of document
      `d` is tagged with `d`'s key and `j`. */
  lemma BatchLayout(docs: seq<Entry>, d: nat, j: nat)
    requires d < |docs| && j < |DocChunks(docs[d].content)|
    ensures var offset := |BatchTexts(docs[..d])|;
      offset + j < |BatchTexts(docs)| && offset + j < |BatchMetadata(docs)| &&
      BatchTexts(docs)[offset + j] == DocChunks(docs[d].content)[j] &&
      BatchMetadata(docs)[offset + j] == ChunkTag(docs[d].key, j)
  {
    var upTo := docs[..d + 1];
    assert upTo[..d] == docs[..d];
    assert upTo[d] == docs[d];
    BatchAligned(docs[..d]);
    BatchPrefix(docs, d + 1);
  }

  /** The number of chunks the documents make in total. */
  function TotalChunks(docs: seq<Entry>): nat
  {
    if docs == [] then 0
    else TotalChunks(docs[..|docs| - 1]) + (|Words(docs[|docs| - 1].content)| + 349) / 350
  }

  /** The batch holds the sum of the per-document chunk counts. */
  lemma {:induction false} BatchSize(docs: seq<Entry>)
    ensures |BatchTexts(docs)| == TotalChunks(docs)
  {
    if docs != [] {
      BatchSize(docs[..|docs| - 1]);
    }
  }

  /** An empty (or blank) document contributes no chunk, so a build with all
      three files missing fails on the empty batch and saves nothing. */
  lemma BlankDocumentsContributeNothing<V>(dir: map<string, string>, fs: FileStore<V>, embed: string -> Option<V>)
    requires forall f :: f in dir ==> forall i :: 0 <= i < |dir[f]| ==> IsSpace(dir[f][i])
    ensures BatchTexts(ReadFiles(dir, KnowledgeFiles)) == []
    ensures BuildSpec(dir, fs, embed) == Err(EmptyBatch)
  {
    var docs := ReadFiles(dir, KnowledgeFiles);
    forall i | 0 <= i < |docs| ensures DocChunks(docs[i].content) == [] {
      ChunkBlankText(docs[i].content, ChunkSize, Overlap);
    }
    NoChunks(docs);
  }

  lemma {:induction false} NoChunks(docs: seq<Entry>)
    requires forall i :: 0 <= i < |docs| ==> DocChunks(docs[i].content) == []
    ensures BatchTexts(docs) == []
  {
    if docs != [] {
      NoChunks(docs[..|docs| - 1]);
    }
  }

  /** After a successful build, loading the default name gives back exactly
      the batch: one vector per chunk, the chunks, and their tags. */
  lemma BuildThenLoad<V>(dir: map<string, string>, fs: FileStore<V>, embed: string -> Option<V>)
    requires BuildSpec(dir, fs, embed).Ok?
    ensures var docs := ReadFiles(dir, KnowledgeFiles);
      var loaded := LoadSpec(BuildSpec(dir, fs, embed).value, DefaultName);
      loaded.Some? &&
      loaded.value.texts == BatchTexts(docs) &&
      loaded.value.metadata == BatchMetadata(docs) &&
      |loaded.value.index| == |loaded.value.texts| == |loaded.value.metadata|
  {
    var docs := ReadFiles(dir, KnowledgeFiles);
    var texts := BatchTexts(docs);
    SaveThenLoad(fs, DefaultName, EmbedAll(texts, embed).value, texts, BatchMetadata(docs));
    BatchAligned(docs);
  }
}
