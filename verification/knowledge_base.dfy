/** Retrieval orchestration of backend/services/knowledge_base.py: the lazily
    created vector store, the three knowledge documents, and the choice
    between the vector path and the rule-based fallback. */
module KnowledgeBase {

  import opened Wrappers
  import opened TextUtil
  import opened VectorStores
  import opened Property

  // ---------------------------------------------------------------------
  // load_knowledge_base
  // ---------------------------------------------------------------------

  /** One entry of the knowledge dictionary, in insertion order. */
  datatype Entry = Entry(key: string, content: string)

  /** A knowledge file: the dictionary key and the file name it is read from. */
  datatype KnowledgeFile = KnowledgeFile(key: string, fileName: string)

  const VillaLeasehold: string := "villa_leasehold"
  const CondoRules: string := "condo_rules"
  const CostsFees: string := "costs_fees"

  const KnowledgeFiles: seq<KnowledgeFile> := [
    KnowledgeFile(VillaLeasehold, "villa_leasehold.md"),
    KnowledgeFile(CondoRules, "condo_rules.md"),
    KnowledgeFile(CostsFees, "costs_fees.md")]

  /** The entries read for `files` from the knowledge directory, which maps
      each existing file name to its text; a missing file reads as "". */
  function ReadFiles(dir: map<string, string>, files: seq<KnowledgeFile>): (r: seq<Entry>)
    ensures |r| == |files|
    ensures forall i :: 0 <= i < |files| ==>
      r[i].key == files[i].key &&
      r[i].content == (if files[i].fileName in dir then dir[files[i].fileName] else "")
  {
    if files == [] then []
    else
      var f := files[|files| - 1];
      ReadFiles(dir, files[..|files| - 1]) + [Entry(f.key, if f.fileName in dir then dir[f.fileName] else "")]
  }

  /** `load_knowledge_base` over a directory given as a map from file name
      to contents. */
  method LoadKnowledgeBase(dir: map<string, string>) returns (knowledge: seq<Entry>)
    ensures knowledge == ReadFiles(dir, KnowledgeFiles)
  {
    knowledge := [];
    for i := 0 to |KnowledgeFiles|
      invariant knowledge == ReadFiles(dir, KnowledgeFiles[..i])
    {
      var f := KnowledgeFiles[i];
      assert KnowledgeFiles[..i + 1][..i] == KnowledgeFiles[..i];
      if f.fileName in dir {
        knowledge := knowledge + [Entry(f.key, dir[f.fileName])];
      } else {
        knowledge := knowledge + [Entry(f.key, "")];
      }
    }
    assert KnowledgeFiles[..|KnowledgeFiles|] == KnowledgeFiles;
  }

  /** The dictionary always holds exactly the three keys, in this order,
      whichever files exist. */
  lemma KnowledgeKeys(dir: map<string, string>)
    ensures var k := ReadFiles(dir, KnowledgeFiles);
      |k| == 3 && k[0].key == VillaLeasehold && k[1].key == CondoRules && k[2].key == CostsFees
    ensures var k := ReadFiles(dir, KnowledgeFiles);
      (k[0].content == if "villa_leasehold.md" in dir then dir["villa_leasehold.md"] else "") &&
      (k[1].content == if "condo_rules.md" in dir then dir["condo_rules.md"] else "") &&
      (k[2].content == if "costs_fees.md" in dir then dir["costs_fees.md"] else "")
  {
  }

  /** `knowledge.get(key, "")`. */
  function Get(knowledge: seq<Entry>, key: string): (r: string)
    ensures (forall i :: 0 <= i < |knowledge| ==> knowledge[i].key != key) ==> r == ""
    ensures knowledge != [] && knowledge[0].key == key ==> r == knowledge[0].content
  {
    if knowledge == [] then ""
    else if knowledge[0].key == key then knowledge[0].content
    else Get(knowledge[1..], key)
  }

  /** Looking a key up in the loaded dictionary gives that file's text. */
  lemma GetLoaded(dir: map<string, string>, i: nat)
    requires i < |KnowledgeFiles|
    ensures Get(ReadFiles(dir, KnowledgeFiles), KnowledgeFiles[i].key) ==
            (if KnowledgeFiles[i].fileName in dir then dir[KnowledgeFiles[i].fileName] else "")
  {
    var k := ReadFiles(dir, KnowledgeFiles);
    assert k[1..][1..][0] == k[2];
  }

  // ---------------------------------------------------------------------
  // The fallback rules
  // ---------------------------------------------------------------------

  predicate AsksAboutCosts(question: string)
  {
    Contains(Lower(question), "cost") || Contains(Lower(question), "fee")
  }

  /** The keys of the documents the fallback selects, in order. */
  function FallbackKeys(propertyType: string, hasLand: bool, question: string): seq<string>
  {
    var typeKeys :=
      if propertyType == "villa" || hasLand then [VillaLeasehold]
      else if propertyType == "condo" then [CondoRules]
      else [];
    typeKeys + (if AsksAboutCosts(question) then [CostsFees] else [])
  }

  function Contents(knowledge: seq<Entry>, keys: seq<string>): (r: seq<string>)
    ensures |r| == |keys|
    ensures forall i :: 0 <= i < |keys| ==> r[i] == Get(knowledge, keys[i])
  {
    seq(|keys|, i requires 0 <= i < |keys| => Get(knowledge, keys[i]))
  }

  /** The text the fallback returns. */
  function FallbackText(knowledge: seq<Entry>, propertyType: string, hasLand: bool, question: string): string
  {
    Join(Contents(knowledge, FallbackKeys(propertyType, hasLand, question)), Break)
  }

  /** The body of the fallback: the selected documents are appended to a
      list, then joined with a blank line. */
  method SelectFallback(knowledge: seq<Entry>, propertyType: string, hasLand: bool, question: string)
    returns (text: string)
    ensures text == FallbackText(knowledge, propertyType, hasLand, question)
  {
    var relevant: seq<string> := [];
    if propertyType == "villa" || hasLand {
      relevant := relevant + [Get(knowledge, VillaLeasehold)];
    } else if propertyType == "condo" {
      relevant := relevant + [Get(knowledge, CondoRules)];
    }
    if Contains(Lower(question), "cost") || Contains(Lower(question), "fee") {
      relevant := relevant + [Get(knowledge, CostsFees)];
    }
    assert relevant == Contents(knowledge, FallbackKeys(propertyType, hasLand, question));
    text := Join(relevant, Break);
  }

  /** The land document is chosen exactly for a villa or a property with land;
      the condo document exactly for a condo without land; never both. */
  lemma FallbackTypeDocument(propertyType: string, hasLand: bool, question: string)
    ensures var keys := FallbackKeys(propertyType, hasLand, question);
      (VillaLeasehold in keys <==> propertyType == "villa" || hasLand) &&
      (CondoRules in keys <==> !(propertyType == "villa" || hasLand) && propertyType == "condo") &&
      !(VillaLeasehold in keys && CondoRules in keys)
  {
  }

  /** The costs document is chosen exactly when the question mentions a cost
      or a fee, and then it comes last, after any type document. */
  lemma FallbackCostsDocument(propertyType: string, hasLand: bool, question: string)
    ensures var keys := FallbackKeys(propertyType, hasLand, question);
      (CostsFees in keys <==> AsksAboutCosts(question)) &&
      (AsksAboutCosts(question) ==> keys[|keys| - 1] == CostsFees) &&
      |keys| <= 2
  {
  }

  /** With nothing selected the fallback is the empty string; a single
      document is returned as it is. */
  lemma FallbackJoin(knowledge: seq<Entry>, propertyType: string, hasLand: bool, question: string)
    ensures var keys := FallbackKeys(propertyType, hasLand, question);
      (keys == [] ==> FallbackText(knowledge, propertyType, hasLand, question) == "") &&
      (|keys| == 1 ==> FallbackText(knowledge, propertyType, hasLand, question) == Get(knowledge, keys[0])) &&
      (|keys| == 2 ==> FallbackText(knowledge, propertyType, hasLand, question) ==
                       Get(knowledge, keys[0]) + Break + Get(knowledge, keys[1]))
  {
    var keys := FallbackKeys(propertyType, hasLand, question);
    var c := Contents(knowledge, keys);
    if |keys| == 1 {
      assert c == [c[0]];
    } else if |keys| == 2 {
      assert c[1..] == [c[1]];
      assert Join(c, Break) == c[0] + Break + Join(c[1..], Break);
      assert FallbackText(knowledge, propertyType, hasLand, question) == Join(c, Break);
    }
  }

  // ---------------------------------------------------------------------
  // The vector path
  // ---------------------------------------------------------------------

  /** The number of chunks the vector path asks for. */
  const SearchK: nat := 3

  const Indent: string := "            "

  /** The search query: a triple-quoted template whose continuation lines
      keep the source's indentation. */
  function QueryText(propertyType: string, question: string): (q: string)
    ensures StartsWith(q, "\n" + Indent + "Property type: " + propertyType + "\n")
    ensures EndsWith(q, "\n" + Indent)
  {
    var head := "\n" + Indent + "Property type: " + propertyType + "\n";
    var q := head + Indent + "Question: " + question + "\n" + Indent;
    assert q == head + (Indent + "Question: " + question + "\n" + Indent);
    assert q[|q| - |"\n" + Indent|..] == "\n" + Indent;
    q
  }

  function HitTexts(hits: seq<Hit>): (r: seq<string>)
    ensures |r| == |hits|
    ensures forall i :: 0 <= i < |hits| ==> r[i] == hits[i].text
  {
    seq(|hits|, i requires 0 <= i < |hits| => hits[i].text)
  }

  /** The answer of the vector path for a loaded store: the texts of the
      (at most three) hits, in the order the index reports them. */
  function VectorAnswer<V>(store: Snapshot<V>, propertyType: string, question: string,
                           embed: string -> Option<V>, knn: (seq<V>, V, nat) -> seq<Neighbor>): (r: Result<string, StoreError>)
  {
    match SearchSpec(store.index, store.texts, store.metadata, QueryText(propertyType, question), SearchK, embed, knn)
    case Ok(hits) => Ok(Join(HitTexts(hits), Break))
    case Err(e) => Err(e)
  }

  /** On an aligned store whose index reports at most three in-range
      positions, the answer joins exactly those texts. */
  lemma VectorAnswerTexts<V>(store: Snapshot<V>, propertyType: string, question: string,
                             embed: string -> Option<V>, knn: (seq<V>, V, nat) -> seq<Neighbor>)
    requires |store.texts| == |store.metadata|
    requires embed(QueryText(propertyType, question)).Some?
    requires var ns := knn(store.index, embed(QueryText(propertyType, question)).value, SearchK);
      |ns| <= SearchK && forall j :: 0 <= j < |ns| ==> 0 <= ns[j].position < |store.texts|
    ensures var ns := knn(store.index, embed(QueryText(propertyType, question)).value, SearchK);
      VectorAnswer(store, propertyType, question, embed, knn) ==
      Ok(Join(seq(|ns|, j requires 0 <= j < |ns| => store.texts[ns[j].position]), Break))
  {
    var ns := knn(store.index, embed(QueryText(propertyType, question)).value, SearchK);
    CollectHitsAligned(ns, store.texts, store.metadata);
    var hits := CollectHits(ns, store.texts, store.metadata).value;
    assert Kept(ns, |store.texts|) == ns by {
      KeptAll(ns, |store.texts|);
    }
    assert HitTexts(hits) == seq(|ns|, j requires 0 <= j < |ns| => store.texts[ns[j].position]);
  }

  // ---------------------------------------------------------------------
  // get_vector_store: the module-level singleton
  // ---------------------------------------------------------------------

  /** The value of the module global: never assigned, or a store object. */
  datatype Cache<V> = Unset | Cached(store: Snapshot<V>)

  /** One call of `get_vector_store` on the global's value: the new value and
      the store returned (None for Python's `None`). Only a call on an unset
      global loads; a failed load still leaves the new, empty store set. */
  function GetStoreSpec<V>(cache: Cache<V>, fs: FileStore<V>): (Cache<V>, Option<Snapshot<V>>)
  {
    match cache
    case Cached(s) => (cache, Some(s))
    case Unset =>
      match LoadSpec(fs, DefaultName)
      case Some(s) => (Cached(s), Some(s))
      case None => (Cached(Snapshot([], [], [])), None)
  }

  /** After a failed first load, the first call returns None and every later
      call returns the empty, unloaded store: the load is never retried, even
      once the index files exist. */
  lemma FailedLoadIsNeverRetried<V>(fs1: FileStore<V>, fs2: FileStore<V>)
    requires LoadSpec(fs1, DefaultName).None?
    ensures GetStoreSpec(Unset, fs1) == (Cached(Snapshot([], [], [])), None)
    ensures var c := GetStoreSpec(Unset, fs1).0;
      GetStoreSpec(c, fs2) == (c, Some(Snapshot([], [], [])))
  {
  }

  /** Once set, the global is returned unchanged whatever the files are. */
  lemma OnlyFirstCallLoads<V>(cache: Cache<V>, fs: FileStore<V>)
    requires cache.Cached?
    ensures GetStoreSpec(cache, fs) == (cache, Some(cache.store))
  {
  }

  /** The first call returns the stored index exactly when all three files
      exist. */
  lemma FirstCallLoads<V>(fs: FileStore<V>)
    ensures GetStoreSpec(Unset, fs).1 == LoadSpec(fs, DefaultName)
    ensures GetStoreSpec(Unset, fs).0.Cached?
  {
  }

  /** The holder of the module global `_vector_store`. */
  class Singleton<V> {
    var store: VectorStore?<V>

    constructor ()
      ensures store == null
    {
      store := null;
    }

    function Cache(): Cache<V>
      reads this, store
    {
      if store == null then Unset else Cached(store.State())
    }

    /** `get_vector_store`. */
    method GetVectorStore(fs: FileStore<V>) returns (vs: VectorStore?<V>)
      modifies this
      ensures (Cache(), if vs == null then None else Some(vs.State())) == GetStoreSpec(old(Cache()), fs)
      ensures old(store) != null ==> store == old(store) && vs == store
      ensures old(store) == null ==> store != null && fresh(store) && (vs == null || vs == store)
    {
      if store == null {
        var s := new VectorStore<V>();
        store := s;
        var ok := s.Load(fs);
        if !ok {
          return null;
        }
      }
      return store;
    }
  }

  // ---------------------------------------------------------------------
  // get_relevant_knowledge
  // ---------------------------------------------------------------------

  /** What `get_relevant_knowledge` returns, given the global's value before
      the call. A search failure (a failing embedding call, or a position
      Python cannot index) propagates as an error. */
  function RelevantKnowledge<V>(cache: Cache<V>, propertyType: string, hasLand: bool, question: string,
                                useVectorSearch: bool, fs: FileStore<V>, dir: map<string, string>,
                                embed: string -> Option<V>, knn: (seq<V>, V, nat) -> seq<Neighbor>): Result<string, StoreError>
  {
    if useVectorSearch && GetStoreSpec(cache, fs).1.Some? then
      VectorAnswer(GetStoreSpec(cache, fs).1.value, propertyType, question, embed, knn)
    else
      Ok(FallbackText(ReadFiles(dir, KnowledgeFiles), propertyType, hasLand, question))
  }

  method GetRelevantKnowledge<V>(property: PropertyData, question: string, useVectorSearch: bool,
                                 singleton: Singleton<V>, fs: FileStore<V>, dir: map<string, string>,
                                 embed: string -> Option<V>, knn: (seq<V>, V, nat) -> seq<Neighbor>)
    returns (r: Result<string, StoreError>)
    modifies singleton
    ensures r == RelevantKnowledge(old(singleton.Cache()), property.propertyType, property.hasLand, question,
                                   useVectorSearch, fs, dir, embed, knn)
    ensures useVectorSearch ==> singleton.Cache() == GetStoreSpec(old(singleton.Cache()), fs).0
    ensures !useVectorSearch ==> singleton.store == old(singleton.store)
  {
    if useVectorSearch {
      var vs := singleton.GetVectorStore(fs);
      if vs != null {
        var query := QueryText(property.propertyType, question);
        var results := vs.Search(query, SearchK, embed, knn);
        if results.Err? {
          return Err(results.error);
        }
        return Ok(Join(HitTexts(results.value), Break));
      }
    }
    var knowledge := LoadKnowledgeBase(dir);
    var text := SelectFallback(knowledge, property.propertyType, property.hasLand, question);
    return Ok(text);
  }

  /** Without vector search the answer is the fallback, whatever the global
      holds. */
  lemma NoVectorSearchIsFallback<V>(cache: Cache<V>, propertyType: string, hasLand: bool, question: string,
                                    fs: FileStore<V>, dir: map<string, string>,
                                    embed: string -> Option<V>, knn: (seq<V>, V, nat) -> seq<Neighbor>)
    ensures RelevantKnowledge(cache, propertyType, hasLand, question, false, fs, dir, embed, knn) ==
            Ok(FallbackText(ReadFiles(dir, KnowledgeFiles), propertyType, hasLand, question))
  {
  }

  /** The request after a failed first load no longer falls back to the
      documents: it searches the empty store, which answers "" when the index
      reports nothing and fails when it reports a negative padding position
      (Python's `texts[-1]` on an empty list). */
  lemma StaleStoreAnswer<V>(fs1: FileStore<V>, fs2: FileStore<V>, propertyType: string, hasLand: bool, question: string,
                            dir: map<string, string>, embed: string -> Option<V>, knn: (seq<V>, V, nat) -> seq<Neighbor>)
    requires LoadSpec(fs1, DefaultName).None?
    requires embed(QueryText(propertyType, question)).Some?
    ensures var cache := GetStoreSpec(Unset, fs1).0;
      var ns := knn([], embed(QueryText(propertyType, question)).value, SearchK);
      RelevantKnowledge(cache, propertyType, hasLand, question, true, fs2, dir, embed, knn) ==
        if exists j :: 0 <= j < |ns| && ns[j].position < 0 then Err(IndexOutOfRange) else Ok("")
  {
    var ns := knn([], embed(QueryText(propertyType, question)).value, SearchK);
    CollectHitsFails(ns, [], []);
    if !exists j :: 0 <= j < |ns| && ns[j].position < 0 {
      NothingKept(ns);
    }
  }

  /** Every position reported by a search of an empty store is skipped or
      fails. */
  lemma {:induction false} NothingKept(ns: seq<Neighbor>)
    requires forall j :: 0 <= j < |ns| ==> ns[j].position >= 0
    ensures CollectHits(ns, [], []) == Ok([])
  {
    if ns != [] {
      NothingKept(ns[1..]);
    }
  }
}
