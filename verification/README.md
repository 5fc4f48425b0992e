# Property Q&A backend and explainer page: a Dafny model

This project models the core of a small real-estate question-and-answer
service and of its explainer page. The service does three things:

- It splits three knowledge documents into overlapping word windows.
- It embeds those windows into a vector index, saves the index, and later
  answers a question with either the three nearest chunks or a rule-based
  choice of whole documents.
- It classifies a listing (id, type, ownership, room counts, floor level)
  and derives its foreign-ownership fields.

The page side reassembles the streamed answer from `data: …` frames, moves a
photo carousel and highlights the chosen question button.

Modules, one per source file:

- `Chunker` (`chunk_text`).
- `VectorStores` (the `VectorStore` class over an abstract vector type `V`,
  an embedding oracle `embed: string -> Option<V>` whose `None` is a failing
  API call, a nearest-neighbour oracle `knn`, and a file store given as maps
  from file name to contents).
- `KnowledgeBase` (`load_knowledge_base`, the `get_vector_store` singleton,
  `get_relevant_knowledge`).
- `IndexBuild` (`build_index`).
- `Property` (`PropertyData` and `compute_eligibility`).
- `PropertyParser` (the listing classifiers).
- `Frontend` (js/script.js).
- `TextUtil` and `Wrappers` hold shared string functions (Python's
  `str.split()`, `sep.join`, `in`, `lower()`, JavaScript's `split("\n\n")`)
  and the `Option`/`Result`/`Outcome` types.

The model follows the code in these places:

- `add_texts` computes every embedding before it touches a field, so a failing
  embedding call leaves the whole store unchanged. Nothing is partially
  committed.
- `chunk_text` with `overlap == chunk_size` is the `ValueError` of a zero
  `range` step, and a negative step yields no chunks.
- `add_texts([])` fails inside the index (`n, d = x.shape` on an empty
  array), which is the model's `EmptyBatch` error.

## Model

| member | source | states |
|---|---|---|
| TextUtil.Words | backend/services/vector_store.py:102 | `str.split()`: every element is a non-empty run without whitespace |
| TextUtil.WordsEmptyIff | backend/services/vector_store.py:102 | `split()` gives no words exactly when the text is empty or all whitespace |
| TextUtil.WordsOfJoin | backend/services/vector_store.py:106 | splitting a space-joined list of words gives the same words back |
| TextUtil.SplitOnBreak | js/script.js:170-171 | `split("\n\n")`: at least one piece, the pieces joined with "\n\n" give back the input, and no piece contains "\n\n" |
| TextUtil.SplitOnBreakLeftmost | js/script.js:170 | the split cuts at the leftmost "\n\n": no piece but the last ends with a newline |
| TextUtil.SplitOnBreakUnique | js/script.js:170 | any list of pieces with those four properties is exactly the split, so the split is pinned down uniquely |
| TextUtil.SplitThreeNewlines | js/script.js:170 | "\n\n\n" splits as ["", "\n"] |
| Chunker.ChunkText | backend/services/vector_store.py:100-110 | the loop returns what `ChunkSpec` defines: a zero step is an error, a negative step gives no chunks, otherwise every stride offset gives one non-empty space-joined window |
| Chunker.ChunkBlankText | backend/services/vector_store.py:102-110 | empty or whitespace-only text gives no chunks |
| Chunker.ChunkCount | backend/services/vector_store.py:105-108 | with 0 <= overlap < chunk_size there are ceil(n / (chunk_size - overlap)) chunks for n words |
| Chunker.ChunkLayout | backend/services/vector_store.py:105-108 | chunk j is words j·s to min(n, j·s + chunk_size) joined by single spaces; it is non-empty and holds at most chunk_size words |
| Chunker.ChunkOverlap | backend/services/vector_store.py:105-106 | when chunk j is full length, its last `overlap` words are the first `overlap` words of chunk j+1 |
| Chunker.ChunkCoverage | backend/services/vector_store.py:105-106 | the chunks, with each overlap dropped, give back every word of the text in order |
| VectorStores.EmbedAll | backend/services/vector_store.py:31-34 | the embeddings fail exactly when some text's embedding fails; otherwise there is one per text, in order |
| VectorStores.VectorStore.constructor | backend/services/vector_store.py:12-16 | a new store has the default dimension 1536 and empty index, texts and metadata |
| VectorStores.VectorStore.AddTexts | backend/services/vector_store.py:29-43 | a failing embedding, or an empty batch, changes nothing. Otherwise one vector per text and the texts are appended in order. The metadata is extended by the given list, or by one empty dict per text when the list is None or empty. An aligned store stays aligned when the list is None, empty or the right length |
| VectorStores.MetadataBatchAligned | backend/services/vector_store.py:40-43 | the appended metadata has one entry per text exactly when the given list is None, empty or the same length (the code does not check this) |
| VectorStores.VectorStore.Search | backend/services/vector_store.py:45-61 | the loop returns `SearchSpec`, which fails when the query embedding fails, keeps only labels below `len(texts)` in reported order, and never changes the store |
| VectorStores.SearchSpec | backend/services/vector_store.py:45-61 | a successful search returns at most as many hits as the index reported |
| VectorStores.SearchAtMostK | backend/services/vector_store.py:45-61 | when the index reports at most k labels, as FAISS does, a successful search returns at most k hits |
| VectorStores.CollectHitsAligned | backend/services/vector_store.py:53-59 | on an aligned store whose labels are all at least -len(texts), the search succeeds and the hits are exactly the neighbours passing `idx < len(texts)`, in order, each pairing `texts[p]` with `metadata[p]` from the same position p (a negative label counts from the end) |
| VectorStores.CollectHitsFails | backend/services/vector_store.py:54-57 | the search raises `IndexError` exactly when a label passes the guard but is not a valid Python index of texts or metadata |
| VectorStores.SearchPaddingRepeatsLast | backend/services/vector_store.py:54 | a padding label -1 passes the upper-bound-only guard and returns the last text again |
| VectorStores.VectorStore.Save | backend/services/vector_store.py:63-77 | save writes the index, texts and metadata under `<name>.index`, `<name>_texts.pkl` and `<name>_metadata.pkl` |
| VectorStores.VectorStore.Load | backend/services/vector_store.py:79-97 | load succeeds exactly when all three files exist; then the fields are their contents, otherwise all fields are unchanged |
| VectorStores.SaveThenLoad | backend/services/vector_store.py:63-97 | loading a name right after saving it restores the same index, texts and metadata |
| VectorStores.SaveKeepsOtherNames | backend/services/vector_store.py:63-77 | saving under one name does not change what loads under another |
| KnowledgeBase.LoadKnowledgeBase | backend/services/knowledge_base.py:21-42 | the loop returns one entry per knowledge file, in order, whose text is the file's contents or "" when it is missing |
| KnowledgeBase.KnowledgeKeys | backend/services/knowledge_base.py:28-40 | the keys are always villa_leasehold, condo_rules and costs_fees, in this order, with "" for a missing file |
| KnowledgeBase.GetLoaded | backend/services/knowledge_base.py:71-77 | `knowledge.get(key, "")` on the loaded dictionary gives that key's file text |
| KnowledgeBase.SelectFallback | backend/services/knowledge_base.py:66-79 | the appends produce the selected documents joined with "\n\n" |
| KnowledgeBase.FallbackTypeDocument | backend/services/knowledge_base.py:70-73 | villa_leasehold is chosen iff type is "villa" or has_land; condo_rules iff not that and type is "condo"; never both |
| KnowledgeBase.FallbackCostsDocument | backend/services/knowledge_base.py:76-77 | costs_fees is chosen iff the lowercased question contains "cost" or "fee", and then it comes last; at most two documents |
| KnowledgeBase.FallbackJoin | backend/services/knowledge_base.py:79 | no selected document gives "", one gives that text, two give them joined by a blank line |
| KnowledgeBase.QueryText | backend/services/knowledge_base.py:53-56 | the search query starts with a newline and the indented "Property type: " line, and ends with a newline and the template's indentation |
| KnowledgeBase.VectorAnswerTexts | backend/services/knowledge_base.py:59-63 | with k = 3 and in-range labels, the answer joins exactly the reported texts, in order, with "\n\n"; metadata and scores are dropped |
| KnowledgeBase.Singleton.GetVectorStore | backend/services/knowledge_base.py:7-19 | the call follows `GetStoreSpec`: only a call on an unset global creates a store and loads it; the global stays set even when that load fails |
| KnowledgeBase.FirstCallLoads | backend/services/knowledge_base.py:11-17 | the first call returns the stored index exactly when all three files exist, and it always sets the global |
| KnowledgeBase.OnlyFirstCallLoads | backend/services/knowledge_base.py:11-19 | once set, the global is returned unchanged whatever the files hold |
| KnowledgeBase.FailedLoadIsNeverRetried | backend/services/knowledge_base.py:11-19 | after a failed first load the first call returns None, and every later call returns the empty unloaded store, even when the files exist by then |
| KnowledgeBase.GetRelevantKnowledge | backend/services/knowledge_base.py:44-79 | the answer is the vector answer when vector search is on and a store is returned, else the fallback; with vector search off the global is untouched |
| KnowledgeBase.NoVectorSearchIsFallback | backend/services/knowledge_base.py:48-51 | with vector search off the answer is the fallback text, whatever the global holds |
| KnowledgeBase.StaleStoreAnswer | backend/services/knowledge_base.py:11-19 | the request after a failed first load searches the empty store: it answers "" when the index reports no negative label and raises `IndexError` when it reports one |
| IndexBuild.CollectBatch | backend/build_index.py:27-40 | the loop builds the chunk list and the tag list of all documents, in dictionary order, keeping them the same length |
| IndexBuild.DocChunks | backend/build_index.py:34 | each document is chunked with 400-word windows and 50 words of overlap, giving ceil(words / 350) chunks |
| IndexBuild.BuildIndex | backend/build_index.py:16-52 | after one `add_texts` of the whole batch and one `save` under "knowledge_base", the files are those of the batch; an embedding failure or an empty batch stops the build before anything is saved |
| IndexBuild.BatchAligned | backend/build_index.py:39-40 | the text and metadata lists have equal length |
| IndexBuild.BatchLayout | backend/build_index.py:30-40 | each document's chunks are contiguous, in chunk order, after the earlier documents' chunks; chunk j of source s is tagged {"source": s, "chunk_id": j} |
| IndexBuild.BatchSize | backend/build_index.py:34-42 | the batch size is the sum of the per-document chunk counts |
| IndexBuild.BlankDocumentsContributeNothing | backend/build_index.py:34-48 | blank or missing documents contribute no chunks; with all three blank the build fails on the empty batch |
| IndexBuild.BuildThenLoad | backend/build_index.py:48-52 | after a successful build, loading the default name gives back the chunks, their tags and one vector per chunk |
| Property.PropertyData.constructor | backend/models/property.py:6-21 | every optional field defaults to None, has_land and is_foreign_eligible_direct to False, recommended_structures to [] |
| Property.PropertyData.ComputeEligibility | backend/models/property.py:23-37 | only the three derived fields may change; they become the decision table's values for type and floor level; the method returns the object itself |
| Property.CondoAboveGroundFloor | backend/models/property.py:25-27 | a condo on floor 2 or above becomes directly eligible with ["strata_title"], has_land untouched |
| Property.LandBearingProperty | backend/models/property.py:28-35 | a villa, land, or a condo on floor 1 gets has_land True, no direct eligibility and ["leasehold", "company_structure"] |
| Property.OtherPropertyUnchanged | backend/models/property.py:25-35 | every other case (house, unknown, a condo with floor None, 0 or below) leaves the derived fields unchanged |
| Property.ComputeEligibilityIdempotent | backend/models/property.py:25-35 | deriving twice gives the state of deriving once |
| PropertyParser.ExtractIdFromUrl | backend/services/property_parser.py:68-73 | the result is the capture of `/(\d+)/?$` (the end of the URL or before a final newline) and the only such capture; "unknown" when there is none |
| PropertyParser.FirstFiring | backend/services/property_parser.py:75-99 | a keyword chain returns the label of the first rule with a keyword present, and None exactly when no rule fires |
| PropertyParser.ExtractPropertyType | backend/services/property_parser.py:75-101 | the type is one of villa, condo, house, land or unknown |
| PropertyParser.TypeKeywordByRules | backend/services/property_parser.py:78-99 | each pass of the chain is the ordered table villa > condo/apartment > house > land |
| PropertyParser.PropertyTypeUrlFirst | backend/services/property_parser.py:75-101 | a keyword in the lowercased URL decides and the title is ignored; otherwise the title decides; "unknown" iff neither matches |
| PropertyParser.PropertyTypePriority | backend/services/property_parser.py:78-86 | "villa" wins over any other keyword, "apartment" gives condo, "house" wins over "land"; with no URL keyword the URL plays no part |
| PropertyParser.ExtractOwnershipType | backend/services/property_parser.py:162-173 | the result is one of hard_title, soft_title, strata_title or None |
| PropertyParser.OwnershipByRules | backend/services/property_parser.py:162-173 | the result is the first of hard, soft, strata title whose phrase occurs in the lowercased text, else None |
| PropertyParser.FirstMatch | backend/services/property_parser.py:129-131 | the position `re.search` matches at: a match there, and none at any earlier position from the start point |
| PropertyParser.SearchFrom | backend/services/property_parser.py:129-131 | `re.search` returns the capture at the leftmost position where the pattern matches, and None when it matches nowhere |
| PropertyParser.ExtractBedrooms | backend/services/property_parser.py:126-133 | the leftmost digit run followed by optional whitespace and "bed" in the lowercased text, as an integer, else None |
| PropertyParser.ExtractBathrooms | backend/services/property_parser.py:135-141 | the leftmost digit run followed by optional whitespace and "bath" in the lowercased text, as an integer, else None |
| PropertyParser.BedroomsExample | backend/services/property_parser.py:126-133 | "12 Bed" gives 12: the whole digit run, after lowercasing |
| PropertyParser.ExtractFloorLevel | backend/services/property_parser.py:175-185 | None unless the type is "condo"; for a condo the leftmost number after "floor" and one or more colons or spaces |
| PropertyParser.GetFallbackPropertyData | backend/services/property_parser.py:203-233 | a URL containing "258405" gives the fixed villa record (has_land True, not eligible, leasehold and company structure); any other URL gives type "unknown", the id from the URL and all other fields at their defaults |
| PropertyParser.FallbackVillaIsConsistent | backend/services/property_parser.py:211-226 | the fixed villa record already holds what `compute_eligibility` derives for a villa |
| Frontend.Carousel.ChangeSlide | js/script.js:57-74 | an index outside the slides throws before any change. Otherwise the index becomes (index + direction + total) % total with JavaScript's remainder, and the step throws only when that is out of range |
| Frontend.SlideStaysInRange | js/script.js:67 | from a valid index a step of ±1 stays in [0, total) and equals the step modulo total |
| Frontend.SlideStepsUndo | js/script.js:67 | next then previous (and previous then next) restores the index; previous from 0 gives total - 1 |
| Frontend.Carousel.GoToSlide | js/script.js:76-92 | the index is set to the argument without a bounds check; an out-of-range argument is stored and then throws |
| Frontend.FrameStep | js/script.js:173-178 | a frame that does not start with "data: " leaves the answer as it is, and a frame never shortens the answer |
| Frontend.ReadStep | js/script.js:169-171 | after a read, the frames and the new buffer joined with "\n\n" equal the old buffer plus the chunk, the buffer holds no "\n\n", and no frame holds "\n\n" or ends with a newline |
| Frontend.SplitAppend | js/script.js:164-171 | re-splitting after more input keeps the frames already split off, so the frames do not depend on how the stream is cut |
| Frontend.HandleFrames | js/script.js:172-182 | the frame loop replays the frames in order and stops at the first payload that does not parse |
| Frontend.StreamAnswer | js/script.js:164-186 | the read loop's answer is the replay of the complete frames of the whole stream; the unterminated tail is never parsed |
| Frontend.EmittedFrames | backend/main.py:67-75 | the body the server writes, one single-line `data: ` frame per event, splits back into exactly those frames with an empty tail |
| Frontend.ReplayDataFrames | js/script.js:177-178 | replaying well-formed frames appends the answer events' text in order; property and done events add nothing |
| Frontend.StreamRoundTrip | js/script.js:164-186 | however the emitted body is cut into chunks, the client ends with the concatenated answer fragments |
| Frontend.UpdateButtonStates | js/script.js:486-496 | afterwards each button is active iff its data-question attribute equals the argument, a missing attribute (`null`) included: a clicked button without one activates every button without one |

## Left out

- I/O is replaced by values. The knowledge directory and the index directory
  are maps from file name to contents. The embedding API (`get_embedding`)
  and FAISS search are function parameters. Pickle and FAISS serialisation,
  `mkdir`, printing and the OpenAI client are not modelled.
- FAISS internals and float L2 distances are not modelled: vectors are of an
  abstract type and distances are carried through unchanged. The code never
  reads `VectorStore.dimension` itself, but FAISS's `add` and `search` check
  that each vector has the index's dimension. With an abstract vector type
  that check is lost.
- Default arguments that no caller uses are left out: `chunk_size=500,
  overlap=50` of `chunk_text` and `k=3` of `search`. Every caller passes
  explicit values (400 and 50 in backend/build_index.py, 3 in
  backend/services/knowledge_base.py), and the model's `ChunkText` and
  `Search` take them as plain parameters.
- `get_vector_store` and the module global are modelled for one process.
  Concurrent requests and async handling are left out.
- `Lower` folds only ASCII letters, and digits are ASCII `0`-`9`. Python's
  Unicode `lower()` and Unicode `\d` (with `int` of non-ASCII digits) are not
  modelled.
- HTML fetching and parsing (`parse_property_from_url`, BeautifulSoup) are left
  out. The classifiers take the page text and the `h1` text as strings.
- `extract_price`, `extract_sizes` and `extract_location` produce floats or
  depend on the HTML tree, so they are left out.
- `build_prompt` and the OpenAI calls are prompt templating and network calls,
  so they are left out.
- The HTTP layer in backend/main.py is left out. Only its frame format informs
  `Frontend.Emit`.
- `JSON.parse` is a parameter returning an answer event or another event, or
  failing. An answer event whose `data` field is missing (appending
  "undefined") is not modelled.
- `TextDecoder` is left out: chunks are already-decoded strings.
- DOM work is left out: class toggling on slides and thumbnails,
  `updateSlideCounter`, `innerHTML`, scrolling, `formatMarkdownToHTML`. The
  number of thumbnails is taken to equal the number of slides.
- Frontend.Carousel.ChangeSlide: directions other than ±1 are allowed and
  modelled, but the range lemmas are stated only for ±1, the only values the
  page passes.
- PropertyParser.ExtractPropertyType: the `h1` element is given as its text,
  or None when the page has none. An element is always truthy in the code,
  so an empty title behaves like a title without keywords.
- Chunker.ChunkText: `chunk_size` is a natural number. Negative window sizes
  (negative slice ends) are not modelled.
