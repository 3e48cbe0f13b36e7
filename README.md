# pro-analytics-ai: retrieval and prompt core, in Dafny

This project models the question-answering core of the pro-analytics-ai
assistant. A question first goes through a local retrieval gate. A keyword
intent gate answers "how do I create/start a project" questions with a
canned two-option response. Every other question goes to the vector index
as a single query text. Only the best match is considered: its first
document is kept when its distance is 0.75 or below, so local retrieval
yields at most one document. Any local result becomes the answer at once. Otherwise the full path runs:

1. every Markdown file is cut into 300-character chunks;
2. the chunks are embedded;
3. a placeholder search takes the first three;
4. a ranker orders them;
5. the model answers from a structured prompt (guidelines, context cut to
   3000 characters, question, answer cue), or gives a fixed fallback when
   there is no context.

The model also covers:

- the index-loading side: paragraph chunking of Markdown files, tagging
  and id-keyed insertion that never overwrites a record;
- the older controller, prompt builder and model call, which the newer
  ones replaced;
- the front end's `formatResponse`.

Modules, one per source file:

| module | file |
|---|---|
| `Text`, `Sequences`, `Outcomes`, `Chunks` | shared string, sequence, error and chunk definitions (`text.dfy`, `sequences.dfy`, `outcomes.dfy`, `chunks.dfy`) |
| `FixedChunker` | `backend/C_retrieval_logic/c02_chunk_text.py` |
| `ParagraphChunker` | `backend/D_storage_layer/chroma_loader.py` |
| `ChromaStore` (class `Collection`) | `backend/D_storage_layer/chroma_store.py` |
| `PromptWrapper` | `backend/B_prompt_model/b1_build_prompt_wrapper.py` |
| `StructuredPrompt` | `backend/B_prompt_model/b1_build_prompt.py` |
| `LegacyPrompt` | `backend/B_prompt_model/build_prompt.py` |
| `ModelCall` (class `ModelGlobals`) | `backend/B_prompt_model/b2_call_model.py` |
| `LegacyModelCall` | `backend/B_prompt_model/call_model.py` |
| `VectorSearch` | `backend/C_retrieval_logic/c04_search_vectors.py` |
| `Pipeline` | `backend/B_prompt_model/b0_pipeline.py` |
| `LegacyPipeline` | `backend/B_prompt_model/query_pipeline.py` |
| `ResponseFormatter` | `docs/app.js` |

Python exceptions are `Err` values of `Outcomes.Result`:

- `ValueError` from `range` with step 0, and from an unsupported provider
  or quantization mode;
- `IndexError` from `doc[0]` on an empty document row.

Collaborators the core calls but does not define are function-typed
parameters:

- the Chroma similarity query;
- the sentence-embedding encoder;
- `rank_chunks`;
- the hosted chat API and the local model.

Each controller answer comes with a trace of the collaborator calls the
code makes: the text lists handed to the encoder, and the prompts handed
to the model. Both are the arguments the code computes for those calls.
That makes "the full path does not start" and "the model is not called"
statements about the result.

Where the code does less than its names and comments suggest, the model
follows the code:

- The full-path search returns the first `top_k` embedded chunks whatever
  the query. It is not a similarity ranking; its own comment
  (backend/C_retrieval_logic/c04_search_vectors.py:5) says a real
  similarity search is still to come.
- Local retrieval keeps at most one document, the best match's, whatever
  `top_k` is. One query text is sent, and only the first document and
  distance of its single result row are read. The docstring's
  "High-confidence results" and the comment about looping through
  flattened lists (backend/D_storage_layer/chroma_store.py:140 and :155)
  suggest every confident result would be kept.

Other behaviours of the code that the model states:

- The index is filled with `add` after dropping ids already present, so an
  existing record is never replaced.
- When the intent gate opens, the canned response is returned even if the
  focused lookup finds nothing.
- A confident row with an empty document list raises `IndexError`. It is
  not skipped.
- A looser confidence threshold never returns fewer documents. When a looser
  threshold admits a row with no document, it raises where the stricter one
  did not.

## Model

| member | source | states |
|---|---|---|
| FixedChunker.ChunkText | backend/C_retrieval_logic/c02_chunk_text.py:3-13 | fails exactly when `max_length` is 0 (range step zero); a negative length gives no chunks; every chunk carries the source path, is non-empty and at most `max_length` long |
| FixedChunker.ChunkTextRoundTrip | backend/C_retrieval_logic/c02_chunk_text.py:5-11 | the chunk texts concatenate back to the input text exactly |
| FixedChunker.ChunkTextSlices | backend/C_retrieval_logic/c02_chunk_text.py:8-10 | chunk k is `text[k*m : min((k+1)*m, len)]` with its offset inside the text |
| FixedChunker.ChunkTextCount | backend/C_retrieval_logic/c02_chunk_text.py:10 | the number of chunks is `ceil(len(text)/m)`, zero exactly for empty text |
| FixedChunker.ChunkTextFull | backend/C_retrieval_logic/c02_chunk_text.py:8-10 | every chunk except the last is exactly `max_length` characters |
| ParagraphChunker.KeptRecords | backend/D_storage_layer/chroma_loader.py:32-38 | at most one record per piece; each record has the file path, a stripped text, longer than 20 characters |
| ParagraphChunker.KeptRecordsArePositions | backend/D_storage_layer/chroma_loader.py:33-38 | the records are, in order, the stripped pieces at exactly the positions whose stripped length exceeds 20 |
| ParagraphChunker.PiecesRejoin | backend/D_storage_layer/chroma_loader.py:29 | the pieces split at blank lines join back into the file content |
| ParagraphChunker.ChunkMarkdown | backend/D_storage_layer/chroma_loader.py:29-38 | the loop builds exactly the kept records of the split content |
| ChromaStore.Tags | backend/D_storage_layer/chroma_store.py:54-90 | every tag list starts with the corpus tag and has at most one tag per test |
| ChromaStore.TagsInRuleOrder | backend/D_storage_layer/chroma_store.py:54-90 | after the corpus tag come the tags of exactly the tests that hold, in test order |
| ChromaStore.TagNamesDistinct | backend/D_storage_layer/chroma_store.py:57-90 | the twelve tag names are pairwise distinct and differ from the corpus tag |
| ChromaStore.EarnedTagIff | backend/D_storage_layer/chroma_store.py:57-90 | with distinct tag names, a rule's tag is earned exactly when its test holds |
| ChromaStore.TagPresentIff | backend/D_storage_layer/chroma_store.py:57-90 | a tag is in a chunk's list exactly when its substring test on the lower-cased source or text holds |
| ChromaStore.IdInjective | backend/D_storage_layer/chroma_store.py:96 | two `f"{i}-{source}"` ids are equal only for the same position and source |
| ChromaStore.CandidatesFromCorpus | backend/D_storage_layer/chroma_store.py:51-96 | a chunk is prepared exactly when its lower-cased source names the corpus; prepared record j is built from the chunk at the j-th such position and carries that position in its id |
| ChromaStore.CandidateIdsDistinct | backend/D_storage_layer/chroma_store.py:96 | the ids prepared in one call are pairwise distinct |
| ChromaStore.NewCandidatesFacts | backend/D_storage_layer/chroma_store.py:100-107 | the records kept for adding are prepared records whose ids are distinct and absent from the collection, and their ids are exactly the prepared ids minus the existing ones |
| ChromaStore.InsertedFacts | backend/D_storage_layer/chroma_store.py:109-114 | adding distinct unseen ids adds exactly those keys, stores each record under its id and changes no existing record |
| ChromaStore.InsertedCount | backend/D_storage_layer/chroma_store.py:109-114 | adding distinct unseen ids grows the count by their number |
| ChromaStore.StoredFacts | backend/D_storage_layer/chroma_store.py:35-114 | after storing, the keys are the old keys plus the prepared ids, old records are unchanged, and the count grows by the number of prepared ids not already present |
| ChromaStore.StoredNewRecords | backend/D_storage_layer/chroma_store.py:100-114 | every prepared record whose id was new is stored under that id |
| ChromaStore.StoreIdempotent | backend/D_storage_layer/chroma_store.py:100-114 | storing the same chunks twice leaves the collection as storing them once |
| ChromaStore.Collection.constructor | backend/D_storage_layer/chroma_store.py:30 | a new collection holds no record |
| ChromaStore.Collection.Add | backend/D_storage_layer/chroma_store.py:109-114 | the batch's records are inserted under their ids and the count grows by the batch size |
| ChromaStore.Collection.StoreChunks | backend/D_storage_layer/chroma_store.py:35-114 | the collection becomes `Stored(old, chunks)`: old records untouched, the new prepared ids added, the count grown by their number |
| ChromaStore.Rows | backend/D_storage_layer/chroma_store.py:157 | `zip` of documents, metadatas and distances stops at the shortest list and pairs elements by position |
| ChromaStore.ConfidentDocumentsSpec | backend/D_storage_layer/chroma_store.py:156-177 | the filter raises exactly when a confident row has no document; otherwise it returns, in row order, the first document of exactly the rows whose first distance is at most the threshold |
| ChromaStore.ThresholdMonotone | backend/D_storage_layer/chroma_store.py:167 | a looser threshold raises whenever a stricter one does and otherwise returns at least as many documents |
| ChromaStore.Retrieve | backend/D_storage_layer/chroma_store.py:131-177 | the confident documents of the single-text query; never more than one, whatever `top_k` is |
| ChromaStore.RetrieveBestMatch | backend/D_storage_layer/chroma_store.py:150-177 | raises exactly when the best match is confident but has no document; returns that match's first document when it is confident, and nothing otherwise |
| ChromaStore.QueryChunks | backend/D_storage_layer/chroma_store.py:150-177 | the loop returns exactly the confidence filter's result, including the `IndexError` case |
| PromptWrapper.WrapperRetrieval | backend/B_prompt_model/b1_build_prompt_wrapper.py:24-59 | when the intent gate opens and the lookup succeeds, the answer starts with the canned response and has one or two entries; otherwise at most one |
| PromptWrapper.IntentFiresIff | backend/B_prompt_model/b1_build_prompt_wrapper.py:24-27 | the gate opens exactly when the lower-cased input contains "project" and one of "create", "init", "start" ("initialize" adds nothing) |
| PromptWrapper.IntentCaseInsensitive | backend/B_prompt_model/b1_build_prompt_wrapper.py:25-26 | lower-casing the input first does not change whether the gate opens |
| PromptWrapper.WrapperIntentPath | backend/B_prompt_model/b1_build_prompt_wrapper.py:31-56 | when the gate opens, the lookup is "project initialization" with 5 results; its failure propagates, and otherwise the answer is the canned response followed by the lookup's chunks |
| PromptWrapper.WrapperFallThrough | backend/B_prompt_model/b1_build_prompt_wrapper.py:59 | when the gate stays shut, the answer is the plain lookup of the input with 3 results |
| PromptWrapper.CannedResponseOffersBoth | backend/B_prompt_model/b1_build_prompt_wrapper.py:34-49 | the canned response contains both option headings |
| VectorSearch.SearchVectors | backend/C_retrieval_logic/c04_search_vectors.py:3-6 | the result is the prefix `embedded_chunks[:top_k]` with Python slice lengths, negative `top_k` included |
| VectorSearch.SearchIgnoresQuery | backend/C_retrieval_logic/c04_search_vectors.py:3-6 | the query plays no part in the result |
| VectorSearch.SearchDefaultAtMostThree | backend/C_retrieval_logic/c04_search_vectors.py:3 | with the default `top_k` at most three chunks come back, the first three when there are that many |
| StructuredPrompt.GuidelinesText | backend/B_prompt_model/b1_build_prompt.py:26-32 | without a file the default sentence; with one, the content without surrounding whitespace |
| StructuredPrompt.Context | backend/B_prompt_model/b1_build_prompt.py:49-53 | the context is a prefix of the blank-line join, at most 3000 characters, and the whole join when it fits |
| StructuredPrompt.ContextFits | backend/B_prompt_model/b1_build_prompt.py:52-53 | a join of at most 3000 characters is not cut |
| StructuredPrompt.BuildPrompt | backend/B_prompt_model/b1_build_prompt.py:34-63 | the prompt starts with the guidelines, holds the context and the question at their offsets, and ends with the answer cue; its length is the sum of its parts |
| StructuredPrompt.PromptParts | backend/B_prompt_model/b1_build_prompt.py:56-61 | the context and question headings sit between the parts, in order |
| StructuredPrompt.PromptEndsWithAnswerCue | backend/B_prompt_model/b1_build_prompt.py:56-61 | every prompt ends with "Answer:" and contains the question |
| LegacyPrompt.LegacyContext | backend/B_prompt_model/build_prompt.py:4-5 | the context is the join's prefix of at most 3000 characters |
| LegacyPrompt.SameContextAsStructured | backend/B_prompt_model/build_prompt.py:4-5 | the slice and the guarded cut of the newer builder give the same context |
| LegacyPrompt.BuildPrompt | backend/B_prompt_model/build_prompt.py:3-10 | the prompt starts with the assistant sentence; the "Context:" heading, the context and the "Question:" heading follow at their offsets; it ends with the question |
| LegacyPrompt.NoAnswerCue | backend/B_prompt_model/build_prompt.py:6-10 | the prompt ends with "Answer:" exactly when the question does |
| ModelCall.LoadNoneModel | backend/B_prompt_model/b2_call_model.py:48-63 | succeeds exactly for "openrouter" and "openai", giving that provider's client, and otherwise raises with the provider |
| ModelCall.LoadBackend | backend/B_prompt_model/b2_call_model.py:95-102 | "8bit" loads the 8-bit local model and "4bit" the 4-bit one; "none" loads the API client `load_none_model` picks, or raises its provider error; any other mode raises with the mode |
| ModelCall.LocalModesIgnoreProvider | backend/B_prompt_model/b2_call_model.py:97-100 | the local modes do not look at the provider |
| ModelCall.ModelGlobals.constructor | backend/B_prompt_model/b2_call_model.py:40-42 | client, model and tokenizer start unset |
| ModelCall.ModelGlobals.Load | backend/B_prompt_model/b2_call_model.py:95-102 | the dispatch returns `LoadBackend`'s result, sets exactly the globals of the loaded back end, and sets nothing when it raises |
| ModelCall.CallModel | backend/B_prompt_model/b2_call_model.py:109-154 | without chunks the fallback message and no model call; otherwise exactly one call with the structured prompt, and an API answer stripped of surrounding whitespace |
| ModelCall.AnswerFromModel | backend/B_prompt_model/b2_call_model.py:138-151 | the API answer is the returned content less only leading and trailing whitespace; the local answer is the decoded output unchanged |
| LegacyModelCall.LoadClient | backend/B_prompt_model/call_model.py:21-31 | succeeds exactly for "openrouter" and "openai", giving that provider's client, and otherwise raises with the provider |
| LegacyModelCall.CallModel | backend/B_prompt_model/call_model.py:34-58 | without chunks the fallback and no call; otherwise one call with the older prompt and a stripped answer |
| LegacyModelCall.AnswerFromCompletion | backend/B_prompt_model/call_model.py:51-58 | the answer is the client's content less only leading and trailing whitespace |
| LegacyModelCall.FallbacksDiffer | backend/B_prompt_model/call_model.py:37-41 | the older fallback differs from the newer one only in the apostrophe of "can't" (U+2019 against U+0027) |
| Pipeline.FileChunks | backend/B_prompt_model/b0_pipeline.py:64-65 | a file's chunks carry its path and concatenate back to its text |
| Pipeline.AllChunksCoverFiles | backend/B_prompt_model/b0_pipeline.py:63-65 | the corpus chunk texts concatenate to the file texts in file order |
| Pipeline.AllChunksSources | backend/B_prompt_model/b0_pipeline.py:63-65 | every corpus chunk comes from one of the files |
| Pipeline.EmbedChunks | backend/C_retrieval_logic/c03_embed_chunks.py:6-13 | every chunk is kept, in order; the embedding pairs chunks with vectors by position as `zip` does |
| Pipeline.FullPath | backend/B_prompt_model/b0_pipeline.py:60-77 | the encoder receives every corpus chunk text; with no ranked text the answer is the fallback and the model is not called; otherwise the model receives the structured prompt over the ranked texts, and the answer is the stripped API content or the local output |
| Pipeline.Query | backend/B_prompt_model/b0_pipeline.py:46-77 | the controller, with its chunking loop, gives exactly the outcome of `Respond` |
| Pipeline.LocalShortCircuit | backend/B_prompt_model/b0_pipeline.py:46-53 | a non-empty local result is answered as the heading plus the chunks joined by spaces; neither the encoder nor the model is called |
| Pipeline.IntentNeverCallsModel | backend/B_prompt_model/b0_pipeline.py:46-53 | a project-start question whose focused lookup succeeds calls neither the encoder nor the model, and its answer opens with the heading and the canned response |
| Pipeline.FullPathTaken | backend/B_prompt_model/b0_pipeline.py:60-77 | with no local result the answer and prompts are those of `call_model` over the ranked texts, and the encoder receives chunk texts that concatenate to the file texts |
| Pipeline.SearchSeesEmbeddedCorpus | backend/B_prompt_model/b0_pipeline.py:68-71 | the ranker receives the first min(3, n) embedded corpus chunks, whatever the question |
| LegacyPipeline.LegacyQuery | backend/B_prompt_model/query_pipeline.py:8-18 | the older controller, with its chunking loop, gives exactly the outcome of `LegacyRespond` |
| LegacyPipeline.LegacyAlwaysFullPath | backend/B_prompt_model/query_pipeline.py:8-18 | every question encodes the whole corpus; the client receives the older prompt over the ranked texts and the answer is its stripped content, or the fallback is returned without a call |
| LegacyPipeline.SameRetrievalAsFullPath | backend/B_prompt_model/query_pipeline.py:9-18 | with the same files, encoder and ranker, the older controller and the newer full path encode the same texts, call their model equally often, and put the same context into their prompts |
| ResponseFormatter.FormatResponse | docs/app.js:54-67 | a falsy response gives "No data received"; any other gives `<ul>`…`</ul>` whose content holds no newline and no `**`, differs from the rewritten text only in whitespace, and is the response itself when no pattern occurs |
| ResponseFormatter.TransformFacts | docs/app.js:58-63 | the wrapped text holds no newline and no `**` |
| ResponseFormatter.RemovePairsFacts | docs/app.js:62 | removing `**` globally leaves no `**` and keeps a first character other than `*` |
| ResponseFormatter.StarRunParity | docs/app.js:62 | a run of n stars keeps n mod 2 of them |
| ResponseFormatter.CollapseGaps | docs/app.js:63 | the collapse never lengthens the text, keeps its first character and adds no new character |
| ResponseFormatter.CollapseKeepsNoDoubleStars | docs/app.js:62-63 | the final collapse cannot bring back a `**` |
| ResponseFormatter.CollapseOnlyDropsSpace | docs/app.js:63 | the collapse deletes whitespace (JavaScript's `\s`) and nothing else |
| ResponseFormatter.CollapseAbsent | docs/app.js:63 | text with no `</li>`-whitespace-`<li>` gap is left unchanged |
| ResponseFormatter.TransformUnchanged | docs/app.js:58-63 | text holding none of the patterns goes through every replacement unchanged |

## Left out

- Chroma's storage, persistence, embedding function and similarity search are not modelled. The matches for one query text (documents, metadatas, distances) are an input function of the text and the count. The reply's shape for a one-text query, one entry per list, is built in.
- The embedding model (`SentenceTransformer.encode`) and `rank_chunks` are parameters. `rank_chunks` (`c05_rank_chunks.py`) is not part of this model.
- Failures of the collaborators are not modelled. The encoder, the ranker, the API call (`client.chat.completions.create` and the `.message.content` access) and the local model are total functions here. In the source an exception from any of them propagates out of `query`.
- The hosted chat API (OpenAI or OpenRouter client) and the local transformers / auto-gptq model are the parameters `complete` and `generate`. API keys, base URLs, model names, temperature and `max_new_tokens` are not modelled.
- File I/O is not modelled: `load_markdown_files`, the guidelines file read and the Markdown file read in `chunk_markdown` take their contents as arguments. Environment and `.env` configuration is passed in as strings.
- Logging, `print`, the count-discrepancy warning and the sample query after insertion in `store_chunks`, and the collection-stats dump in `query_chunks` only produce log output. They are left out.
- The metadata of a query row only feeds log messages and is not carried.
- Chroma's float distances and `CONFIDENCE_THRESHOLD` are modelled as `real`, so NaN, infinities and floating-point rounding are outside the model. A missing `distances` entry is modelled per row (that row is skipped). Chroma can also leave out the whole `distances` list, which would make the source's `zip` raise; that case is not modelled.
- `embed_chunks` writes the embedding into each chunk dictionary in place. It is modelled as returning new values, so aliasing of the dictionaries is not captured.
- Text.Lower, Text.Strip: only ASCII letters are lower-cased, and only ASCII whitespace is stripped. Python's Unicode case mapping and whitespace set are not modelled. The front end's `\s` does use JavaScript's full whitespace set.
- ChromaStore.Collection.Add: requires distinct ids not yet in the collection, which is the only way `store_chunks` calls it. Chroma's behaviour on a duplicate id is not modelled.
- ModelCall.CallModel: the local-mode answer is the decoded output as the parameter returns it. The tokenizer's decoding of prompt and generated tokens is not modelled.
- StructuredPrompt.GuidelinesText: the default sentence is given exactly but is not claimed to be stripped.
- The API layer (`query_api.py`), `main.py`, `refresh_chroma.py` and the front end's DOM handling and fetch are callers of the core and are not modelled.
