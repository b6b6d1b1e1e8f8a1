# arXiv paper assistant: a Dafny model

The repository is a browser extension for arxiv.org. On an abstract or PDF
page it shows a panel where the reader can:

- save the paper to a local library;
- tag the paper and browse the library by tag ("collections");
- chat with an OpenAI model about the paper.

The chat is retrieval-augmented. The extension downloads the paper's PDF and
extracts its text page by page. It cuts the text into overlapping chunks and
embeds every chunk. It keeps the vectors in an in-memory store. It answers a
question from the three chunks closest to the question's embedding.

This project models the extension's core in Dafny and proves properties of
that model.

- `Wrappers` holds the `Option` and `Result` types.
- `Text` holds the JavaScript string operations the core relies on: `trim`,
  `split`, `join`, `includes`, `startsWith`, decimal page numbers and
  `toLowerCase`.
- `Papers` holds the saved-paper record. It models how `savePaper` merges a
  record into the library and how tags are added and removed. It also counts
  tags: once as the source computes it, on a plain object, and once
  corrected.
- `PdfExtractor` models `utils/pdf-extractor.ts`:
  - reading the pages into a `[Page n]`-marked text;
  - classifying errors;
  - reconciling PDF and HTML text in `extractContent`;
  - formatting a chunk for embedding.
- `Chunker` models `createChunks`:
  - splitting the text back into pages at the `[Page n]` markers;
  - cutting each page into windows of 1000 characters that overlap by 200.

  It proves that the split inverts the page stream of `PdfExtractor`.
- `Similarity` models cosine similarity. `Ranking` models the stable
  best-first sort and the top-k cut.
- `VectorStore` models the `BrowserVectorStore` class.
- `Assistant` models the `ArxivAssistant` class:
  - embedding papers and chunks, in batches of ten;
  - retrieval;
  - the prompts;
  - chat, RAG chat, summaries and keywords.
- `Background` models the background script. `BackgroundScript` is a class
  over a `Storage` value that mirrors `browser.storage.local`. It has one
  method per handler and `Dispatch` for the message switch. Each handler's
  effect is also a function on `Storage`, and lemmas about those functions
  state the invariants the handlers keep. What the assistant's in-memory
  store holds after each handler is a function on `Vectors` (its paper and
  chunk vectors). `SET_OPENAI_KEY` drops the assistant and creates a new
  one with an empty store, and the pass that follows only extracts papers
  without a stored text. So a paper extracted before the key change keeps
  its chunk marker but has no chunk vector afterwards, and its chat goes
  through the RAG prompt but retrieves no chunk (`Background.KeyChangeDropsVectors`).
- `Content` models the pure logic of the content script:
  - parsing the arXiv id from the URL;
  - tag suggestions;
  - the add-tag duplicate check;
  - the collections view;
  - the author line;
  - the line-by-line Markdown renderer;
  - the `/clear-pdf-cache` chat command.

Effects outside the program are parameters. `Services` holds the OpenAI
embedding function, the chat function and the square root. `Env` holds the
PDF download, which yields a `FetchOutcome`, and the timestamp.

## Model

| member | source | states |
|---|---|---|
| Text.Trim | wxt-dev-wxt/utils/pdf-extractor.ts:98 | `trim()` returns the slice of the input between its first and last non-whitespace characters; everything outside it is whitespace |
| Text.TrimEmptyIffBlank | wxt-dev-wxt/utils/pdf-extractor.ts:98 | the trimmed text is empty exactly when the text is all whitespace |
| Text.TrimUntouched | wxt-dev-wxt/entrypoints/content.ts:639 | a text with non-blank ends is left unchanged by `trim()` |
| Text.NatToString | wxt-dev-wxt/utils/pdf-extractor.ts:74 | the decimal rendering of a page number is a non-empty run of digits without a leading zero, except for 0 itself |
| Text.ParseNatToString | wxt-dev-wxt/utils/pdf-extractor.ts:220 | `parseInt` of a rendered page number gives the number back |
| Text.NatToStringInjective | wxt-dev-wxt/utils/openai.ts:152 | distinct numbers render to distinct strings |
| Text.SplitOn | wxt-dev-wxt/utils/openai.ts:341 | `split` on a character always yields at least one piece |
| Text.SplitOnJoin | wxt-dev-wxt/utils/openai.ts:341 | joining the pieces of a split with the separator restores the text, and no piece holds the separator |
| Text.JoinSplitOn | wxt-dev-wxt/utils/pdf-extractor.ts:250-255 | splitting a join of separator-free pieces gives the pieces back |
| Text.ToLower | wxt-dev-wxt/entrypoints/content.ts:713 | lower-casing keeps the length, leaves no ASCII capital, keeps every other character in place and maps each capital to its lower-case partner |
| Text.ToLowerIdempotent | wxt-dev-wxt/entrypoints/content.ts:713 | lowering an already lowered string changes nothing |
| Text.ToLowerKeeps | wxt-dev-wxt/entrypoints/content.ts:713 | a string without ASCII capitals is left unchanged by lower-casing |
| Text.ToLowerAppend | wxt-dev-wxt/entrypoints/content.ts:713 | lowering a concatenation lowers each part |
| Papers.MergeOverrides | wxt-dev-wxt/entrypoints/background.ts:314-321 | `Papers.Merge`, the record `savePaper` stores: re-saving a known paper takes id, title and abstract from the new record, and authors and PDF link from it when present, else from the stored record |
| Papers.MergeSavedAt | wxt-dev-wxt/entrypoints/background.ts:319 | the save time is truthy when the clock value or the stored time is; a stored truthy time is kept; a new paper gets the current time |
| Papers.MergeTags | wxt-dev-wxt/entrypoints/background.ts:320 | the merged record has a tag list: the incoming one, else the stored one, else empty |
| Papers.MergeIdempotent | wxt-dev-wxt/entrypoints/background.ts:309-321 | saving the same paper twice gives the same record as saving it once |
| Papers.Without | wxt-dev-wxt/entrypoints/background.ts:423 | the tag filter removes every occurrence of the tag and nothing else (as multisets); it shortens the list exactly when the tag was present |
| Papers.AddTagOutcomes | wxt-dev-wxt/entrypoints/background.ts:391-415 | `Papers.AddTag`: an unknown paper gives "Paper not found" and an existing tag "Tag already exists", both without change; success exactly when the paper exists without the tag, and then the tag is appended to that paper only |
| Papers.AddTagTwice | wxt-dev-wxt/entrypoints/background.ts:399-409 | adding a tag a second time fails and changes nothing |
| Papers.RemoveTagOutcomes | wxt-dev-wxt/entrypoints/background.ts:417-437 | `Papers.RemoveTag`: success exactly when the paper holds the tag; the paper's tags lose every occurrence of it and nothing else; other papers and failures change nothing |
| Papers.AddThenRemove | wxt-dev-wxt/entrypoints/background.ts:391-437 | removing a tag that was just added restores the library |
| Papers.WithoutAppend | wxt-dev-wxt/entrypoints/background.ts:403-423 | filtering out a freshly appended tag gives the old list back |
| Papers.TagOperationsKeepDistinct | wxt-dev-wxt/entrypoints/background.ts:391-437 | when no paper holds a tag twice, adding or removing a tag keeps it so |
| Papers.TagBagSize | wxt-dev-wxt/entrypoints/background.ts:558-564 | the tag counts add up to the total number of tag slots over the papers |
| Papers.CountVersusHolders | wxt-dev-wxt/entrypoints/background.ts:558-564 | a tag's count is at least the number of papers holding it, and equal when tag lists are duplicate-free |
| Papers.CountInto | wxt-dev-wxt/entrypoints/background.ts:560-562 | the counting loop adds each tag's multiplicity to the running counts |
| Papers.CountTags | wxt-dev-wxt/entrypoints/background.ts:554-567 | the counts are exactly the tag multiplicities over all saved papers, including for tags named like `Object.prototype` members |
| Papers.TagCountMatchesPaperList | wxt-dev-wxt/entrypoints/content.ts:499-501 | with duplicate-free tag lists, a tag is listed with a count exactly when the tag's paper list is non-empty, and the count is that list's size |
| Papers.RecordTagCounts | wxt-dev-wxt/entrypoints/background.ts:554-567 | counting on a plain object, as written: its keys are the tags used, except `__proto__` |
| Papers.RecordCountsAgree | wxt-dev-wxt/entrypoints/background.ts:554-567 | when no tag is an inherited member name or `__proto__`, the object counts equal the corrected counts |
| Papers.RecordCountsConstructorTag | wxt-dev-wxt/entrypoints/background.ts:561 | a single paper tagged `constructor` is counted 1 by the corrected count, but the object holds the string `function Object() { [native code] }1` for it |
| PdfExtractor.ReadPagesSpec | wxt-dev-wxt/utils/pdf-extractor.ts:61-84 | the page stream lists exactly the pages that were read (failed pages skipped), numbered from 1, in ascending order, with their items joined by spaces |
| PdfExtractor.PagesToExtractBounds | wxt-dev-wxt/utils/pdf-extractor.ts:38-58 | the number of pages read never exceeds the page count; a missing or zero maximum reads everything; fast mode reads at most 10 |
| PdfExtractor.FailedPageSkipped | wxt-dev-wxt/utils/pdf-extractor.ts:80-83 | a page whose text cannot be read leaves no section behind |
| PdfExtractor.SectionsNotBlank | wxt-dev-wxt/utils/pdf-extractor.ts:70-74 | once one page is read, the stream holds a `[Page n]` marker and is not blank |
| PdfExtractor.FullTextBlankIff | wxt-dev-wxt/utils/pdf-extractor.ts:86-101 | the extracted text is blank exactly when no page was read and the document was not cut short |
| PdfExtractor.DownloadErrorUnclassified | wxt-dev-wxt/utils/pdf-extractor.ts:112-120 | the download message matches none of the classification patterns, so it passes through unchanged |
| PdfExtractor.InvalidPdfErrorClassified | wxt-dev-wxt/utils/pdf-extractor.ts:114-115 | the invalid-PDF message holds `Invalid PDF` and not `fetch` |
| PdfExtractor.WorkerErrorUnclassified | wxt-dev-wxt/utils/pdf-extractor.ts:116-120 | the worker message passes classification unchanged |
| PdfExtractor.ImageBasedErrorUnclassified | wxt-dev-wxt/utils/pdf-extractor.ts:99-120 | the image-based-PDF message passes classification unchanged |
| PdfExtractor.ClassifyErrorIdempotent | wxt-dev-wxt/utils/pdf-extractor.ts:104-121 | `PdfExtractor.ClassifyError`: classifying a classified message changes nothing, and a message matching no pattern is rethrown as it is |
| PdfExtractor.HttpErrorIsDownloadError | wxt-dev-wxt/utils/pdf-extractor.ts:41-44 | every HTTP failure status is reported as the download error |
| PdfExtractor.ImageOnlyPagesAccepted | wxt-dev-wxt/utils/pdf-extractor.ts:98-101 | `PdfExtractor.ExtractText`, as written: a document whose pages were read but hold no text is accepted as text; `PdfExtractor.ExtractTextIntended` rejects it as image-based |
| PdfExtractor.ExtractTextIntendedSpec | wxt-dev-wxt/utils/pdf-extractor.ts:98-101 | `PdfExtractor.ExtractTextIntended` fails, with the image-based message, exactly when no read page holds text, and otherwise returns the page stream; it rejects everything `PdfExtractor.ExtractText` rejects |
| PdfExtractor.ReadSections | wxt-dev-wxt/utils/pdf-extractor.ts:61-84 | the page loop builds exactly the page stream of the pages read |
| PdfExtractor.ExtractTextFromPdf | wxt-dev-wxt/utils/pdf-extractor.ts:33-121 | the extraction method returns `PdfExtractor.ExtractText`, the result as written (it tests the accumulated text for blankness); whatever it rejects the intended check rejects too, and accepted text is never empty |
| PdfExtractor.HtmlContentNonEmptyIff | wxt-dev-wxt/utils/pdf-extractor.ts:156-162 | `PdfExtractor.HtmlContent`: the HTML text is non-empty exactly when metadata with an abstract exists, and then it contains the abstract |
| PdfExtractor.ReconcileTable | wxt-dev-wxt/utils/pdf-extractor.ts:169-207 | `PdfExtractor.Reconcile`, the decision of `extractContent`: it fails (no content) exactly when the PDF failed and there is no HTML text; a longer PDF text wins, and counts as the full PDF only outside fast mode; a shorter one is appended to the HTML with the limited note; a failed PDF gives the HTML with the failed note |
| PdfExtractor.ReconcileKeepsText | wxt-dev-wxt/utils/pdf-extractor.ts:169-207 | a successful result always contains the PDF text when there is one, starts with the HTML text unless the PDF text won, and is never shorter than the HTML text |
| PdfExtractor.ExtractContentAgrees | wxt-dev-wxt/utils/pdf-extractor.ts:98-101 | `PdfExtractor.ExtractContentAsWritten` (over the written check) and `PdfExtractor.ExtractContent` (over the intended one) differ only for a loaded PDF whose pages read gave no text while its stream is not blank |
| PdfExtractor.ExtractContentNonEmpty | wxt-dev-wxt/utils/pdf-extractor.ts:165-207 | content extracted by either version of `extractContent` is never empty |
| PdfExtractor.FormatChunkLines | wxt-dev-wxt/utils/pdf-extractor.ts:250-255 | `PdfExtractor.FormatChunkForEmbedding` is four lines: title, authors, page number and chunk text; when the fields hold no line break, splitting at newlines gives them back |
| Chunker.MarkerAt | wxt-dev-wxt/utils/pdf-extractor.ts:216 | a recognised `[Page n]` line yields a non-empty digit run within the text |
| Chunker.MarkerOf | wxt-dev-wxt/utils/pdf-extractor.ts:74 | the marker the extractor writes is recognised by the splitter, with the same number |
| Chunker.SplitPages | wxt-dev-wxt/utils/pdf-extractor.ts:216-217 | every page the splitter yields carries a run of digits as its number |
| Chunker.SplitSections | wxt-dev-wxt/utils/pdf-extractor.ts:216-217 | splitting a page stream recovers one segment per page, the last one carrying the trailing note |
| Chunker.TruncationNoteHasNoPageTag | wxt-dev-wxt/utils/pdf-extractor.ts:86-88 | the truncation note starts with a newline and holds no page marker |
| Chunker.ParseSectionsRoundTrip | wxt-dev-wxt/utils/pdf-extractor.ts:216-221 | parsing a page stream gives back the pages' numbers and texts; only the last text also carries the tail |
| Chunker.ParseExtractedText | wxt-dev-wxt/utils/pdf-extractor.ts:64-88 | round trip: `createChunks`' page split applied to the extracted text recovers the pages that were read |
| Chunker.PushWindows | wxt-dev-wxt/utils/pdf-extractor.ts:226-242 | the window loop appends exactly the page's windows, indexed from the current chunk count |
| Chunker.CreateChunks | wxt-dev-wxt/utils/pdf-extractor.ts:210-247 | `createChunks` returns the windows of every parsed page in page order |
| Chunker.PageWindowsShape | wxt-dev-wxt/utils/pdf-extractor.ts:228-242 | a page of length L gives ceil(L/800) windows; window j starts at 800·j, carries chunk index `index + j` and the page text from its start to its end |
| Chunker.PageWindowsCover | wxt-dev-wxt/utils/pdf-extractor.ts:228-242 | each window is 1000 characters unless it reaches the page end; consecutive windows start 800 apart (an overlap of 200); the last one reaches the end of the page; every character lies in some window |
| Chunker.ChunkIndicesConsecutive | wxt-dev-wxt/utils/pdf-extractor.ts:213-234 | chunk indices run 0, 1, 2, … across all pages |
| Chunker.ChunksWithinPages | wxt-dev-wxt/utils/pdf-extractor.ts:228-237 | every chunk is a slice of the text of the page whose number it carries |
| Chunker.PagesWithTextChunked | wxt-dev-wxt/utils/pdf-extractor.ts:222-242 | every page with non-blank text yields at least one chunk |
| Chunker.MarkerFreeTextGivesNoChunks | wxt-dev-wxt/utils/pdf-extractor.ts:216-223 | text without page markers, such as the HTML fallback, yields no chunks |
| Chunker.AcceptedTextGivesChunks | wxt-dev-wxt/utils/pdf-extractor.ts:219-242 | text accepted by the intended extraction always yields at least one chunk |
| Similarity.CosineSimilarity | wxt-dev-wxt/utils/openai.ts:66-85 | the loop computes the cosine; vectors of different lengths, or with a zero magnitude, score 0 (the same function is at background.ts:570-589) |
| Similarity.CosineSymmetric | wxt-dev-wxt/utils/openai.ts:66-85 | the similarity is symmetric in its two vectors |
| Similarity.ZeroVectorScoresZero | wxt-dev-wxt/utils/openai.ts:81-82 | a zero vector scores 0 against anything |
| Ranking.SortDescPermutes | wxt-dev-wxt/utils/openai.ts:45 | the best-first sort is a permutation |
| Ranking.SortDescSorted | wxt-dev-wxt/utils/openai.ts:45 | the sorted list is in non-increasing similarity |
| Ranking.SortDescStable | wxt-dev-wxt/utils/openai.ts:45 | entries of equal similarity keep their input order, as `Array.prototype.sort` guarantees |
| Ranking.TopSpec | wxt-dev-wxt/utils/openai.ts:45-47 | the top-k list has min(k, n) entries, is sorted and is a sub-multiset of the input |
| Ranking.TopKeepsBest | wxt-dev-wxt/utils/openai.ts:45-47 | every kept entry scores at least as high as every dropped one |
| VectorStore.UpsertLookup | wxt-dev-wxt/utils/openai.ts:29-35 | after `Map.set`, the id maps to the new entry and every other id is unchanged |
| VectorStore.UpsertIds | wxt-dev-wxt/utils/openai.ts:29-35 | `Map.set` keeps key order: an existing id keeps its place, a new id goes last |
| VectorStore.UpsertUnique | wxt-dev-wxt/utils/openai.ts:29-35 | the store never holds an id twice |
| VectorStore.UpsertIn | wxt-dev-wxt/utils/openai.ts:29-35 | `Map.set` adds the new entry and drops at most the one it replaces |
| VectorStore.OfPaperNone | wxt-dev-wxt/utils/openai.ts:54-59 | a paper none of whose chunks is stored has no chunk to score |
| VectorStore.ScoreMatchingOfPaper | wxt-dev-wxt/utils/openai.ts:54-59 | chunk scoring only considers chunks of the requested paper, in store order |
| VectorStore.BrowserVectorStore.constructor | wxt-dev-wxt/utils/openai.ts:25-27 | a new store has no papers and no chunks |
| VectorStore.BrowserVectorStore.AddItem | wxt-dev-wxt/utils/openai.ts:29-31 | adds or replaces a paper vector and leaves the chunks untouched |
| VectorStore.BrowserVectorStore.AddChunkItem | wxt-dev-wxt/utils/openai.ts:33-35 | adds or replaces a chunk vector and leaves the papers untouched |
| VectorStore.BrowserVectorStore.FindSimilar | wxt-dev-wxt/utils/openai.ts:37-48 | returns the top `limit` papers by similarity to the query |
| VectorStore.BrowserVectorStore.FindSimilarChunks | wxt-dev-wxt/utils/openai.ts:50-64 | returns the top `limit` chunks of the given paper by similarity |
| VectorStore.FindSimilarChunksSpec | wxt-dev-wxt/utils/openai.ts:50-64 | at most `limit` results, best first, all from the requested paper, each present in the store, and together a sub-multiset of that paper's scored chunks |
| VectorStore.FindSimilarSpec | wxt-dev-wxt/utils/openai.ts:37-48 | at most `limit` results, best first, each present in the store |
| Assistant.ChunkIdInjective | wxt-dev-wxt/utils/openai.ts:152 | chunk ids `<arxivId>_chunk_<n>` of different chunks differ, so chunks never overwrite each other |
| Assistant.UpsertTwice | wxt-dev-wxt/utils/openai.ts:152-162 | embedding the same chunk again leaves the store as it was |
| Assistant.UpsertAllAppend | wxt-dev-wxt/utils/openai.ts:172-188 | storing two batches one after the other equals storing their concatenation |
| Assistant.BatchesPartition | wxt-dev-wxt/utils/openai.ts:172-174 | `Assistant.Batches`: the batches of ten concatenate to the chunk list; all are non-empty, there are ceil(n/10) of them, and all but the last are full |
| Assistant.PaperTextLines | wxt-dev-wxt/utils/openai.ts:110 | `Assistant.PaperText`, the text embedded for a paper, is three labelled lines: title, authors joined by commas, abstract; when the fields hold no line break, splitting at newlines gives them back |
| Assistant.ChunkTextLines | wxt-dev-wxt/utils/openai.ts:140-142 | `Assistant.ChunkText`, the text embedded for a chunk, is three lines: paper title, page number, chunk text; when title and text hold no line break, splitting at newlines gives them back |
| Assistant.FirstFailure | wxt-dev-wxt/utils/openai.ts:178-180 | the position of the first chunk whose `embedChunk` call rejects: every call before it succeeds, and the one at it fails unless it is the end |
| Assistant.FirstFailureUnique | wxt-dev-wxt/utils/openai.ts:178-180 | any position with only successes before it and a failure (or the end) at it is the first failure |
| Assistant.FirstFailureAppend | wxt-dev-wxt/utils/openai.ts:178-180 | the first failure of two runs of chunks lies in the first run if it has one, else in the second |
| Assistant.BatchOutcome | wxt-dev-wxt/utils/openai.ts:178-180 | `Promise.all` over a batch resolves exactly when every call succeeds, and then with each chunk's vector in chunk order |
| Assistant.BatchOutcomeFirstError | wxt-dev-wxt/utils/openai.ts:178-180 | a rejected batch rejects with the error of its first failing chunk |
| Assistant.BatchOutcomeAppend | wxt-dev-wxt/utils/openai.ts:178-180 | the outcome over two runs of chunks: the first run's error, else its vectors followed by the second run's outcome |
| Assistant.Succeeded | wxt-dev-wxt/utils/openai.ts:152-162 | the chunk entries stored by a batch: never more than its chunks, and none without a client |
| Assistant.SucceededAll | wxt-dev-wxt/utils/openai.ts:152-162 | when every call succeeds, every chunk is stored, in chunk order, with the vector its call returned |
| Assistant.SucceededSound | wxt-dev-wxt/utils/openai.ts:152-162 | only chunks whose call succeeded are stored, each with the vector its call returned |
| Assistant.SucceededAppend | wxt-dev-wxt/utils/openai.ts:152-162 | the entries stored for two runs of chunks are those of the first followed by those of the second |
| Assistant.EmbedChunksStops | wxt-dev-wxt/utils/openai.ts:167-192 | `embedChunks` resolves or rejects as `Promise.all` over all chunks would; it stores the succeeding chunks up to the end of the batch that holds the first failure, and none after it |
| Assistant.UpsertAllIn | wxt-dev-wxt/utils/openai.ts:33-35 | after a run of `Map.set` calls every entry was there before or is one of the new ones |
| Assistant.UpsertAllLookup | wxt-dev-wxt/utils/openai.ts:33-35 | after a run of `Map.set` calls with distinct ids, each new entry is found under its id |
| Assistant.EmbedChunksComplete | wxt-dev-wxt/utils/openai.ts:167-192 | when no chunk call fails, `embedChunks` stores one vector per chunk, in chunk order, each under its own chunk id when the chunks are numbered from zero |
| Assistant.ChunkIdsUnique | wxt-dev-wxt/utils/openai.ts:152 | the chunk ids `0, 1, ...` of one paper are distinct |
| Assistant.EmbedChunksUnconfigured | wxt-dev-wxt/utils/openai.ts:137-138 | without a client, non-empty input rejects with the not-initialised error and stores no chunk |
| Assistant.RagPromptLayout | wxt-dev-wxt/utils/openai.ts:282-298 | `Assistant.RagPrompt`: the k-th retrieved chunk appears, as `[Section k+1 - Page p]` plus its text, at a computable offset of the RAG prompt |
| Assistant.RagPromptEnds | wxt-dev-wxt/utils/openai.ts:282-298 | the RAG prompt starts with the paper header and ends with the answering instructions |
| Assistant.Keywords | wxt-dev-wxt/utils/openai.ts:341 | a missing reply gives no keywords; a reply gives one keyword per comma-separated piece |
| Assistant.KeywordsTrimmed | wxt-dev-wxt/utils/openai.ts:341 | each keyword is its piece trimmed: no comma, no blank ends |
| Assistant.KeywordsJoin | wxt-dev-wxt/utils/openai.ts:341 | when the pieces are already trimmed, joining the keywords with commas restores the reply |
| Assistant.BuildRagContext | wxt-dev-wxt/utils/openai.ts:282-298 | the loop builds exactly the RAG prompt |
| Assistant.ArxivAssistant.constructor | wxt-dev-wxt/utils/openai.ts:92-100 | the client is configured exactly when the key is truthy, and the store starts empty |
| Assistant.ArxivAssistant.EmbedPaper | wxt-dev-wxt/utils/openai.ts:107-135 | no client: the not-initialised error; missing authors: the `join` error; otherwise the answer to the embedding request for title, authors and abstract: a vector, stored under the paper id, or the request's error, with nothing stored |
| Assistant.ArxivAssistant.EmbedChunk | wxt-dev-wxt/utils/openai.ts:137-165 | no client: error; otherwise the answer to the chunk's embedding request; a vector is stored under the chunk id, an error stores nothing; paper vectors are untouched |
| Assistant.ArxivAssistant.EmbedBatch | wxt-dev-wxt/utils/openai.ts:174-182 | every call of the batch runs: the result is `Assistant.BatchOutcome` (all vectors in order, or the first failing chunk's error) and the store gains exactly the chunks whose call succeeded |
| Assistant.ArxivAssistant.EmbedChunks | wxt-dev-wxt/utils/openai.ts:167-192 | the result and the stored chunks are those of `Assistant.EmbedChunksOutcome`: batch after batch until one rejects, whose error is the result; paper vectors are untouched |
| Assistant.ArxivAssistant.RetrieveRelevantChunks | wxt-dev-wxt/utils/openai.ts:194-212 | no client: error; a rejected query embedding: that error; otherwise the top-k chunks of the paper for the query's embedding |
| Assistant.ArxivAssistant.EmbedText | wxt-dev-wxt/utils/openai.ts:214-223 | no client: error; otherwise the answer to the embedding request, vector or error |
| Assistant.ArxivAssistant.SearchSimilarPapers | wxt-dev-wxt/utils/openai.ts:225-240 | no client: error; a rejected query embedding: that error; otherwise one hit per top-k paper, carrying its id, similarity and metadata |
| Assistant.ArxivAssistant.Chat | wxt-dev-wxt/utils/openai.ts:242-270 | no client: error; otherwise the answer (reply or error) to the system prompt, with the paper context when given, followed by the messages |
| Assistant.ArxivAssistant.ChatWithRag | wxt-dev-wxt/utils/openai.ts:272-318 | no client: error; no messages: the `content` of undefined error; a rejected query embedding: that error; otherwise the answer to the RAG prompt built from the top 3 chunks for the last message |
| Assistant.ArxivAssistant.SummarizePaper | wxt-dev-wxt/utils/openai.ts:320-330 | missing authors fail before the client check; otherwise the answer to `Assistant.SummaryPrompt`, which carries title, authors and abstract |
| Assistant.ArxivAssistant.ExtractKeywords | wxt-dev-wxt/utils/openai.ts:332-342 | no client: error; otherwise the reply split at commas and trimmed |
| Background.WithEmbedding | wxt-dev-wxt/entrypoints/background.ts:439-446 | storing an embedding sets that paper's vector, leaves every other paper's vector as it was, and changes no paper, text or chunk marker |
| Background.WithText | wxt-dev-wxt/entrypoints/background.ts:147-153 | saving a text stores it under the paper id and changes nothing else |
| Background.Extracted | wxt-dev-wxt/entrypoints/background.ts:147-169 | a completed extraction records the text and a chunk marker whose count is the number of chunks of that text; other ids keep their texts and markers |
| Background.PdfOutcome | wxt-dev-wxt/entrypoints/background.ts:143-169 | the PDF handling (extract, save the text, embed the chunks, save the marker) never changes papers, embeddings, the key or anything under another id; when it fails, at extraction or at a rejected chunk embedding, no marker is saved; when it succeeds the content is that of `extractContent` and the marker holds its chunk count |
| Background.PdfStep | wxt-dev-wxt/entrypoints/background.ts:338-377 | the PDF step of `savePaper` never changes papers, embeddings or the key, nor anything stored under another id |
| Background.SavePaperStorage | wxt-dev-wxt/entrypoints/background.ts:309-384 | `savePaper` stores the merged record and keeps the key; with an assistant, authors and a successful embedding request the paper's vector is the one returned; in every other case embeddings, texts and markers are unchanged |
| Background.ExtractPdfOutcome | wxt-dev-wxt/entrypoints/background.ts:111-181 | `EXTRACT_PDF` changes no paper, embedding or key and no other paper's text; markers change only with an extracted reply, whose count the new marker holds; an error reply is never empty; an unknown paper, no assistant or an existing marker change nothing |
| Background.GenerateStep | wxt-dev-wxt/entrypoints/background.ts:465-511 | one backfill step keeps papers and key; the paper has an embedding afterwards exactly when it had one or it has authors and its request succeeds; other ids keep vectors, texts and markers; the text is saved when it was missing, the URL is truthy and extraction succeeds, and otherwise texts and markers are unchanged |
| Background.GenerateAll | wxt-dev-wxt/entrypoints/background.ts:448-514 | the backfill keeps papers and key |
| Background.PapersOf | wxt-dev-wxt/entrypoints/background.ts:544-547 | the hit list is never longer than the ranking |
| Background.ExtractPdfIdempotent | wxt-dev-wxt/entrypoints/background.ts:130-141 | a successful extraction stores a marker with the reported chunk count, and asking again answers "already extracted" with that count and no change |
| Background.ExtractPdfEmbeddingFails | wxt-dev-wxt/entrypoints/background.ts:147-180 | when the content is extracted but the chunk embedding rejects, `EXTRACT_PDF` saves the text, saves no marker and replies with the request's error (or the default message when it is empty) |
| Background.PdfStepCases | wxt-dev-wxt/entrypoints/background.ts:343-376 | the PDF step case by case: nothing when a text is stored or the URL is falsy, or when extraction fails; otherwise the text is saved, and the marker (with count, time, source and full-PDF flag) only when the chunk embedding succeeds |
| Background.SavePaperKeepsText | wxt-dev-wxt/entrypoints/background.ts:338-343 | re-saving a paper whose text is stored keeps all texts and markers |
| Background.SavePaperWithoutAssistant | wxt-dev-wxt/entrypoints/background.ts:329-338 | without an assistant, `savePaper` only merges the record |
| Background.SavePaperEmbeds | wxt-dev-wxt/entrypoints/background.ts:329-377 | with an assistant, a record with authors whose embedding succeeds gets that vector stored and then goes through the PDF step |
| Background.ExtractedConsistent | wxt-dev-wxt/entrypoints/background.ts:147-169 | recording a non-empty extracted text keeps storage consistent: every marker has a non-empty text whose chunk count it holds, and every text belongs to a saved paper |
| Background.PdfOutcomeConsistent | wxt-dev-wxt/entrypoints/background.ts:143-169 | the PDF handling keeps storage consistent for a saved paper without a marker, in every failure case too |
| Background.PdfStepConsistent | wxt-dev-wxt/entrypoints/background.ts:338-377 | the PDF step of `savePaper` keeps storage consistent |
| Background.SavePaperConsistent | wxt-dev-wxt/entrypoints/background.ts:309-384 | `savePaper` keeps storage consistent |
| Background.ExtractPdfConsistent | wxt-dev-wxt/entrypoints/background.ts:111-181 | `EXTRACT_PDF` keeps storage consistent |
| Background.GenerateStepConsistent | wxt-dev-wxt/entrypoints/background.ts:465-511 | one backfill step keeps storage consistent |
| Background.GenerateAllConsistent | wxt-dev-wxt/entrypoints/background.ts:448-514 | the backfill keeps storage consistent |
| Background.GenerateAllKeeps | wxt-dev-wxt/entrypoints/background.ts:466-475 | a paper that already had an embedding still has one after the backfill |
| Background.GenerateAllEmbeds | wxt-dev-wxt/entrypoints/background.ts:465-476 | after the backfill a paper has an embedding exactly when it had one, or it was visited, has authors and its embedding request succeeded |
| Background.GenerateAllUntouched | wxt-dev-wxt/entrypoints/background.ts:465-511 | a paper the backfill does not visit keeps its text |
| Background.GenerateAllExtracts | wxt-dev-wxt/entrypoints/background.ts:478-510 | the backfill saves the text of every visited paper that had none and has a URL whose content can be extracted |
| Background.GenerateAllSplit | wxt-dev-wxt/entrypoints/background.ts:465-511 | the backfill over a list is the backfill over a prefix followed by the backfill over the rest |
| Background.ChatUsesChunksIffMarker | wxt-dev-wxt/entrypoints/background.ts:251-280 | `Background.ChatMessages`: it fails exactly when the paper has a chunk marker and embedding the message is rejected, with that error; otherwise the messages end with the user's message, and are the RAG prompt (two messages, starting with the paper header) exactly when the paper has a chunk marker |
| Background.ChatOutcomeSpec | wxt-dev-wxt/entrypoints/background.ts:238-289 | `Background.ChatOutcome`: the reply is an answer exactly when an assistant exists and both the message embedding (if needed) and the completion succeed, and then it is the completion's answer; any rejection is an error reply carrying its message |
| Background.PapersOfSaved | wxt-dev-wxt/entrypoints/background.ts:540-547 | every search hit is a saved paper with a truthy id and the score of its ranking entry |
| Background.PapersOfSorted | wxt-dev-wxt/entrypoints/background.ts:540-547 | dropping unknown ids keeps the hits best first |
| Background.SearchOutcomeSpec | wxt-dev-wxt/entrypoints/background.ts:516-552 | `Background.SearchOutcome`: a search returns at most `limit` saved papers, best first, and none when the query embedding is rejected |
| Background.SavePaperVectorsSpec | wxt-dev-wxt/entrypoints/background.ts:329-377 | `Background.SavePaperVectors`: the paper vector is stored under the arXiv id exactly when an assistant exists, the record has authors and the request succeeds, and otherwise the store is unchanged; other paper vectors are kept, and every chunk vector added belongs to the paper |
| Background.PdfChunkEntriesOfPaper | wxt-dev-wxt/entrypoints/background.ts:155-157 | `Background.PdfChunkEntries`: every chunk vector the PDF handling stores carries the paper's id and sits under that paper's chunk id |
| Background.PdfChunkEntriesComplete | wxt-dev-wxt/entrypoints/background.ts:155-166 | when every chunk call succeeds, the PDF handling stores one vector per chunk of the text, in chunk order, under distinct chunk ids `0, 1, ...` |
| Background.ExtractedReplyCases | wxt-dev-wxt/entrypoints/background.ts:111-176 | an `extracted` reply means a saved paper, a key, no marker, content extracted in fast mode and every chunk call succeeding, and its count is that text's chunk count |
| Background.ExtractedStoresEveryChunk | wxt-dev-wxt/entrypoints/background.ts:143-176 | `Background.ExtractPdfVectors`: after an `extracted` reply the store holds exactly as many new chunk vectors as the reply counts, and chunk `j` of the paper is found under its chunk id, so a following `CHAT_WITH_PAPER` searches them |
| Background.GenerateAllKeepsText | wxt-dev-wxt/entrypoints/background.ts:478-510 | the backfill never drops a non-empty text |
| Background.GenerateAllAdds | wxt-dev-wxt/entrypoints/background.ts:465-511 | `Background.GenerateAllVectors`: the backfill adds chunk vectors only for papers that had no text when it began, and changes no paper vector of a paper whose embedding was stored |
| Background.GenerateAllKeepsMarker | wxt-dev-wxt/entrypoints/background.ts:478-510 | the backfill keeps the chunk marker of a paper whose text is stored |
| Background.KeyChangeDropsVectors | wxt-dev-wxt/entrypoints/background.ts:209-222 | after a key change, a paper whose text was stored before keeps its chunk marker but has no chunk vector, so chunk retrieval for it scores nothing; a paper whose embedding was stored before has no paper vector |
| Background.ScoreEmbeddings | wxt-dev-wxt/entrypoints/background.ts:532-537 | the loop scores every stored embedding, in storage order |
| Background.BackgroundScript.constructor | wxt-dev-wxt/entrypoints/background.ts:39-56 | first run: empty library marked initialised; later runs keep the storage; no assistant yet |
| Background.BackgroundScript.InitializeAssistant | wxt-dev-wxt/entrypoints/background.ts:64-72 | an assistant exists afterwards exactly when one existed or a truthy key is stored; an existing one is kept; storage is unchanged |
| Background.BackgroundScript.SaveEmbedding | wxt-dev-wxt/entrypoints/background.ts:439-446 | storage becomes the storage with that embedding set |
| Background.BackgroundScript.ProcessPdf | wxt-dev-wxt/entrypoints/background.ts:143-169 | storage and result are `Background.PdfOutcome` of the old storage, and the store gains the chunk entries of the batches that ran |
| Background.BackgroundScript.SavePaper | wxt-dev-wxt/entrypoints/background.ts:309-384 | storage becomes the `savePaper` storage function of the old storage; an existing assistant is kept, one exists afterwards exactly when it could be created, and its store holds `Background.SavePaperVectors` of the old store: the paper vector, then the chunk vectors of the PDF step |
| Background.BackgroundScript.ExtractPdf | wxt-dev-wxt/entrypoints/background.ts:111-181 | storage and reply are the `EXTRACT_PDF` outcome of the old storage; an existing assistant is kept, one is created only for a saved paper when a key allows it, and its store holds `Background.ExtractPdfVectors` of the old store: the fast-mode chunk vectors added when the extraction runs, and nothing otherwise |
| Background.BackgroundScript.GenerateFor | wxt-dev-wxt/entrypoints/background.ts:465-511 | one backfill step on the storage, and on the assistant's store (`Background.GenerateStepVectors`: the paper vector when none was stored, then the PDF step's chunk vectors); the assistant is kept |
| Background.BackgroundScript.GenerateEmbeddingsForExistingPapers | wxt-dev-wxt/entrypoints/background.ts:448-514 | without an assistant nothing changes; otherwise the storage is the backfill over every saved paper, in some key order, and the store is `Background.GenerateAllVectors` of the old store over the same order; an existing assistant is kept |
| Background.BackgroundScript.SetOpenAiKey | wxt-dev-wxt/entrypoints/background.ts:209-222 | stores the key; an assistant exists afterwards exactly when the key is truthy, and then it is a new one, the storage is the backfill over an order holding exactly the saved papers, and the store holds only what that backfill added to an empty store |
| Background.BackgroundScript.SearchSimilarPapers | wxt-dev-wxt/entrypoints/background.ts:516-552 | returns the search outcome and changes no storage; an existing assistant and the store are kept |
| Background.BackgroundScript.AnswerChat | wxt-dev-wxt/entrypoints/background.ts:251-280 | the answer is `Background.ChatAnswer`: the model's reply to the RAG or fallback messages, or the error of the rejected request |
| Background.BackgroundScript.ChatWithPaper | wxt-dev-wxt/entrypoints/background.ts:238-289 | the reply is the chat outcome of the old state, over the chunk vectors the store held; storage, an existing assistant and the store are kept |
| Background.BackgroundScript.SearchSimilar | wxt-dev-wxt/entrypoints/background.ts:224-231 | `SEARCH_SIMILAR`: the search outcome for a truthy query, no hits otherwise; storage, an existing assistant and the store are kept |
| Background.BackgroundScript.Dispatch | wxt-dev-wxt/entrypoints/background.ts:75-306 | one clause per message type, each giving the reply, the new storage and, for `SAVE_PAPER`, `EXTRACT_PDF` and `SET_OPENAI_KEY`, the new store (for `SET_OPENAI_KEY`, a new assistant and the backfill over an order holding exactly the saved papers), ending with the unknown-type error; every other message keeps the store, and every message but `SET_OPENAI_KEY` keeps an existing assistant |
| Content.LastSegmentStart | wxt-dev-wxt/entrypoints/content.ts:27 | finds the start of the last `/`-free path segment |
| Content.StripVersion | wxt-dev-wxt/entrypoints/content.ts:27 | removing a version suffix leaves a non-empty prefix of the segment |
| Content.ParseArxivId | wxt-dev-wxt/entrypoints/content.ts:27-31 | a parsed id is non-empty and holds no `/` |
| Content.ParseVersioned | wxt-dev-wxt/entrypoints/content.ts:27-31 | `Content.ParseArxivId` and `Content.PaperIdentity`: `/abs/<id>vN` and `/pdf/<id>vN` give `<id>`, and the PDF link `https://arxiv.org/pdf/<id>.pdf` |
| Content.ParseUnversioned | wxt-dev-wxt/entrypoints/content.ts:27-31 | an unversioned id is taken as it is |
| Content.ParseNeedsSegment | wxt-dev-wxt/entrypoints/content.ts:27-31 | a path ending in `/` gives no id and an empty identity |
| Content.DisplayTitleSpec | wxt-dev-wxt/entrypoints/content.ts:114-116 | `Content.DisplayTitle`: a known title is shown; otherwise a non-empty fallback ending in the id |
| Content.SuggestionsSpec | wxt-dev-wxt/entrypoints/content.ts:702-719 | `Content.Suggestions`: at most six suggestions, in default-tag order, each not on the paper and matching the filter; when fewer than six, all such tags |
| Content.CandidatesSpec | wxt-dev-wxt/entrypoints/content.ts:711-714 | the candidates are exactly the default tags not on the paper that match the filter, in order |
| Content.AllTagsInUseIff | wxt-dev-wxt/entrypoints/content.ts:719-731 | the "all tags in use" note appears exactly when no filter is typed and every default tag is on the paper |
| Content.SubstringTagRefused | wxt-dev-wxt/entrypoints/content.ts:638-649 | `Content.AddTagDecision`, as written: a tag that is a substring of a shown label is refused; the exact check accepts it |
| Content.AddTagExact | wxt-dev-wxt/entrypoints/content.ts:638-649 | a tag is added exactly when its trimmed text is non-empty and not already a label, and it is added trimmed; blank input does nothing |
| Content.LoadCollections | wxt-dev-wxt/entrypoints/content.ts:409-445 | "no tags" shows exactly when no paper has a tag; otherwise each tag with its multiplicity |
| Content.AuthorLineSpec | wxt-dev-wxt/entrypoints/content.ts:535 | `Content.AuthorLine`: up to three authors are joined by commas; more give exactly the first three joined by commas and " et al." |
| Content.RenderMarkdown | wxt-dev-wxt/entrypoints/content.ts:1149-1226 | the renderer loop equals the line-by-line rendering of the text split at newlines |
| Content.RenderWithoutFences | wxt-dev-wxt/entrypoints/content.ts:1186-1220 | `Content.Render`: without code fences, each line renders on its own, one piece per line |
| Content.RenderOpenBlock | wxt-dev-wxt/entrypoints/content.ts:1223-1226 | an unclosed code block is flushed as a single code piece |
| Content.RenderClosedBlock | wxt-dev-wxt/entrypoints/content.ts:1166-1184 | inside a block, lines accumulate until the closing fence, which emits one code piece |
| Content.RenderFencedBlock | wxt-dev-wxt/entrypoints/content.ts:1164-1184 | a fenced block renders as one code piece of its body lines, followed by the rest |
| Content.HeadingLevels | wxt-dev-wxt/entrypoints/content.ts:1189-1194 | `### `, `## ` and `# ` become headings of level 5, 4 and 3, and nothing else is a heading |
| Content.ListItems | wxt-dev-wxt/entrypoints/content.ts:1208-1212 | a non-heading line is a list item exactly when it starts with `- `, `* ` or digits, a dot and a space |
| Content.ClearPdfCache | wxt-dev-wxt/entrypoints/content.ts:1824-1831 | the `/clear-pdf-cache` command drops the paper's chunk marker and reports whether there was one |
| Content.ClearedPaperIsExtractedAgain | wxt-dev-wxt/entrypoints/content.ts:1824-1831 | after clearing, the chat falls back to the default system prompt and the abstract-only fallback prompt, `EXTRACT_PDF` extracts again, and storage stays consistent |

## Left out

- PDF.js, `fetch`, and the destruction of the loading task. A download is a
  `FetchOutcome` value: network failure, HTTP error, load failure, or a
  document of pages whose text is either readable or fails.
- `extractFromOpenPDFTab` and `chrome.scripting.executeScript`. They read the
  DOM of another tab.
- The OpenAI SDK is not modelled. Embeddings and completions are functions in
  `Services`. Model names, temperatures and token limits are not modelled.
- Floating point. Vectors are `real`, and the square root is a parameter.
- `Promise.all` and `setTimeout` in the backfill. The model runs the papers
  one after another.
- `browser.storage.local` is the `Storage` value. Runtime messaging is the
  `Message`/`Response` datatypes.
- Notifications, the badge colour and the action-click listener
  (background.ts:59-61). The badge text is kept.
- The DOM of the content script: panels, buttons, styles and event wiring.
  HTML escaping and the inline Markdown rules (bold, italic, code, links) are
  function parameters. The final `<ul>` wrapping and the code-block language
  tag are not modelled.
- Time is a single `now` string per call.
- `initializeVectorStore` is a no-op in the source and has no model.
- Console logging is not modelled.
- The outer `Unknown error` catch of the message handler is not modelled.
- The loadCollections branch for an invalid response is not modelled.
- String lengths count characters, not UTF-16 code units.
- `Background.BackgroundScript.GenerateEmbeddingsForExistingPapers` and
  `Background.BackgroundScript.SetOpenAiKey` visit papers in a ghost order.
  The order of `Object.entries` is not modelled.
- `Background.GenerateStep` always treats a stored embedding as an array.
  The `Array.isArray` check for malformed stored values is not modelled.
- `PdfExtractor.ExtractContent`, `Background.PdfOutcome`, `Background.PdfStep`,
  `Background.SavePaperStorage`, `Background.ExtractPdfOutcome`,
  `Background.GenerateStep`, `Background.GenerateAll`,
  `Background.BackgroundScript.ProcessPdf`, `Background.BackgroundScript.SavePaper`,
  `Background.BackgroundScript.ExtractPdf` and `Background.BackgroundScript.GenerateFor`
  use the corrected blank check `PdfExtractor.ExtractTextIntended` (see
  Findings), not the written one. `PdfExtractor.ExtractTextFromPdf` and
  `PdfExtractor.ExtractContentAsWritten` keep the written check, and
  `PdfExtractor.ExtractContentAgrees` shows the two differ only for a loaded
  PDF whose pages gave no text.
- `GET_TAGS_WITH_COUNTS` in `Background.BackgroundScript.Dispatch` uses the
  corrected `Papers.CountTags`.
- `Assistant.ArxivAssistant.EmbedBatch` stores the chunks of a batch in chunk
  order. With `Promise.all` (openai.ts:178-180) they are stored in the order
  the responses arrive, and that order decides ties between chunks of equal
  similarity. Likewise the batch rejects with the first failing chunk in
  chunk order, where `Promise.all` takes the first to fail in time. Calls
  still pending at the rejection are modelled as storing their chunk before
  it. The 100 ms pause between batches is not modelled.
- `Text.ToLower` folds only the ASCII letters A to Z. JavaScript's
  `toLowerCase` also folds other Unicode letters.
- `Background.GenerateAll` reads the stored embeddings and texts afresh for
  each paper. The source reads them once before the loop
  (background.ts:455-460). Each paper is visited once and a step only writes
  under its own id, so the two agree.
- `Assistant.SummaryPrompt` has no lemma of its own. Its line layout is not
  proved because its constant lines are long literals;
  `Assistant.ArxivAssistant.SummarizePaper` states which prompt is sent.
- `Background.GenerateAllAdds` and `Background.KeyChangeDropsVectors` assume
  that every paper is saved under its own arXiv id (`Background.KeyedById`),
  as `savePaper` saves it. The model does not prove that every handler keeps
  this.
- `Chunker.PageWindowsShape`: the last window of a page is contained in the
  one before it when the page length mod 800 is between 1 and 200. The
  source does this too, and the model keeps it.

## Findings

| source | as written | input that shows it | evidently intended | confidence | as-written member | corrected member |
|---|---|---|---|---|---|---|
| wxt-dev-wxt/entrypoints/background.ts:554-567 | tags are counted on a plain object `{}`, so `counts[tag] = (counts[tag] \|\| 0) + 1` reads inherited members | a paper tagged `constructor` gets the count `"function Object() { [native code] }1"`; a tag `__proto__` vanishes | each tag counted from 0, as `content.ts` does with a `Map` | not executed | Papers.RecordCountsConstructorTag | Papers.CountTags |
| wxt-dev-wxt/utils/pdf-extractor.ts:98-101 | the "image-based PDF" check trims the whole text, which already holds `[Page n]` markers | `PdfDocument([Some([])])`: one page, readable, no text items, so the text is `"\n[Page 1]\n"` and it is accepted | reject when no page yields any text | not executed | PdfExtractor.ImageOnlyPagesAccepted | PdfExtractor.ExtractTextIntendedSpec |
| wxt-dev-wxt/entrypoints/content.ts:638-649 | the duplicate check tests whether some shown label *includes* the new tag | adding `Learning` while `Deep Learning` is shown clears the input and adds nothing | refuse only an exact duplicate | not executed | Content.SubstringTagRefused | Content.AddTagExact |
