/** The background script: the extension's local storage, the lazily created
    assistant and the message handler that answers the content script and
    the popup. Storage transitions are pure functions over a `Storage`
    value; the `Background` object holds the current storage and the
    assistant, and its methods are proved to follow those functions. */
module Background {
  import opened Wrappers
  import opened Text
  import opened Papers
  import opened PdfExtractor
  import opened Chunker
  import opened Similarity
  import opened Ranking
  import opened VectorStore
  import opened Assistant

  /** The record kept per paper under `chunk_embeddings` once its text has
      been chunked and embedded. */
  datatype ChunkMarker = ChunkMarker(chunkCount: nat, extractedAt: string, source: Source, hasFullPDF: bool)

  /** `browser.storage.local`, key by key. The `paper_embeddings` object is
      a sequence of entries in property order (a new key goes last, an
      existing key is overwritten in place). */
  datatype Storage = Storage(
    initialized: bool,
    papers: map<string, Paper>,
    apiKey: Option<string>,
    embeddings: seq<Entry<()>>,
    chunkMarkers: map<string, ChunkMarker>,
    pdfTexts: map<string, string>,
    currentPaper: Option<Paper>)

  /** What the outside world answers during one message: the remote model
      calls, the PDF download for a URL and the clock. */
  datatype Env = Env(services: Services, fetchPdf: Option<string> -> FetchOutcome, now: string)

  /** A search hit: the stored paper spread with its score. */
  datatype SimilarPaper = SimilarPaper(paper: Paper, similarity: real)

  /** The messages the handler understands, by their `type`. */
  datatype Message =
    | OpenAssistant(paperInfo: Paper)
    | SaveRequest(paper: Paper)
    | ExtractRequest(paperId: string)
    | GetPapers
    | AddTagRequest(paperId: string, tag: string)
    | RemoveTagRequest(paperId: string, tag: string)
    | GetApiKey
    | SetApiKey(apiKey: Option<string>)
    | SearchSimilar(query: Option<string>)
    | GetTagCounts
    | ChatRequest(message: string, paper: Paper)
    | UnknownType(typeName: string)

  /** The payload passed to `sendResponse`. */
  datatype Response =
    | Success
    | ErrorReply(error: string)
    | TagResult(reply: TagReply)
    | PapersReply(papers: map<string, Paper>)
    | ApiKeyReply(apiKey: Option<string>)
    | SimilarPapersReply(results: seq<SimilarPaper>)
    | TagCountsReply(counts: map<string, nat>)
    | AlreadyExtracted(chunkCount: nat)
    | ExtractedReply(chunkCount: nat, source: Source, hasFullPDF: bool)
    | ChatReply(response: Option<string>)

  const PaperNotFound := "Paper not found"
  const NotConfigured := "OpenAI not configured"
  const NotConfiguredChat := "OpenAI not configured. Please set your API key."
  const ExtractFailed := "Failed to extract PDF"
  const UnknownMessageType := "Unknown message type"

  /** `searchSimilarPapers`' default limit. */
  const SearchLimit: nat := 5

  /** The chunks retrieved for a RAG answer. */
  const RagTopK: nat := 3

  /** The indentation of the template literal that builds the chat prompt
      without chunks. */
  const Indent := "                  "

  // ---------------------------------------------------------------------
  // Storage transitions
  // ---------------------------------------------------------------------

  function LookupPaper(papers: map<string, Paper>, id: string): Option<Paper> {
    if id in papers then Some(papers[id]) else None
  }

  /** The number of chunks `createChunks` makes of a full text. */
  function ChunkCount(fullText: string): nat {
    |ChunkPages(ParsePages(fullText), 0)|
  }

  /** `!pdfTexts[id]`: no text, or an empty one, is stored for the paper. */
  predicate NeedsText(st: Storage, id: string) {
    id !in st.pdfTexts || st.pdfTexts[id] == ""
  }

  /** `saveEmbedding`: the paper's vector is stored under its id and
      every other id keeps what it had. */
  function WithEmbedding(st: Storage, id: string, vector: seq<real>): (r: Storage)
    ensures r.papers == st.papers && r.pdfTexts == st.pdfTexts && r.chunkMarkers == st.chunkMarkers
    ensures r.apiKey == st.apiKey
    ensures Lookup(r.embeddings, id) == Some(Entry(id, vector, ()))
    ensures forall other | other != id :: Lookup(r.embeddings, other) == Lookup(st.embeddings, other)
  {
    UpsertLookupAll(st.embeddings, Entry(id, vector, ()));
    st.(embeddings := Upsert(st.embeddings, Entry(id, vector, ())))
  }

  lemma UpsertLookupAll<M>(es: seq<Entry<M>>, e: Entry<M>)
    ensures Lookup(Upsert(es, e), e.id) == Some(e)
    ensures forall other | other != e.id :: Lookup(Upsert(es, e), other) == Lookup(es, other)
  {
    UpsertLookup(es, e, e.id);
    forall other | other != e.id
      ensures Lookup(Upsert(es, e), other) == Lookup(es, other)
    {
      UpsertLookup(es, e, other);
    }
  }

  /** The full text saved under `pdf_texts`. */
  function WithText(st: Storage, id: string, text: string): (r: Storage)
    ensures r.papers == st.papers && r.embeddings == st.embeddings && r.apiKey == st.apiKey
    ensures r.chunkMarkers == st.chunkMarkers
    ensures id in r.pdfTexts && r.pdfTexts[id] == text && r.pdfTexts - {id} == st.pdfTexts - {id}
  {
    st.(pdfTexts := st.pdfTexts[id := text])
  }

  /** The full text saved under `pdf_texts` and the chunk marker saved under
      `chunk_embeddings` once a paper's content has been extracted. */
  function Extracted(st: Storage, id: string, content: PaperContent, now: string): (r: Storage)
    ensures r.papers == st.papers && r.embeddings == st.embeddings && r.apiKey == st.apiKey
    ensures id in r.pdfTexts && r.pdfTexts[id] == content.fullText && r.pdfTexts - {id} == st.pdfTexts - {id}
    ensures id in r.chunkMarkers && r.chunkMarkers[id].chunkCount == ChunkCount(content.fullText)
    ensures r.chunkMarkers - {id} == st.chunkMarkers - {id}
  {
    st.(pdfTexts := st.pdfTexts[id := content.fullText],
        chunkMarkers := st.chunkMarkers[id := ChunkMarker(ChunkCount(content.fullText), now, content.source, content.hasFullPDF)])
  }

  /** The PDF handling shared by `EXTRACT_PDF`, `savePaper` and the
      key-change pass: extract the content, save its text, chunk and embed
      it, then save the marker. A failed extraction changes nothing; a
      rejected chunk embedding leaves the text saved without a marker. */
  function PdfOutcome(st: Storage, id: string, paper: Paper, fastMode: bool, env: Env)
    : (r: (Storage, Result<PaperContent, string>))
    ensures r.0.papers == st.papers && r.0.embeddings == st.embeddings && r.0.apiKey == st.apiKey
    ensures r.0.pdfTexts - {id} == st.pdfTexts - {id} && r.0.chunkMarkers - {id} == st.chunkMarkers - {id}
    ensures r.1.Err? ==> r.0.chunkMarkers == st.chunkMarkers
    ensures r.1.Ok? ==>
      && r.1 == ExtractContent(env.fetchPdf(paper.pdfUrl), Some(paper), fastMode)
      && id in r.0.chunkMarkers && r.0.chunkMarkers[id].chunkCount == ChunkCount(r.1.value.fullText)
  {
    match ExtractContent(env.fetchPdf(paper.pdfUrl), Some(paper), fastMode)
    case Err(e) => (st, Err(e))
    case Ok(c) =>
      match EmbedChunksOutcome(ChunkPages(ParsePages(c.fullText), 0), paper, env.services, true).1
      case Err(e) => (WithText(st, id, c.fullText), Err(e))
      case Ok(_) => (Extracted(st, id, c, env.now), Ok(c))
  }

  /** The chunk vectors that the PDF handling stores. */
  function PdfChunkEntries(paper: Paper, fastMode: bool, env: Env): seq<Entry<ChunkMeta>> {
    match ExtractContent(env.fetchPdf(paper.pdfUrl), Some(paper), fastMode)
    case Err(_) => []
    case Ok(c) => EmbedChunksOutcome(ChunkPages(ParsePages(c.fullText), 0), paper, env.services, true).0
  }

  /** The PDF step of `savePaper` and of the key-change pass: when no text
      is stored yet and the paper has a URL, run the PDF handling without
      the page cap; its failure is swallowed. */
  function PdfStep(st: Storage, id: string, paper: Paper, env: Env): (r: Storage)
    ensures r.papers == st.papers && r.embeddings == st.embeddings && r.apiKey == st.apiKey
    ensures r.pdfTexts - {id} == st.pdfTexts - {id} && r.chunkMarkers - {id} == st.chunkMarkers - {id}
  {
    if NeedsText(st, id) && Truthy(paper.pdfUrl) then PdfOutcome(st, id, paper, false, env).0 else st
  }

  /** `savePaper`: store the merged record; then, with an assistant, embed
      the incoming record and store its vector, and run the PDF step for
      it. A record without authors, or a rejected embedding request, stops
      after the merge. */
  function SavePaperStorage(st: Storage, canAssist: bool, paper: Paper, env: Env): (r: Storage)
    ensures r.papers == st.papers[paper.arxivId := Merge(LookupPaper(st.papers, paper.arxivId), paper, env.now)]
    ensures r.apiKey == st.apiKey
    ensures canAssist && paper.authors.Some? && env.services.embed(PaperText(paper, paper.authors.value)).Ok? ==>
      Lookup(r.embeddings, paper.arxivId)
        == Some(Entry(paper.arxivId, env.services.embed(PaperText(paper, paper.authors.value)).value, ()))
    ensures !(canAssist && paper.authors.Some? && env.services.embed(PaperText(paper, paper.authors.value)).Ok?) ==>
      r.embeddings == st.embeddings && r.pdfTexts == st.pdfTexts && r.chunkMarkers == st.chunkMarkers
  {
    var saved := st.(papers := st.papers[paper.arxivId := Merge(LookupPaper(st.papers, paper.arxivId), paper, env.now)]);
    if !canAssist || paper.authors.None? then saved
    else
      match env.services.embed(PaperText(paper, paper.authors.value))
      case Err(_) => saved
      case Ok(v) => PdfStep(WithEmbedding(saved, paper.arxivId, v), paper.arxivId, paper, env)
  }

  /** The `EXTRACT_PDF` case: its reply and the storage after it. The PDF
      handling runs in fast mode, even when a text is already stored; a
      failure is reported with its message, or a default one when that is
      empty. */
  function ExtractPdfOutcome(st: Storage, canAssist: bool, paperId: string, env: Env): (r: (Storage, Response))
    ensures r.0.papers == st.papers && r.0.embeddings == st.embeddings && r.0.apiKey == st.apiKey
    ensures r.0.pdfTexts - {paperId} == st.pdfTexts - {paperId}
    ensures !r.1.ExtractedReply? ==> r.0.chunkMarkers == st.chunkMarkers
    ensures r.1.ExtractedReply? ==>
      paperId in r.0.chunkMarkers && r.0.chunkMarkers[paperId].chunkCount == r.1.chunkCount
    ensures r.1.ErrorReply? ==> r.1.error != ""
    ensures r.1.AlreadyExtracted? || paperId !in st.papers || !canAssist ==> r.0 == st
  {
    if paperId !in st.papers then (st, ErrorReply(PaperNotFound))
    else if !canAssist then (st, ErrorReply(NotConfigured))
    else if paperId in st.chunkMarkers then (st, AlreadyExtracted(st.chunkMarkers[paperId].chunkCount))
    else
      var (st1, r) := PdfOutcome(st, paperId, st.papers[paperId], true, env);
      match r
      case Err(e) => (st1, ErrorReply(if e == "" then ExtractFailed else e))
      case Ok(c) => (st1, ExtractedReply(ChunkCount(c.fullText), c.source, c.hasFullPDF))
  }

  /** One paper of `generateEmbeddingsForExistingPapers`: embed the stored
      record when no embedding is stored (a record without authors, or a
      rejected request, is skipped), then run the PDF step for it. Nothing
      stored under another id changes. */
  function GenerateStep(st: Storage, id: string, env: Env): (r: Storage)
    requires id in st.papers
    ensures r.papers == st.papers && r.apiKey == st.apiKey
    ensures var p := st.papers[id];
      Lookup(r.embeddings, id).Some? <==>
        Lookup(st.embeddings, id).Some? || (p.authors.Some? && env.services.embed(PaperText(p, p.authors.value)).Ok?)
    ensures forall other | other != id :: Lookup(r.embeddings, other) == Lookup(st.embeddings, other)
    ensures r.pdfTexts - {id} == st.pdfTexts - {id} && r.chunkMarkers - {id} == st.chunkMarkers - {id}
    ensures var p := st.papers[id];
      var c := ExtractContent(env.fetchPdf(p.pdfUrl), Some(p), false);
      NeedsText(st, id) && Truthy(p.pdfUrl) && c.Ok? ==> id in r.pdfTexts && r.pdfTexts[id] == c.value.fullText
    ensures var p := st.papers[id];
      !(NeedsText(st, id) && Truthy(p.pdfUrl) && ExtractContent(env.fetchPdf(p.pdfUrl), Some(p), false).Ok?) ==>
        r.pdfTexts == st.pdfTexts && r.chunkMarkers == st.chunkMarkers
  {
    var p := st.papers[id];
    var embedded :=
      if Lookup(st.embeddings, id).None? && p.authors.Some? && env.services.embed(PaperText(p, p.authors.value)).Ok? then
        WithEmbedding(st, id, env.services.embed(PaperText(p, p.authors.value)).value)
      else st;
    PdfStepCases(embedded, id, p, env);
    PdfStep(embedded, id, p, env)
  }

  /** The pass over the papers in the order `ids`. */
  function GenerateAll(st: Storage, ids: seq<string>, env: Env): (r: Storage)
    requires forall k | 0 <= k < |ids| :: ids[k] in st.papers
    ensures r.papers == st.papers && r.apiKey == st.apiKey
  {
    if ids == [] then st
    else GenerateStep(GenerateAll(st, ids[..|ids| - 1], env), ids[|ids| - 1], env)
  }

  /** The chat prompt used when a paper has no chunks: title, id and
      abstract inside an indented template. */
  function FallbackChatPrompt(p: Paper): string {
    ("You are an AI assistant " + "helping researchers " + "understand arXiv papers. " + "\n")
      + Indent + ("You have access to the " + "following paper:\n")
      + Indent + "Title: " + p.title + "\n"
      + Indent + "arXiv ID: " + p.arxivId + "\n"
      + Indent + "Abstract: " + p.abstractText + "\n"
      + Indent + "\n"
      + Indent + ("Please provide helpful, " + "accurate, and concise " + "responses about this " + "paper. \n")
      + Indent + ("You can explain concepts, " + "summarize sections, " + "clarify methodology, " + "or answer any questions " + "about the research.")
  }

  /** The messages sent to the model for `CHAT_WITH_PAPER`: the RAG prompt
      over the three best chunks when the paper has a chunk marker (which
      first embeds the user's message and fails with that request), else
      the default system prompt and the fallback prompt. */
  function ChatMessages(st: Storage, chunkItems: seq<Entry<ChunkMeta>>, userMessage: string, paper: Paper, s: Services)
    : Result<seq<ChatMessage>, string>
  {
    if paper.arxivId in st.chunkMarkers then
      match s.embed(userMessage)
      case Err(e) => Err(e)
      case Ok(q) =>
        Ok([ChatMessage(System, RagPrompt(paper, Top(ScoreMatching(chunkItems, paper.arxivId, q, s.sqrt), RagTopK))),
            ChatMessage(User, userMessage)])
    else
      Ok([ChatMessage(System, ChatSystemPrompt(None)), ChatMessage(System, FallbackChatPrompt(paper)),
          ChatMessage(User, userMessage)])
  }

  /** The model's answer once the assistant exists, or the message of the
      request that rejected. */
  function ChatAnswer(st: Storage, chunkItems: seq<Entry<ChunkMeta>>, userMessage: string, paper: Paper, s: Services)
    : Result<Option<string>, string>
  {
    match ChatMessages(st, chunkItems, userMessage, paper, s)
    case Err(e) => Err(e)
    case Ok(ms) => s.complete(ms)
  }

  /** The `CHAT_WITH_PAPER` reply: the answer, or the error's message. */
  function ChatOutcome(st: Storage, canAssist: bool, chunkItems: seq<Entry<ChunkMeta>>, userMessage: string, paper: Paper, s: Services)
    : Response
  {
    if !canAssist then ErrorReply(NotConfiguredChat)
    else
      match ChatAnswer(st, chunkItems, userMessage, paper, s)
      case Ok(reply) => ChatReply(reply)
      case Err(e) => ErrorReply(e)
  }

  /** The `{...papers[id], similarity}` records of the ranked ids, without
      those whose spread has no truthy `arxivId`. */
  function PapersOf(papers: map<string, Paper>, ranked: seq<Scored<()>>): (r: seq<SimilarPaper>)
    ensures |r| <= |ranked|
  {
    if ranked == [] then []
    else
      var rest := PapersOf(papers, ranked[1..]);
      var id := ranked[0].id;
      if id in papers && papers[id].arxivId != "" then [SimilarPaper(papers[id], ranked[0].similarity)] + rest else rest
  }

  /** `searchSimilarPapers(query, limit)` over the stored embeddings; a
      rejected query embedding gives no results. */
  function SearchOutcome(st: Storage, canAssist: bool, query: string, limit: nat, s: Services): seq<SimilarPaper> {
    if !canAssist then []
    else
      match s.embed(query)
      case Err(_) => []
      case Ok(q) => PapersOf(st.papers, Top(ScoreAll(st.embeddings, q, s.sqrt), limit))
  }

  /** The stored texts and markers agree: every marker belongs to a stored,
      non-empty text whose chunk count it records, and every stored text
      belongs to a saved paper. */
  predicate Consistent(st: Storage) {
    && (forall id | id in st.chunkMarkers ::
          id in st.pdfTexts && st.pdfTexts[id] != "" && st.chunkMarkers[id].chunkCount == ChunkCount(st.pdfTexts[id]))
    && (forall id | id in st.pdfTexts :: id in st.papers)
  }

  // ---------------------------------------------------------------------
  // Properties of the transitions
  // ---------------------------------------------------------------------

  /** A successful `EXTRACT_PDF` reports the chunk count it stored, and
      asking again for the same paper answers `alreadyExtracted` with that
      count and changes nothing. */
  lemma ExtractPdfIdempotent(st: Storage, paperId: string, env: Env, env2: Env)
    requires ExtractPdfOutcome(st, true, paperId, env).1.ExtractedReply?
    ensures var (st1, reply) := ExtractPdfOutcome(st, true, paperId, env);
      && paperId in st1.chunkMarkers && st1.chunkMarkers[paperId].chunkCount == reply.chunkCount
      && ExtractPdfOutcome(st1, true, paperId, env2) == (st1, AlreadyExtracted(reply.chunkCount))
  {
  }

  /** When `EXTRACT_PDF` gets the content but the chunk embedding rejects,
      the text is saved, no marker is, and the reply carries the request's
      message; asking again extracts again. */
  lemma ExtractPdfEmbeddingFails(st: Storage, paperId: string, env: Env)
    requires paperId in st.papers && paperId !in st.chunkMarkers
    requires var paper := st.papers[paperId];
      var c := ExtractContent(env.fetchPdf(paper.pdfUrl), Some(paper), true);
      c.Ok? && EmbedChunksOutcome(ChunkPages(ParsePages(c.value.fullText), 0), paper, env.services, true).1.Err?
    ensures var paper := st.papers[paperId];
      var c := ExtractContent(env.fetchPdf(paper.pdfUrl), Some(paper), true).value;
      var e := EmbedChunksOutcome(ChunkPages(ParsePages(c.fullText), 0), paper, env.services, true).1.error;
      var (st1, reply) := ExtractPdfOutcome(st, true, paperId, env);
      && st1 == WithText(st, paperId, c.fullText)
      && reply == ErrorReply(if e == "" then ExtractFailed else e)
      && paperId !in st1.chunkMarkers
  {
  }

  /** The PDF step, case by case: a paper with a text or without a URL is
      left alone; a failed extraction changes nothing; a rejected chunk
      embedding saves the text without a marker; otherwise the text and a
      marker with the chunk count are saved. */
  lemma PdfStepCases(st: Storage, id: string, paper: Paper, env: Env)
    ensures !(NeedsText(st, id) && Truthy(paper.pdfUrl)) ==> PdfStep(st, id, paper, env) == st
    ensures var c := ExtractContent(env.fetchPdf(paper.pdfUrl), Some(paper), false);
      NeedsText(st, id) && Truthy(paper.pdfUrl) && c.Err? ==> PdfStep(st, id, paper, env) == st
    ensures var c := ExtractContent(env.fetchPdf(paper.pdfUrl), Some(paper), false);
      var r := PdfStep(st, id, paper, env);
      NeedsText(st, id) && Truthy(paper.pdfUrl) && c.Ok? ==>
        && id in r.pdfTexts && r.pdfTexts[id] == c.value.fullText
        && (EmbedChunksOutcome(ChunkPages(ParsePages(c.value.fullText), 0), paper, env.services, true).1.Err? ==>
              r.chunkMarkers == st.chunkMarkers)
        && (EmbedChunksOutcome(ChunkPages(ParsePages(c.value.fullText), 0), paper, env.services, true).1.Ok? ==>
              id in r.chunkMarkers
              && r.chunkMarkers[id] == ChunkMarker(ChunkCount(c.value.fullText), env.now, c.value.source, c.value.hasFullPDF))
  {
  }

  /** `savePaper` never re-extracts a paper whose text is already stored:
      texts and markers stay as they were. */
  lemma SavePaperKeepsText(st: Storage, canAssist: bool, paper: Paper, env: Env)
    requires !NeedsText(st, paper.arxivId)
    ensures SavePaperStorage(st, canAssist, paper, env).pdfTexts == st.pdfTexts
    ensures SavePaperStorage(st, canAssist, paper, env).chunkMarkers == st.chunkMarkers
  {
  }

  /** Without an assistant `savePaper` only stores the merged record. */
  lemma SavePaperWithoutAssistant(st: Storage, paper: Paper, env: Env)
    ensures SavePaperStorage(st, false, paper, env)
      == st.(papers := st.papers[paper.arxivId := Merge(LookupPaper(st.papers, paper.arxivId), paper, env.now)])
  {
  }

  /** With an assistant, a record with authors whose embedding succeeds
      gets its vector stored, and then goes through the PDF step. */
  lemma SavePaperEmbeds(st: Storage, paper: Paper, env: Env)
    requires paper.authors.Some? && env.services.embed(PaperText(paper, paper.authors.value)).Ok?
    ensures var v := env.services.embed(PaperText(paper, paper.authors.value)).value;
      var saved := st.(papers := st.papers[paper.arxivId := Merge(LookupPaper(st.papers, paper.arxivId), paper, env.now)]);
      && Lookup(SavePaperStorage(st, true, paper, env).embeddings, paper.arxivId) == Some(Entry(paper.arxivId, v, ()))
      && SavePaperStorage(st, true, paper, env) == PdfStep(WithEmbedding(saved, paper.arxivId, v), paper.arxivId, paper, env)
  {
  }

  lemma ExtractedConsistent(st: Storage, id: string, content: PaperContent, now: string)
    requires Consistent(st) && id in st.papers && content.fullText != ""
    ensures Consistent(Extracted(st, id, content, now))
  {
  }

  /** The PDF handling keeps texts and markers consistent for a paper
      without a marker. */
  lemma PdfOutcomeConsistent(st: Storage, id: string, paper: Paper, fastMode: bool, env: Env)
    requires Consistent(st) && id in st.papers && id !in st.chunkMarkers
    ensures Consistent(PdfOutcome(st, id, paper, fastMode, env).0)
  {
    var c := ExtractContent(env.fetchPdf(paper.pdfUrl), Some(paper), fastMode);
    if c.Ok? {
      ExtractContentNonEmpty(env.fetchPdf(paper.pdfUrl), Some(paper), fastMode);
      ExtractedConsistent(st, id, c.value, env.now);
    }
  }

  lemma PdfStepConsistent(st: Storage, id: string, paper: Paper, env: Env)
    requires Consistent(st) && id in st.papers
    ensures Consistent(PdfStep(st, id, paper, env))
  {
    if NeedsText(st, id) && Truthy(paper.pdfUrl) {
      PdfOutcomeConsistent(st, id, paper, false, env);
    }
  }

  /** Every handler that writes texts and markers keeps them consistent. */
  lemma SavePaperConsistent(st: Storage, canAssist: bool, paper: Paper, env: Env)
    requires Consistent(st)
    ensures Consistent(SavePaperStorage(st, canAssist, paper, env))
  {
    var saved := st.(papers := st.papers[paper.arxivId := Merge(LookupPaper(st.papers, paper.arxivId), paper, env.now)]);
    if canAssist && paper.authors.Some? && env.services.embed(PaperText(paper, paper.authors.value)).Ok? {
      var v := env.services.embed(PaperText(paper, paper.authors.value)).value;
      PdfStepConsistent(WithEmbedding(saved, paper.arxivId, v), paper.arxivId, paper, env);
    }
  }

  lemma ExtractPdfConsistent(st: Storage, canAssist: bool, paperId: string, env: Env)
    requires Consistent(st)
    ensures Consistent(ExtractPdfOutcome(st, canAssist, paperId, env).0)
  {
    if paperId in st.papers && canAssist && paperId !in st.chunkMarkers {
      PdfOutcomeConsistent(st, paperId, st.papers[paperId], true, env);
    }
  }

  lemma GenerateStepConsistent(st: Storage, id: string, env: Env)
    requires Consistent(st) && id in st.papers
    ensures Consistent(GenerateStep(st, id, env))
  {
    var p := st.papers[id];
    if Lookup(st.embeddings, id).None? && p.authors.Some? && env.services.embed(PaperText(p, p.authors.value)).Ok? {
      PdfStepConsistent(WithEmbedding(st, id, env.services.embed(PaperText(p, p.authors.value)).value), id, p, env);
    } else {
      PdfStepConsistent(st, id, p, env);
    }
  }

  lemma {:induction false} GenerateAllConsistent(st: Storage, ids: seq<string>, env: Env)
    requires Consistent(st)
    requires forall k | 0 <= k < |ids| :: ids[k] in st.papers
    ensures Consistent(GenerateAll(st, ids, env))
  {
    if ids != [] {
      GenerateAllConsistent(st, ids[..|ids| - 1], env);
      GenerateStepConsistent(GenerateAll(st, ids[..|ids| - 1], env), ids[|ids| - 1], env);
    }
  }

  /** An embedding once stored survives the pass. */
  lemma {:induction false} GenerateAllKeeps(st: Storage, ids: seq<string>, env: Env, id: string)
    requires forall k | 0 <= k < |ids| :: ids[k] in st.papers
    requires Lookup(st.embeddings, id).Some?
    ensures Lookup(GenerateAll(st, ids, env).embeddings, id).Some?
  {
    if ids != [] {
      GenerateAllKeeps(st, ids[..|ids| - 1], env, id);
    }
  }

  /** After the key-change pass, a paper has an embedding exactly when it
      had one before, or it was visited, has authors and its embedding
      request succeeded. */
  lemma {:induction false} GenerateAllEmbeds(st: Storage, ids: seq<string>, env: Env, id: string)
    requires forall k | 0 <= k < |ids| :: ids[k] in st.papers
    ensures Lookup(GenerateAll(st, ids, env).embeddings, id).Some? <==>
      || Lookup(st.embeddings, id).Some?
      || (id in ids && id in st.papers && st.papers[id].authors.Some?
          && env.services.embed(PaperText(st.papers[id], st.papers[id].authors.value)).Ok?)
  {
    if ids != [] {
      var init := ids[..|ids| - 1];
      GenerateAllEmbeds(st, init, env, id);
      assert id in ids <==> id in init || id == ids[|ids| - 1] by {
        assert ids == init + [ids[|ids| - 1]];
      }
    }
  }

  /** A paper the pass does not visit keeps its text. */
  lemma {:induction false} GenerateAllUntouched(st: Storage, ids: seq<string>, env: Env, id: string)
    requires forall k | 0 <= k < |ids| :: ids[k] in st.papers
    requires id !in ids
    ensures var r := GenerateAll(st, ids, env);
      (id in r.pdfTexts <==> id in st.pdfTexts) && (id in st.pdfTexts ==> r.pdfTexts[id] == st.pdfTexts[id])
  {
    if ids != [] {
      var init := ids[..|ids| - 1];
      assert id !in init by {
        assert ids == init + [ids[|ids| - 1]];
      }
      GenerateAllUntouched(st, init, env, id);
      var before := GenerateAll(st, init, env);
      var after := GenerateStep(before, ids[|ids| - 1], env);
      assert id in before.pdfTexts - {ids[|ids| - 1]} <==> id in before.pdfTexts;
      assert id in after.pdfTexts - {ids[|ids| - 1]} <==> id in after.pdfTexts;
    }
  }

  /** The key-change pass extracts every visited paper that had no text
      and has a URL whose content can be extracted. */
  lemma {:induction false} GenerateAllExtracts(st: Storage, ids: seq<string>, env: Env, id: string)
    requires forall k | 0 <= k < |ids| :: ids[k] in st.papers
    requires id in ids && id in st.papers && NeedsText(st, id) && Truthy(st.papers[id].pdfUrl)
    requires ExtractContent(env.fetchPdf(st.papers[id].pdfUrl), Some(st.papers[id]), false).Ok?
    ensures var c := ExtractContent(env.fetchPdf(st.papers[id].pdfUrl), Some(st.papers[id]), false).value;
      id in GenerateAll(st, ids, env).pdfTexts && GenerateAll(st, ids, env).pdfTexts[id] == c.fullText
  {
    var p := st.papers[id];
    var c := ExtractContent(env.fetchPdf(p.pdfUrl), Some(p), false).value;
    var init := ids[..|ids| - 1];
    var last := ids[|ids| - 1];
    assert ids == init + [last];
    var before := GenerateAll(st, init, env);
    if id in init {
      GenerateAllExtracts(st, init, env, id);
      ExtractContentNonEmpty(env.fetchPdf(p.pdfUrl), Some(p), false);
      GenerateStepKeepsText(before, last, env, id);
    } else {
      GenerateAllUntouched(st, init, env, id);
      assert last == id;
      GenerateStepExtracts(before, id, env);
    }
  }

  /** A step for a paper without text whose content can be extracted saves
      that text. */
  lemma GenerateStepExtracts(st: Storage, id: string, env: Env)
    requires id in st.papers && NeedsText(st, id) && Truthy(st.papers[id].pdfUrl)
    requires ExtractContent(env.fetchPdf(st.papers[id].pdfUrl), Some(st.papers[id]), false).Ok?
    ensures id in GenerateStep(st, id, env).pdfTexts
    ensures GenerateStep(st, id, env).pdfTexts[id]
      == ExtractContent(env.fetchPdf(st.papers[id].pdfUrl), Some(st.papers[id]), false).value.fullText
  {
  }

  /** A step leaves a stored non-empty text alone, whichever paper it is
      for. */
  lemma GenerateStepKeepsText(st: Storage, step: string, env: Env, id: string)
    requires step in st.papers && id in st.pdfTexts && st.pdfTexts[id] != ""
    ensures id in GenerateStep(st, step, env).pdfTexts
    ensures GenerateStep(st, step, env).pdfTexts[id] == st.pdfTexts[id]
  {
    var r := GenerateStep(st, step, env);
    if step != id {
      assert id in st.pdfTexts - {step};
    }
  }

  /** The pass over `ids` is the pass over a prefix followed by the pass over
      the rest. */
  lemma {:induction false} GenerateAllSplit(st: Storage, ids: seq<string>, n: nat, env: Env)
    requires n <= |ids|
    requires forall k | 0 <= k < |ids| :: ids[k] in st.papers
    ensures forall k | 0 <= k < |ids[n..]| :: ids[n..][k] in GenerateAll(st, ids[..n], env).papers
    ensures GenerateAll(st, ids, env) == GenerateAll(GenerateAll(st, ids[..n], env), ids[n..], env)
  {
    if n < |ids| {
      var init := ids[..|ids| - 1];
      assert init[..n] == ids[..n];
      GenerateAllSplit(st, init, n, env);
      assert ids[n..][..|ids[n..]| - 1] == init[n..];
      assert ids[n..][|ids[n..]| - 1] == ids[|ids| - 1];
    } else {
      assert ids[..n] == ids;
    }
  }

  /** The chat goes through the paper's chunks exactly when the paper has a
      chunk marker, and then fails exactly when embedding the message does;
      either way the user's message comes last. */
  lemma ChatUsesChunksIffMarker(st: Storage, chunkItems: seq<Entry<ChunkMeta>>, userMessage: string, paper: Paper, s: Services)
    ensures var r := ChatMessages(st, chunkItems, userMessage, paper, s);
      && (r.Err? <==> paper.arxivId in st.chunkMarkers && s.embed(userMessage).Err?)
      && (r.Err? ==> r.error == s.embed(userMessage).error)
      && (r.Ok? ==>
            var ms := r.value;
            && ms[|ms| - 1] == ChatMessage(User, userMessage)
            && (paper.arxivId in st.chunkMarkers <==> |ms| == 2)
            && (paper.arxivId in st.chunkMarkers ==> StartsWith(ms[0].content, RagHeader(paper))))
  {
    if paper.arxivId in st.chunkMarkers && s.embed(userMessage).Ok? {
      RagPromptEnds(paper, Top(ScoreMatching(chunkItems, paper.arxivId, s.embed(userMessage).value, s.sqrt), RagTopK));
    }
  }

  /** The chat answers exactly when an assistant exists and both the
      message's embedding (for a paper with chunks) and the completion
      succeed; every other outcome is an error reply. */
  lemma ChatOutcomeSpec(st: Storage, canAssist: bool, chunkItems: seq<Entry<ChunkMeta>>, userMessage: string, paper: Paper, s: Services)
    ensures var r := ChatOutcome(st, canAssist, chunkItems, userMessage, paper, s);
      var ms := ChatMessages(st, chunkItems, userMessage, paper, s);
      && (r.ChatReply? || r.ErrorReply?)
      && (r.ChatReply? <==> canAssist && ms.Ok? && s.complete(ms.value).Ok?)
      && (r.ChatReply? ==> r.response == s.complete(ms.value).value)
      && (canAssist && ms.Err? ==> r == ErrorReply(ms.error))
  {
  }

  /** Every search hit is a saved paper with a truthy id and the score of a
      ranked entry for that id. */
  lemma {:induction false} PapersOfSaved(papers: map<string, Paper>, ranked: seq<Scored<()>>)
    ensures forall k | 0 <= k < |PapersOf(papers, ranked)| ::
      var hit := PapersOf(papers, ranked)[k];
      hit.paper.arxivId != "" && hit.paper in papers.Values
      && exists j | 0 <= j < |ranked| ::
           ranked[j].id in papers && papers[ranked[j].id] == hit.paper && ranked[j].similarity == hit.similarity
  {
    if ranked != [] {
      PapersOfSaved(papers, ranked[1..]);
      var rest := PapersOf(papers, ranked[1..]);
      forall k | 0 <= k < |rest|
        ensures exists j | 0 <= j < |ranked| ::
          ranked[j].id in papers && papers[ranked[j].id] == rest[k].paper && ranked[j].similarity == rest[k].similarity
      {
        var j :| 0 <= j < |ranked[1..]| && ranked[1..][j].id in papers
          && papers[ranked[1..][j].id] == rest[k].paper && ranked[1..][j].similarity == rest[k].similarity;
        assert ranked[j + 1] == ranked[1..][j];
      }
    }
  }

  /** Scores of the hits are bounded by any bound on the ranked scores. */
  lemma {:induction false} PapersOfBounded(papers: map<string, Paper>, ranked: seq<Scored<()>>, bound: real)
    requires forall j | 0 <= j < |ranked| :: ranked[j].similarity <= bound
    ensures forall k | 0 <= k < |PapersOf(papers, ranked)| :: PapersOf(papers, ranked)[k].similarity <= bound
  {
    if ranked != [] {
      PapersOfBounded(papers, ranked[1..], bound);
    }
  }

  /** Dropping entries keeps the best-first order. */
  lemma {:induction false} PapersOfSorted(papers: map<string, Paper>, ranked: seq<Scored<()>>)
    requires SortedDesc(ranked)
    ensures forall i, j | 0 <= i < j < |PapersOf(papers, ranked)| ::
      PapersOf(papers, ranked)[i].similarity >= PapersOf(papers, ranked)[j].similarity
  {
    if ranked != [] {
      PapersOfSorted(papers, ranked[1..]);
      PapersOfBounded(papers, ranked[1..], ranked[0].similarity);
    }
  }

  /** A search returns at most `limit` saved papers, best first, and none
      when the query cannot be embedded. */
  lemma SearchOutcomeSpec(st: Storage, query: string, limit: nat, s: Services)
    ensures var r := SearchOutcome(st, true, query, limit, s);
      && |r| <= limit
      && (forall i, j | 0 <= i < j < |r| :: r[i].similarity >= r[j].similarity)
      && (forall k | 0 <= k < |r| :: r[k].paper in st.papers.Values && r[k].paper.arxivId != "")
      && (s.embed(query).Err? ==> r == [])
  {
    if s.embed(query).Ok? {
      var ranked := Top(ScoreAll(st.embeddings, s.embed(query).value, s.sqrt), limit);
      TopSpec(ScoreAll(st.embeddings, s.embed(query).value, s.sqrt), limit);
      PapersOfSorted(st.papers, ranked);
      PapersOfSaved(st.papers, ranked);
    }
  }

  // ---------------------------------------------------------------------
  // The assistant's vector store
  // ---------------------------------------------------------------------

  /** What the assistant's vector store holds: the paper vectors and the
      chunk vectors. An assistant not yet created holds neither, and a new
      one starts with neither. */
  datatype Vectors = Vectors(items: seq<Entry<PaperMeta>>, chunks: seq<Entry<ChunkMeta>>)

  const NoVectors := Vectors([], [])

  /** The PDF step adds the chunk vectors of the PDF handling without the
      page cap, when it runs. */
  function PdfStepVectors(v: Vectors, st: Storage, id: string, paper: Paper, env: Env): Vectors {
    if NeedsText(st, id) && Truthy(paper.pdfUrl) then v.(chunks := UpsertAll(v.chunks, PdfChunkEntries(paper, false, env)))
    else v
  }

  /** `savePaper`: with an assistant, the incoming record's vector and then
      the PDF step's chunk vectors; a record without authors or a rejected
      request adds nothing. */
  function SavePaperVectors(v: Vectors, st: Storage, canAssist: bool, paper: Paper, env: Env): Vectors {
    if !canAssist || paper.authors.None? then v
    else
      match env.services.embed(PaperText(paper, paper.authors.value))
      case Err(_) => v
      case Ok(e) =>
        PdfStepVectors(v.(items := Upsert(v.items, PaperEntry(paper, paper.authors.value, e))), st, paper.arxivId, paper, env)
  }

  /** `EXTRACT_PDF`: the chunk vectors of the fast-mode PDF handling, when
      it runs. */
  function ExtractPdfVectors(v: Vectors, st: Storage, canAssist: bool, paperId: string, env: Env): Vectors {
    if paperId in st.papers && canAssist && paperId !in st.chunkMarkers then
      v.(chunks := UpsertAll(v.chunks, PdfChunkEntries(st.papers[paperId], true, env)))
    else v
  }

  /** One paper of the key-change pass: its vector when none is stored in
      `paper_embeddings` and the request succeeds, then the PDF step's
      chunk vectors. */
  function GenerateStepVectors(v: Vectors, st: Storage, id: string, env: Env): Vectors
    requires id in st.papers
  {
    var p := st.papers[id];
    var embedded :=
      if Lookup(st.embeddings, id).None? && p.authors.Some? && env.services.embed(PaperText(p, p.authors.value)).Ok? then
        v.(items := Upsert(v.items, PaperEntry(p, p.authors.value, env.services.embed(PaperText(p, p.authors.value)).value)))
      else v;
    PdfStepVectors(embedded, st, id, p, env)
  }

  /** The vectors after the pass over the papers in the order `ids`. */
  function GenerateAllVectors(v: Vectors, st: Storage, ids: seq<string>, env: Env): Vectors
    requires forall k | 0 <= k < |ids| :: ids[k] in st.papers
  {
    if ids == [] then v
    else
      var init := ids[..|ids| - 1];
      GenerateStepVectors(GenerateAllVectors(v, st, init, env), GenerateAll(st, init, env), ids[|ids| - 1], env)
  }

  /** Every chunk vector the PDF handling stores belongs to the paper and
      sits under that paper's chunk id. */
  lemma PdfChunkEntriesOfPaper(paper: Paper, fastMode: bool, env: Env, e: Entry<ChunkMeta>)
    requires e in PdfChunkEntries(paper, fastMode, env)
    ensures e.metadata.paperId == paper.arxivId && e.id == ChunkId(paper.arxivId, e.metadata.chunkIndex)
  {
    var c := ExtractContent(env.fetchPdf(paper.pdfUrl), Some(paper), fastMode).value;
    var cs := ChunkPages(ParsePages(c.fullText), 0);
    EmbedChunksStops(cs, paper, env.services, true);
    var stop := StopIndex(FirstFailure(cs, paper, env.services, true), |cs|);
    SucceededSound(cs[..stop], paper, env.services, true, e);
  }

  /** `savePaper` stores the incoming record's vector under its id exactly
      when an assistant exists, the record has authors and the request
      succeeds, and leaves every other paper vector alone; the chunk
      vectors it adds all belong to that paper. */
  lemma SavePaperVectorsSpec(v: Vectors, st: Storage, canAssist: bool, paper: Paper, env: Env)
    ensures var r := SavePaperVectors(v, st, canAssist, paper, env);
      var text := if paper.authors.Some? then PaperText(paper, paper.authors.value) else "";
      && (canAssist && paper.authors.Some? && env.services.embed(text).Ok? ==>
            Lookup(r.items, paper.arxivId) == Some(PaperEntry(paper, paper.authors.value, env.services.embed(text).value)))
      && (!(canAssist && paper.authors.Some? && env.services.embed(text).Ok?) ==> r == v)
      && (forall id | id != paper.arxivId :: Lookup(r.items, id) == Lookup(v.items, id))
      && (forall e | e in r.chunks :: e in v.chunks || e.metadata.paperId == paper.arxivId)
  {
    var r := SavePaperVectors(v, st, canAssist, paper, env);
    if canAssist && paper.authors.Some? && env.services.embed(PaperText(paper, paper.authors.value)).Ok? {
      var entry := PaperEntry(paper, paper.authors.value, env.services.embed(PaperText(paper, paper.authors.value)).value);
      UpsertLookupAll(v.items, entry);
      forall e | e in r.chunks
        ensures e in v.chunks || e.metadata.paperId == paper.arxivId
      {
        if e !in v.chunks {
          UpsertAllIn(v.chunks, PdfChunkEntries(paper, false, env), e);
          PdfChunkEntriesOfPaper(paper, false, env, e);
        }
      }
    }
  }

  /** When every chunk call of the PDF handling succeeds, it stores one
      vector per chunk, in chunk order, each under its own chunk id. */
  lemma PdfChunkEntriesComplete(paper: Paper, fastMode: bool, env: Env)
    requires ExtractContent(env.fetchPdf(paper.pdfUrl), Some(paper), fastMode).Ok?
    requires var c := ExtractContent(env.fetchPdf(paper.pdfUrl), Some(paper), fastMode).value;
      EmbedChunksOutcome(ChunkPages(ParsePages(c.fullText), 0), paper, env.services, true).1.Ok?
    ensures var es := PdfChunkEntries(paper, fastMode, env);
      && |es| == ChunkCount(ExtractContent(env.fetchPdf(paper.pdfUrl), Some(paper), fastMode).value.fullText)
      && UniqueIds(es)
      && forall j | 0 <= j < |es| ::
           es[j].id == ChunkId(paper.arxivId, j) && es[j].metadata.paperId == paper.arxivId && es[j].metadata.chunkIndex == j
  {
    var c := ExtractContent(env.fetchPdf(paper.pdfUrl), Some(paper), fastMode).value;
    ChunkIndicesConsecutive(ParsePages(c.fullText), 0);
    EmbedChunksComplete(ChunkPages(ParsePages(c.fullText), 0), paper, env.services);
  }

  /** An `extracted` reply means the fast-mode content was extracted and
      every chunk call succeeded; the count is that of the text's chunks. */
  lemma ExtractedReplyCases(st: Storage, canAssist: bool, paperId: string, env: Env)
    requires ExtractPdfOutcome(st, canAssist, paperId, env).1.ExtractedReply?
    ensures paperId in st.papers && canAssist && paperId !in st.chunkMarkers
    ensures var paper := st.papers[paperId];
      var c := ExtractContent(env.fetchPdf(paper.pdfUrl), Some(paper), true);
      && c.Ok?
      && EmbedChunksOutcome(ChunkPages(ParsePages(c.value.fullText), 0), paper, env.services, true).1.Ok?
      && ExtractPdfOutcome(st, canAssist, paperId, env).1.chunkCount == ChunkCount(c.value.fullText)
  {
  }

  /** An `extracted` reply counts exactly the chunk vectors added, in chunk
      order, and each is then found in the store under its chunk id. */
  lemma ExtractedStoresEveryChunk(st: Storage, canAssist: bool, paperId: string, env: Env, v: Vectors)
    requires ExtractPdfOutcome(st, canAssist, paperId, env).1.ExtractedReply?
    ensures paperId in st.papers
    ensures var es := PdfChunkEntries(st.papers[paperId], true, env);
      && ExtractPdfVectors(v, st, canAssist, paperId, env) == v.(chunks := UpsertAll(v.chunks, es))
      && |es| == ExtractPdfOutcome(st, canAssist, paperId, env).1.chunkCount
      && forall j | 0 <= j < |es| ::
           && es[j].metadata.paperId == st.papers[paperId].arxivId && es[j].metadata.chunkIndex == j
           && Lookup(ExtractPdfVectors(v, st, canAssist, paperId, env).chunks, ChunkId(st.papers[paperId].arxivId, j)) == Some(es[j])
  {
    ExtractedReplyCases(st, canAssist, paperId, env);
    var paper := st.papers[paperId];
    PdfChunkEntriesComplete(paper, true, env);
    var es := PdfChunkEntries(paper, true, env);
    forall j | 0 <= j < |es|
      ensures Lookup(UpsertAll(v.chunks, es), ChunkId(paper.arxivId, j)) == Some(es[j])
    {
      UpsertAllLookup(v.chunks, es, j);
    }
  }

  /** The pass never drops a non-empty text. */
  lemma {:induction false} GenerateAllKeepsText(st: Storage, ids: seq<string>, env: Env, id: string)
    requires forall k | 0 <= k < |ids| :: ids[k] in st.papers
    requires !NeedsText(st, id)
    ensures !NeedsText(GenerateAll(st, ids, env), id)
  {
    if ids != [] {
      var init := ids[..|ids| - 1];
      GenerateAllKeepsText(st, init, env, id);
      GenerateStepKeepsText(GenerateAll(st, init, env), ids[|ids| - 1], env, id);
    }
  }

  /** Papers are saved under their own arXiv ids. */
  predicate KeyedById(st: Storage) {
    forall id | id in st.papers :: st.papers[id].arxivId == id
  }

  /** The pass adds chunk vectors only for papers that had no text when it
      began, and paper vectors only for papers without a stored embedding. */
  lemma {:induction false} GenerateAllAdds(v: Vectors, st: Storage, ids: seq<string>, env: Env)
    requires forall k | 0 <= k < |ids| :: ids[k] in st.papers
    requires KeyedById(st)
    ensures forall e | e in GenerateAllVectors(v, st, ids, env).chunks :: e in v.chunks || NeedsText(st, e.metadata.paperId)
    ensures forall id | Lookup(st.embeddings, id).Some? :: Lookup(GenerateAllVectors(v, st, ids, env).items, id) == Lookup(v.items, id)
  {
    if ids != [] {
      var init, last := ids[..|ids| - 1], ids[|ids| - 1];
      GenerateAllAdds(v, st, init, env);
      var before, sti := GenerateAllVectors(v, st, init, env), GenerateAll(st, init, env);
      var p := st.papers[last];
      var news := PdfChunkEntries(p, false, env);
      forall e | e in GenerateAllVectors(v, st, ids, env).chunks
        ensures e in v.chunks || NeedsText(st, e.metadata.paperId)
      {
        if e !in before.chunks {
          UpsertAllIn(before.chunks, news, e);
          PdfChunkEntriesOfPaper(p, false, env, e);
          if !NeedsText(st, last) {
            GenerateAllKeepsText(st, init, env, last);
          }
        }
      }
      forall id | Lookup(st.embeddings, id).Some?
        ensures Lookup(GenerateAllVectors(v, st, ids, env).items, id) == Lookup(v.items, id)
      {
        GenerateAllKeeps(st, init, env, id);
        if p.authors.Some? && env.services.embed(PaperText(p, p.authors.value)).Ok? {
          UpsertLookup(before.items, PaperEntry(p, p.authors.value, env.services.embed(PaperText(p, p.authors.value)).value), id);
        }
      }
    }
  }

  /** The pass keeps the chunk marker of a paper whose text is stored. */
  lemma {:induction false} GenerateAllKeepsMarker(st: Storage, ids: seq<string>, env: Env, id: string)
    requires forall k | 0 <= k < |ids| :: ids[k] in st.papers
    requires !NeedsText(st, id) && id in st.chunkMarkers
    ensures id in GenerateAll(st, ids, env).chunkMarkers
    ensures GenerateAll(st, ids, env).chunkMarkers[id] == st.chunkMarkers[id]
  {
    if ids != [] {
      var init := ids[..|ids| - 1];
      GenerateAllKeepsMarker(st, init, env, id);
      GenerateAllKeepsText(st, init, env, id);
      var before := GenerateAll(st, init, env);
      if ids[|ids| - 1] != id {
        assert id in before.chunkMarkers - {ids[|ids| - 1]};
      }
    }
  }

  /** `SET_OPENAI_KEY` starts a new, empty store and the pass re-extracts
      only papers without text: a paper whose text was saved before the
      change keeps its chunk marker, so its chat takes the RAG path, but no
      chunk of it is left to retrieve; and a paper whose embedding was
      saved before has no paper vector. */
  lemma KeyChangeDropsVectors(st: Storage, ids: seq<string>, env: Env, id: string, query: seq<real>, sqrt: real -> real)
    requires forall k | 0 <= k < |ids| :: ids[k] in st.papers
    requires KeyedById(st)
    ensures !NeedsText(st, id) ==> OfPaper(GenerateAllVectors(NoVectors, st, ids, env).chunks, id) == []
    ensures !NeedsText(st, id) ==> ScoreMatching(GenerateAllVectors(NoVectors, st, ids, env).chunks, id, query, sqrt) == []
    ensures !NeedsText(st, id) && id in st.chunkMarkers ==> id in GenerateAll(st, ids, env).chunkMarkers
    ensures Lookup(st.embeddings, id).Some? ==> Lookup(GenerateAllVectors(NoVectors, st, ids, env).items, id).None?
  {
    GenerateAllAdds(NoVectors, st, ids, env);
    if !NeedsText(st, id) {
      var chunks := GenerateAllVectors(NoVectors, st, ids, env).chunks;
      OfPaperNone(chunks, id);
      ScoreMatchingOfPaper(chunks, id, query, sqrt);
      if id in st.chunkMarkers {
        GenerateAllKeepsMarker(st, ids, env, id);
      }
    }
  }

  // ---------------------------------------------------------------------
  // The background script
  // ---------------------------------------------------------------------

  /** The similarity loop of `searchSimilarPapers`: one score per stored
      embedding, in property order. */
  method ScoreEmbeddings(embeddings: seq<Entry<()>>, query: seq<real>, sqrt: real -> real)
    returns (similarities: seq<Scored<()>>)
    ensures similarities == ScoreAll(embeddings, query, sqrt)
  {
    similarities := [];
    var i := 0;
    while i < |embeddings|
      invariant i <= |embeddings| && |similarities| == i
      invariant forall k | 0 <= k < i :: similarities[k] == ScoreAll(embeddings, query, sqrt)[k]
    {
      var similarity := CosineSimilarity(query, embeddings[i].vector, sqrt);
      similarities := similarities + [Scored(embeddings[i].id, similarity, embeddings[i].metadata)];
      i := i + 1;
    }
  }

  class BackgroundScript {
    var storage: Storage
    /** `arxivAssistant`, created on demand. */
    var assistant: ArxivAssistant?
    /** The toolbar badge text. */
    var badge: string
    ghost var Repr: set<object>

    ghost predicate Valid()
      reads this, Repr
    {
      && this in Repr
      && UniqueIds(storage.embeddings)
      && (assistant != null ==>
            && assistant in Repr && assistant.vectorStore in Repr
            && assistant.configured && assistant.Valid())
    }

    /** An assistant exists or `initializeAssistant` will create one. */
    ghost predicate CanAssist()
      reads this
    {
      assistant != null || Truthy(storage.apiKey)
    }

    /** What the assistant's store holds: nothing for an assistant not yet
        created. */
    ghost function Held(): Vectors
      reads this, assistant
      reads if assistant != null then {assistant.vectorStore} else {}
    {
      if assistant == null then NoVectors else Vectors(assistant.vectorStore.items, assistant.vectorStore.chunkItems)
    }

    /** The chunk vectors the assistant would search. */
    ghost function ChunkItems(): seq<Entry<ChunkMeta>>
      reads this, assistant
      reads if assistant != null then {assistant.vectorStore} else {}
    {
      Held().chunks
    }

    /** Script start: `initializeExtension` sets up an empty library unless
        the install was initialised before. */
    constructor(st: Storage)
      requires UniqueIds(st.embeddings)
      ensures Valid() && fresh(Repr)
      ensures storage == if st.initialized then st else st.(papers := map[], initialized := true)
      ensures assistant == null && badge == ""
    {
      storage := if st.initialized then st else st.(papers := map[], initialized := true);
      assistant := null;
      badge := "";
      Repr := {this};
    }

    /** `initializeAssistant`: create the assistant when a truthy key is
        stored and none exists, and return the current one. */
    method InitializeAssistant() returns (a: ArxivAssistant?)
      requires Valid()
      modifies this
      ensures Valid() && fresh(Repr - old(Repr))
      ensures a == assistant && storage == old(storage) && badge == old(badge)
      ensures (a != null) == old(CanAssist())
      ensures old(assistant) != null ==> a == old(assistant)
      ensures a != null ==> a.vectorStore.chunkItems == old(ChunkItems())
      ensures old(assistant) == null && a != null ==>
        fresh(a) && fresh(a.vectorStore) && a.vectorStore.items == [] && a.vectorStore.chunkItems == []
    {
      if Truthy(storage.apiKey) && assistant == null {
        assistant := new ArxivAssistant(storage.apiKey);
        Repr := Repr + {assistant, assistant.vectorStore};
      }
      a := assistant;
    }

    /** `saveEmbedding`. */
    method SaveEmbedding(paperId: string, embedding: seq<real>)
      requires Valid()
      modifies this
      ensures Valid() && Repr == old(Repr) && assistant == old(assistant) && badge == old(badge)
      ensures storage == WithEmbedding(old(storage), paperId, embedding)
    {
      UpsertUnique(storage.embeddings, Entry(paperId, embedding, ()));
      storage := storage.(embeddings := Upsert(storage.embeddings, Entry(paperId, embedding, ())));
    }

    /** Extract the content, save the text, chunk it, embed the chunks and
        save the marker; stop at the first step that fails. */
    method ProcessPdf(paperId: string, paper: Paper, a: ArxivAssistant, fastMode: bool, env: Env)
      returns (r: Result<PaperContent, string>)
      requires Valid() && a == assistant
      modifies this, a.vectorStore
      ensures Valid() && Repr == old(Repr) && assistant == old(assistant) && badge == old(badge)
      ensures (storage, r) == PdfOutcome(old(storage), paperId, paper, fastMode, env)
      ensures a.vectorStore.chunkItems == UpsertAll(old(a.vectorStore.chunkItems), PdfChunkEntries(paper, fastMode, env))
      ensures a.vectorStore.items == old(a.vectorStore.items)
    {
      var content := ExtractContent(env.fetchPdf(paper.pdfUrl), Some(paper), fastMode);
      if content.Err? {
        return Err(content.error);
      }
      storage := storage.(pdfTexts := storage.pdfTexts[paperId := content.value.fullText]);
      var chunks := CreateChunks(content.value.fullText);
      var embedded := a.EmbedChunks(chunks, paper, env.services);
      if embedded.Err? {
        return Err(embedded.error);
      }
      storage := storage.(chunkMarkers := storage.chunkMarkers[paperId :=
        ChunkMarker(|chunks|, env.now, content.value.source, content.value.hasFullPDF)]);
      r := Ok(content.value);
    }

    /** `savePaper`. */
    method SavePaper(paper: Paper, env: Env)
      requires Valid()
      modifies Repr
      ensures Valid() && fresh(Repr - old(Repr)) && badge == old(badge)
      ensures storage == SavePaperStorage(old(storage), old(CanAssist()), paper, env)
      ensures old(assistant) != null ==> assistant == old(assistant)
      ensures (assistant != null) == old(CanAssist())
      ensures Held() == SavePaperVectors(old(Held()), old(storage), old(CanAssist()), paper, env)
    {
      var existing := LookupPaper(storage.papers, paper.arxivId);
      storage := storage.(papers := storage.papers[paper.arxivId := Merge(existing, paper, env.now)]);
      var a := InitializeAssistant();
      if a != null {
        var embedding := a.EmbedPaper(paper, env.services);
        if embedding.Ok? {
          SaveEmbedding(paper.arxivId, embedding.value);
          if NeedsText(storage, paper.arxivId) && Truthy(paper.pdfUrl) {
            var _ := ProcessPdf(paper.arxivId, paper, a, false, env);
          }
        }
      }
    }

    /** The `EXTRACT_PDF` case. */
    method ExtractPdf(paperId: string, env: Env) returns (resp: Response)
      requires Valid()
      modifies Repr
      ensures Valid() && fresh(Repr - old(Repr)) && badge == old(badge)
      ensures (storage, resp) == ExtractPdfOutcome(old(storage), old(CanAssist()), paperId, env)
      ensures old(assistant) != null ==> assistant == old(assistant)
      ensures (assistant != null) == (old(assistant) != null || (paperId in old(storage.papers) && old(CanAssist())))
      ensures Held() == ExtractPdfVectors(old(Held()), old(storage), old(CanAssist()), paperId, env)
    {
      if paperId !in storage.papers {
        return ErrorReply(PaperNotFound);
      }
      var paper := storage.papers[paperId];
      var a := InitializeAssistant();
      if a == null {
        return ErrorReply(NotConfigured);
      }
      if paperId in storage.chunkMarkers {
        return AlreadyExtracted(storage.chunkMarkers[paperId].chunkCount);
      }
      var r := ProcessPdf(paperId, paper, a, true, env);
      if r.Err? {
        resp := ErrorReply(if r.error == "" then ExtractFailed else r.error);
      } else {
        resp := ExtractedReply(ChunkCount(r.value.fullText), r.value.source, r.value.hasFullPDF);
      }
    }

    /** The loop body of `generateEmbeddingsForExistingPapers` for one
        saved paper; each failure is swallowed. */
    method GenerateFor(id: string, a: ArxivAssistant, env: Env)
      requires Valid() && a == assistant && id in storage.papers
      modifies this, a.vectorStore
      ensures Valid() && Repr == old(Repr) && assistant == old(assistant) && badge == old(badge)
      ensures storage == GenerateStep(old(storage), id, env)
      ensures Held() == GenerateStepVectors(old(Held()), old(storage), id, env)
    {
      var paper := storage.papers[id];
      if Lookup(storage.embeddings, id).None? {
        var embedding := a.EmbedPaper(paper, env.services);
        if embedding.Ok? {
          SaveEmbedding(id, embedding.value);
        }
      }
      if NeedsText(storage, id) && Truthy(paper.pdfUrl) {
        var _ := ProcessPdf(id, paper, a, false, env);
      }
    }

    /** `generateEmbeddingsForExistingPapers`: one pass over the saved
        papers in some order (the returned `order`). */
    method GenerateEmbeddingsForExistingPapers(env: Env) returns (ghost order: seq<string>)
      requires Valid()
      modifies Repr
      ensures Valid() && fresh(Repr - old(Repr)) && badge == old(badge)
      ensures old(assistant) != null ==> assistant == old(assistant)
      ensures (assistant != null) == old(CanAssist())
      ensures !old(CanAssist()) ==> order == [] && storage == old(storage)
      ensures old(CanAssist()) ==>
        && |order| == |old(storage.papers)| && (forall id | id in old(storage.papers) :: id in order)
        && (forall k | 0 <= k < |order| :: order[k] in old(storage.papers))
        && storage == GenerateAll(old(storage), order, env)
        && Held() == GenerateAllVectors(old(Held()), old(storage), order, env)
    {
      order := [];
      var a := InitializeAssistant();
      if a == null {
        return;
      }
      var remaining := storage.papers.Keys;
      ghost var papers := storage.papers;
      while remaining != {}
        invariant Valid() && fresh(Repr - old(Repr)) && badge == old(badge)
        invariant assistant == a
        invariant storage.papers == papers && remaining <= papers.Keys
        invariant forall k | 0 <= k < |order| :: order[k] in papers && order[k] !in remaining
        invariant forall id | id in papers :: id in remaining || id in order
        invariant |order| + |remaining| == |papers.Keys|
        invariant storage == GenerateAll(old(storage), order, env)
        invariant Held() == GenerateAllVectors(old(Held()), old(storage), order, env)
        decreases remaining
      {
        var id :| id in remaining;
        GenerateFor(id, a, env);
        assert (order + [id])[..|order|] == order;
        order := order + [id];
        remaining := remaining - {id};
      }
    }

    /** The `SET_OPENAI_KEY` case: store the key, drop the assistant,
        create a new one for a truthy key and run the pass over the saved
        papers. */
    method SetOpenAiKey(apiKey: Option<string>, env: Env) returns (ghost order: seq<string>)
      requires Valid()
      modifies Repr
      ensures Valid() && fresh(Repr - old(Repr)) && badge == old(badge)
      ensures (assistant != null) == Truthy(apiKey)
      ensures !Truthy(apiKey) ==> storage == old(storage).(apiKey := apiKey)
      ensures Truthy(apiKey) ==>
        && (forall id | id in old(storage.papers) :: id in order)
        && (forall k | 0 <= k < |order| :: order[k] in old(storage.papers))
        && storage == GenerateAll(old(storage).(apiKey := apiKey), order, env)
        && fresh(assistant)
        && Held() == GenerateAllVectors(NoVectors, old(storage).(apiKey := apiKey), order, env)
    {
      storage := storage.(apiKey := apiKey);
      assistant := null;
      var _ := InitializeAssistant();
      order := GenerateEmbeddingsForExistingPapers(env);
    }

    /** `searchSimilarPapers`. */
    method SearchSimilarPapers(query: string, limit: nat, env: Env) returns (results: seq<SimilarPaper>)
      requires Valid()
      modifies this
      ensures Valid() && fresh(Repr - old(Repr)) && storage == old(storage) && badge == old(badge)
      ensures results == SearchOutcome(old(storage), old(CanAssist()), query, limit, env.services)
      ensures old(assistant) != null ==> assistant == old(assistant)
      ensures Held() == old(Held())
    {
      var a := InitializeAssistant();
      if a == null {
        return [];
      }
      var queryEmbedding := a.EmbedText(query, env.services);
      if queryEmbedding.Err? {
        return [];
      }
      var similarities := ScoreEmbeddings(storage.embeddings, queryEmbedding.value, env.services.sqrt);
      results := PapersOf(storage.papers, Top(similarities, limit));
    }

    /** The `SEARCH_SIMILAR` case: no hits without an assistant or for a
        falsy query. */
    method SearchSimilar(query: Option<string>, env: Env) returns (resp: Response)
      requires Valid()
      modifies this
      ensures Valid() && fresh(Repr - old(Repr)) && storage == old(storage) && badge == old(badge)
      ensures resp == SimilarPapersReply(
        if Truthy(query) then SearchOutcome(old(storage), old(CanAssist()), query.value, SearchLimit, env.services) else [])
      ensures old(assistant) != null ==> assistant == old(assistant)
      ensures Held() == old(Held())
    {
      var a := InitializeAssistant();
      if a != null && Truthy(query) {
        var results := SearchSimilarPapers(query.value, SearchLimit, env);
        resp := SimilarPapersReply(results);
      } else {
        resp := SimilarPapersReply([]);
      }
    }

    /** The model's answer for `CHAT_WITH_PAPER` once the assistant
        exists: through the paper's chunks when it has a marker, else with
        the abstract-only prompt. */
    method AnswerChat(a: ArxivAssistant, userMessage: string, paper: Paper, env: Env)
      returns (r: Result<Option<string>, string>)
      requires Valid() && a == assistant
      ensures r == ChatAnswer(storage, a.vectorStore.chunkItems, userMessage, paper, env.services)
    {
      if paper.arxivId in storage.chunkMarkers {
        var messages := [ChatMessage(User, userMessage)];
        r := a.ChatWithRag(messages, paper, env.services);
        assert messages[|messages| - 1].content == userMessage;
        if env.services.embed(userMessage).Ok? {
          var rag := RagPrompt(paper, Top(ScoreMatching(a.vectorStore.chunkItems, paper.arxivId,
            env.services.embed(userMessage).value, env.services.sqrt), RagTopK));
          assert [ChatMessage(System, rag)] + messages
            == ChatMessages(storage, a.vectorStore.chunkItems, userMessage, paper, env.services).value;
        }
      } else {
        r := a.Chat([ChatMessage(System, FallbackChatPrompt(paper)), ChatMessage(User, userMessage)], None, env.services);
        assert [ChatMessage(System, ChatSystemPrompt(None))] + [ChatMessage(System, FallbackChatPrompt(paper)), ChatMessage(User, userMessage)]
          == ChatMessages(storage, a.vectorStore.chunkItems, userMessage, paper, env.services).value;
      }
    }

    /** The `CHAT_WITH_PAPER` case: a rejected request is answered with its
        message. */
    method ChatWithPaper(userMessage: string, paper: Paper, env: Env) returns (resp: Response)
      requires Valid()
      modifies this
      ensures Valid() && fresh(Repr - old(Repr)) && storage == old(storage) && badge == old(badge)
      ensures resp == ChatOutcome(old(storage), old(CanAssist()), old(ChunkItems()), userMessage, paper, env.services)
      ensures old(assistant) != null ==> assistant == old(assistant)
      ensures Held() == old(Held())
    {
      var a := InitializeAssistant();
      if a == null {
        return ErrorReply(NotConfiguredChat);
      }
      var reply := AnswerChat(a, userMessage, paper, env);
      if reply.Err? {
        resp := ErrorReply(reply.error);
      } else {
        resp := ChatReply(reply.value);
      }
    }

    /** The message handler: exactly one reply per message. */
    method Dispatch(message: Message, env: Env) returns (resp: Response, ghost order: seq<string>)
      requires Valid()
      modifies Repr
      ensures Valid() && fresh(Repr - old(Repr))
      ensures message.OpenAssistant? ==>
        resp == Success && storage == old(storage).(currentPaper := Some(message.paperInfo)) && badge == "!"
      ensures message.SaveRequest? ==>
        && resp == Success && storage == SavePaperStorage(old(storage), old(CanAssist()), message.paper, env)
        && Held() == SavePaperVectors(old(Held()), old(storage), old(CanAssist()), message.paper, env)
      ensures message.ExtractRequest? ==>
        && (storage, resp) == ExtractPdfOutcome(old(storage), old(CanAssist()), message.paperId, env)
        && Held() == ExtractPdfVectors(old(Held()), old(storage), old(CanAssist()), message.paperId, env)
      ensures message.GetPapers? ==> resp == PapersReply(old(storage.papers)) && storage == old(storage)
      ensures message.AddTagRequest? ==>
        var (papers, reply) := AddTag(old(storage.papers), message.paperId, message.tag);
        resp == TagResult(reply) && storage == old(storage).(papers := papers)
      ensures message.RemoveTagRequest? ==>
        var (papers, reply) := RemoveTag(old(storage.papers), message.paperId, message.tag);
        resp == TagResult(reply) && storage == old(storage).(papers := papers)
      ensures message.GetApiKey? ==> resp == ApiKeyReply(old(storage.apiKey)) && storage == old(storage)
      ensures message.SetApiKey? ==>
        && resp == Success && (assistant != null <==> Truthy(message.apiKey))
        && (!Truthy(message.apiKey) ==> storage == old(storage).(apiKey := message.apiKey))
        && (Truthy(message.apiKey) ==>
              && (forall id | id in old(storage.papers) :: id in order)
              && (forall k | 0 <= k < |order| :: order[k] in old(storage.papers))
              && storage == GenerateAll(old(storage).(apiKey := message.apiKey), order, env)
              && fresh(assistant)
              && Held() == GenerateAllVectors(NoVectors, old(storage).(apiKey := message.apiKey), order, env))
      ensures message.SearchSimilar? ==>
        && storage == old(storage)
        && resp == SimilarPapersReply(
             if Truthy(message.query) then SearchOutcome(old(storage), old(CanAssist()), message.query.value, SearchLimit, env.services)
             else [])
      ensures message.GetTagCounts? ==>
        resp == TagCountsReply(Multiplicities(TagBag(old(storage.papers)))) && storage == old(storage)
      ensures message.ChatRequest? ==>
        && storage == old(storage)
        && resp == ChatOutcome(old(storage), old(CanAssist()), old(ChunkItems()), message.message, message.paper, env.services)
      ensures message.UnknownType? ==> resp == ErrorReply(UnknownMessageType) && storage == old(storage)
      ensures !message.SetApiKey? && old(assistant) != null ==> assistant == old(assistant)
      ensures !(message.SaveRequest? || message.ExtractRequest? || message.SetApiKey?) ==> Held() == old(Held())
    {
      order := [];
      match message
      case OpenAssistant(paperInfo) =>
        storage := storage.(currentPaper := Some(paperInfo));
        badge := "!";
        resp := Success;
      case SaveRequest(paper) =>
        SavePaper(paper, env);
        resp := Success;
      case ExtractRequest(paperId) =>
        resp := ExtractPdf(paperId, env);
      case GetPapers =>
        resp := PapersReply(storage.papers);
      case AddTagRequest(paperId, tag) =>
        var (papers, reply) := AddTag(storage.papers, paperId, tag);
        storage := storage.(papers := papers);
        resp := TagResult(reply);
      case RemoveTagRequest(paperId, tag) =>
        var (papers, reply) := RemoveTag(storage.papers, paperId, tag);
        storage := storage.(papers := papers);
        resp := TagResult(reply);
      case GetApiKey =>
        resp := ApiKeyReply(storage.apiKey);
      case SetApiKey(apiKey) =>
        order := SetOpenAiKey(apiKey, env);
        resp := Success;
      case SearchSimilar(query) =>
        resp := SearchSimilar(query, env);
      case GetTagCounts =>
        var counts := CountTags(storage.papers);
        resp := TagCountsReply(counts);
      case ChatRequest(userMessage, paper) =>
        resp := ChatWithPaper(userMessage, paper, env);
      case UnknownType(_) =>
        resp := ErrorReply(UnknownMessageType);
    }
  }
}
