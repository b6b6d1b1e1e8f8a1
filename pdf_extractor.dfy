/** The text side of `PDFExtractor`: the page-marked text stream that
    `extractTextFromPDF` builds from the pages of a PDF, the way it turns
    failures into messages, the choice `extractContent` makes between the PDF
    text and the HTML abstract, and `formatChunkForEmbedding`. The PDF
    library and `fetch` are replaced by a `FetchOutcome` value: what the
    download and the parse produced, page by page. */
module PdfExtractor {
  import opened Wrappers
  import opened Text
  import opened Papers

  /** Characters per chunk and overlap between consecutive chunks. */
  const ChunkSize: nat := 1000
  const ChunkOverlap: nat := 200
  /** Pages read in fast mode. */
  const FastModeMaxPages: nat := 10

  /** A loaded PDF: for each page, the strings of its text items, or `None`
      when reading that page throws. */
  datatype PdfDocument = PdfDocument(pages: seq<Option<seq<string>>>) {
    function NumPages(): nat { |pages| }
  }

  /** What `fetch` and the PDF library yield for a URL. */
  datatype FetchOutcome =
    | NetworkFailure(message: string)
    | HttpError(status: nat, statusText: string)
    | LoadFailure(message: string)
    | Loaded(doc: PdfDocument)

  /** One page of text with its 1-based page number. */
  datatype PageText = PageText(number: nat, text: string)

  datatype Source = Pdf | Html | Combined

  datatype PaperContent = PaperContent(fullText: string, source: Source, hasFullPDF: bool)

  /** A window of one page's text (`PDFChunk`). */
  datatype Chunk = Chunk(pageNumber: nat, chunkIndex: nat, text: string, startChar: nat, endChar: nat)

  // ---------------------------------------------------------------------
  // The page-marked stream
  // ---------------------------------------------------------------------

  /** `Math.min(numPages, maxPages || Infinity)`: a missing or zero cap
      means every page. */
  function PagesToExtract(numPages: nat, maxPages: Option<nat>): nat {
    if maxPages.None? || maxPages.value == 0 then numPages
    else if maxPages.value < numPages then maxPages.value
    else numPages
  }

  function PageMarker(n: nat): string {
    "\n[Page " + NatToString(n) + "]\n"
  }

  function Section(p: PageText): string {
    PageMarker(p.number) + p.text
  }

  /** The sections of `ps`, in order. */
  function Sections(ps: seq<PageText>): string {
    if ps == [] then "" else Sections(ps[..|ps| - 1]) + Section(ps[|ps| - 1])
  }

  /** The pages among the first `count` that were read without error, in
      ascending order, each with its text items joined by single spaces. */
  function ReadPages(pages: seq<Option<seq<string>>>, count: nat): seq<PageText>
    requires count <= |pages|
  {
    if count == 0 then []
    else
      ReadPages(pages, count - 1)
        + (if pages[count - 1].Some? then [PageText(count, Join(pages[count - 1].value, " "))] else [])
  }

  /** The note appended when pages were left out (written in short pieces
      so that facts about its characters can be checked piece by piece). */
  function TruncationNote(extracted: nat, total: nat): string {
    "\n\n[Note: Only first " + NatToString(extracted) + " pages extracted " + "for faster "
      + "processing. " + "Full PDF has " + NatToString(total) + " pages.]"
  }

  /** The text `extractTextFromPDF` accumulates: one section per page read,
      then the note when pages were left out. */
  function FullText(doc: PdfDocument, maxPages: Option<nat>): string {
    var p := PagesToExtract(doc.NumPages(), maxPages);
    Sections(ReadPages(doc.pages, p)) + (if p < doc.NumPages() then TruncationNote(p, doc.NumPages()) else "")
  }

  /** Every page listed in `ps` is among the first `count`, was read
      without error and carries its items joined by spaces. */
  predicate ListedPagesRead(pages: seq<Option<seq<string>>>, count: nat, ps: seq<PageText>)
    requires count <= |pages|
  {
    forall i | 0 <= i < |ps| ::
      1 <= ps[i].number <= count && pages[ps[i].number - 1].Some?
      && ps[i].text == Join(pages[ps[i].number - 1].value, " ")
  }

  predicate Ascending(ps: seq<PageText>) {
    forall i, j | 0 <= i < j < |ps| :: ps[i].number < ps[j].number
  }

  /** Every page among the first `count` that was read is listed in `ps`. */
  predicate ListsEveryReadPage(pages: seq<Option<seq<string>>>, count: nat, ps: seq<PageText>)
    requires count <= |pages|
  {
    forall k | 0 <= k < count && pages[k].Some? :: exists i | 0 <= i < |ps| :: ps[i].number == k + 1
  }

  lemma {:induction false} ReadPagesSound(pages: seq<Option<seq<string>>>, count: nat)
    requires count <= |pages|
    ensures ListedPagesRead(pages, count, ReadPages(pages, count))
  {
    if count > 0 {
      ReadPagesSound(pages, count - 1);
    }
  }

  lemma {:induction false} ReadPagesAscending(pages: seq<Option<seq<string>>>, count: nat)
    requires count <= |pages|
    ensures Ascending(ReadPages(pages, count))
  {
    if count > 0 {
      ReadPagesAscending(pages, count - 1);
      ReadPagesSound(pages, count - 1);
    }
  }

  lemma {:induction false} ReadPagesComplete(pages: seq<Option<seq<string>>>, count: nat)
    requires count <= |pages|
    ensures ListsEveryReadPage(pages, count, ReadPages(pages, count))
  {
    if count > 0 {
      ReadPagesComplete(pages, count - 1);
      var prev := ReadPages(pages, count - 1);
      var ps := ReadPages(pages, count);
      assert forall i | 0 <= i < |prev| :: ps[i] == prev[i];
      forall k | 0 <= k < count && pages[k].Some? ensures exists i | 0 <= i < |ps| :: ps[i].number == k + 1 {
        if k == count - 1 {
          assert ps[|prev|].number == k + 1;
        } else {
          var i :| 0 <= i < |prev| && prev[i].number == k + 1;
          assert ps[i].number == k + 1;
        }
      }
    }
  }

  /** The pages listed are exactly the pages up to the cap that were read,
      in ascending order, each with its items joined by spaces. */
  lemma ReadPagesSpec(pages: seq<Option<seq<string>>>, count: nat)
    requires count <= |pages|
    ensures ListedPagesRead(pages, count, ReadPages(pages, count))
    ensures Ascending(ReadPages(pages, count))
    ensures ListsEveryReadPage(pages, count, ReadPages(pages, count))
  {
    ReadPagesSound(pages, count);
    ReadPagesAscending(pages, count);
    ReadPagesComplete(pages, count);
  }

  /** The cap: never more pages than the PDF has; every page without a cap
      (or with a zero cap); at most ten in fast mode. */
  lemma PagesToExtractBounds(numPages: nat, maxPages: Option<nat>)
    ensures PagesToExtract(numPages, maxPages) <= numPages
    ensures maxPages.None? || maxPages == Some(0) ==> PagesToExtract(numPages, maxPages) == numPages
    ensures maxPages.Some? && maxPages.value > 0 ==> PagesToExtract(numPages, maxPages) <= maxPages.value
    ensures PagesToExtract(numPages, maxPages) < numPages <==> maxPages.Some? && 0 < maxPages.value < numPages
    ensures PagesToExtract(numPages, Some(FastModeMaxPages)) == if numPages < 10 then numPages else 10
  {
  }

  /** A page that throws leaves no section; the pages after it are still
      read (`ReadPagesComplete`). */
  lemma FailedPageSkipped(pages: seq<Option<seq<string>>>, count: nat, k: nat)
    requires count <= |pages| && k < count && pages[k].None?
    ensures forall i | 0 <= i < |ReadPages(pages, count)| :: ReadPages(pages, count)[i].number != k + 1
  {
    ReadPagesSound(pages, count);
  }

  lemma {:induction false} SectionsNotBlank(ps: seq<PageText>)
    requires ps != []
    ensures !IsBlank(Sections(ps))
  {
    var s := Sections(ps[..|ps| - 1]);
    var m := PageMarker(ps[|ps| - 1].number);
    assert Sections(ps)[|s| + 1] == m[1] == '[';
  }

  /** The accumulated text is blank exactly when no page was read and no
      page was left out by the cap: page markers are never blank, so a PDF
      whose pages carry no text still gives a non-blank stream. */
  lemma FullTextBlankIff(doc: PdfDocument, maxPages: Option<nat>)
    ensures var p := PagesToExtract(doc.NumPages(), maxPages);
      IsBlank(FullText(doc, maxPages)) <==> ReadPages(doc.pages, p) == [] && p == doc.NumPages()
  {
    var p := PagesToExtract(doc.NumPages(), maxPages);
    var ps := ReadPages(doc.pages, p);
    var t := FullText(doc, maxPages);
    if ps != [] {
      SectionsNotBlank(ps);
      assert t[..|Sections(ps)|] == Sections(ps);
    } else if p < doc.NumPages() {
      assert t == TruncationNote(p, doc.NumPages());
      assert t[2] == '[';
    }
  }

  // ---------------------------------------------------------------------
  // Error messages
  // ---------------------------------------------------------------------

  // The messages are written in short pieces so that facts about their
  // characters can be checked one piece at a time.
  const DownloadError: string :=
    "Failed to " + "download PDF: " + "Check your " + "internet " + "connection"
  const InvalidPdfError: string :=
    "Invalid PDF " + "file: The file " + "appears to be " + "corrupted or is " + "not a valid PDF"
  const WorkerError: string :=
    "PDF library " + "initialization " + "failed. Using " + "HTML content as " + "fallback."
  const ImageBasedError: string :=
    "PDF extraction " + "failed: The PDF " + "appears to be " + "image-based or " + "empty. Only " + "text-based PDFs " + "are supported."
  const NoContentError := "Unable to extract paper content from PDF or HTML"

  function HttpErrorMessage(status: nat, statusText: string): string {
    "Failed to fetch PDF: " + NatToString(status) + " " + statusText
  }

  /** The rewrite in the `catch` of `extractTextFromPDF`: the first of the
      three substrings found decides the message; otherwise the error is
      rethrown unchanged. */
  function ClassifyError(message: string): string {
    if Contains(message, "fetch") then DownloadError
    else if Contains(message, "Invalid PDF") then InvalidPdfError
    else if Contains(message, "GlobalWorkerOptions.workerSrc") then WorkerError
    else message
  }

  /** A message none of the three substrings occurs in. */
  predicate Unclassified(message: string) {
    !Contains(message, "fetch") && !Contains(message, "Invalid PDF")
    && !Contains(message, "GlobalWorkerOptions.workerSrc")
  }

  lemma DownloadErrorLacksF()
    ensures Lacks(DownloadError, 'f')
  {
    assert Lacks("Failed to ", 'f') && Lacks("download PDF: ", 'f') && Lacks("Check your ", 'f') && Lacks("internet ", 'f') && Lacks("connection", 'f');
    LacksConcat("Failed to ", "download PDF: ", 'f');
    LacksConcat("Failed to " + "download PDF: ", "Check your ", 'f');
    LacksConcat("Failed to " + "download PDF: " + "Check your ", "internet ", 'f');
    LacksConcat("Failed to " + "download PDF: " + "Check your " + "internet ", "connection", 'f');
  }

  lemma DownloadErrorLacksI()
    ensures Lacks(DownloadError, 'I')
  {
    assert Lacks("Failed to ", 'I') && Lacks("download PDF: ", 'I') && Lacks("Check your ", 'I') && Lacks("internet ", 'I') && Lacks("connection", 'I');
    LacksConcat("Failed to ", "download PDF: ", 'I');
    LacksConcat("Failed to " + "download PDF: ", "Check your ", 'I');
    LacksConcat("Failed to " + "download PDF: " + "Check your ", "internet ", 'I');
    LacksConcat("Failed to " + "download PDF: " + "Check your " + "internet ", "connection", 'I');
  }

  lemma DownloadErrorLacksG()
    ensures Lacks(DownloadError, 'G')
  {
    assert Lacks("Failed to ", 'G') && Lacks("download PDF: ", 'G') && Lacks("Check your ", 'G') && Lacks("internet ", 'G') && Lacks("connection", 'G');
    LacksConcat("Failed to ", "download PDF: ", 'G');
    LacksConcat("Failed to " + "download PDF: ", "Check your ", 'G');
    LacksConcat("Failed to " + "download PDF: " + "Check your ", "internet ", 'G');
    LacksConcat("Failed to " + "download PDF: " + "Check your " + "internet ", "connection", 'G');
  }

  lemma InvalidPdfErrorLacksPairFe()
    ensures LacksPair(InvalidPdfError, 'f', 'e')
  {
    assert LacksPair("Invalid PDF ", 'f', 'e') && LacksPair("file: The file ", 'f', 'e') && LacksPair("appears to be ", 'f', 'e') && LacksPair("corrupted or is ", 'f', 'e') && LacksPair("not a valid PDF", 'f', 'e');
    LacksPairConcat("Invalid PDF ", "file: The file ", 'f', 'e');
    LacksPairConcat("Invalid PDF " + "file: The file ", "appears to be ", 'f', 'e');
    LacksPairConcat("Invalid PDF " + "file: The file " + "appears to be ", "corrupted or is ", 'f', 'e');
    LacksPairConcat("Invalid PDF " + "file: The file " + "appears to be " + "corrupted or is ", "not a valid PDF", 'f', 'e');
  }

  lemma WorkerErrorLacksI()
    ensures Lacks(WorkerError, 'I')
  {
    assert Lacks("PDF library ", 'I') && Lacks("initialization ", 'I') && Lacks("failed. Using ", 'I') && Lacks("HTML content as ", 'I') && Lacks("fallback.", 'I');
    LacksConcat("PDF library ", "initialization ", 'I');
    LacksConcat("PDF library " + "initialization ", "failed. Using ", 'I');
    LacksConcat("PDF library " + "initialization " + "failed. Using ", "HTML content as ", 'I');
    LacksConcat("PDF library " + "initialization " + "failed. Using " + "HTML content as ", "fallback.", 'I');
  }

  lemma WorkerErrorLacksG()
    ensures Lacks(WorkerError, 'G')
  {
    assert Lacks("PDF library ", 'G') && Lacks("initialization ", 'G') && Lacks("failed. Using ", 'G') && Lacks("HTML content as ", 'G') && Lacks("fallback.", 'G');
    LacksConcat("PDF library ", "initialization ", 'G');
    LacksConcat("PDF library " + "initialization ", "failed. Using ", 'G');
    LacksConcat("PDF library " + "initialization " + "failed. Using ", "HTML content as ", 'G');
    LacksConcat("PDF library " + "initialization " + "failed. Using " + "HTML content as ", "fallback.", 'G');
  }

  lemma WorkerErrorLacksPairFe()
    ensures LacksPair(WorkerError, 'f', 'e')
  {
    assert LacksPair("PDF library ", 'f', 'e') && LacksPair("initialization ", 'f', 'e') && LacksPair("failed. Using ", 'f', 'e') && LacksPair("HTML content as ", 'f', 'e') && LacksPair("fallback.", 'f', 'e');
    LacksPairConcat("PDF library ", "initialization ", 'f', 'e');
    LacksPairConcat("PDF library " + "initialization ", "failed. Using ", 'f', 'e');
    LacksPairConcat("PDF library " + "initialization " + "failed. Using ", "HTML content as ", 'f', 'e');
    LacksPairConcat("PDF library " + "initialization " + "failed. Using " + "HTML content as ", "fallback.", 'f', 'e');
  }

  lemma ImageBasedErrorLacksI()
    ensures Lacks(ImageBasedError, 'I')
  {
    assert Lacks("PDF extraction ", 'I') && Lacks("failed: The PDF ", 'I') && Lacks("appears to be ", 'I') && Lacks("image-based or ", 'I') && Lacks("empty. Only ", 'I') && Lacks("text-based PDFs ", 'I') && Lacks("are supported.", 'I');
    LacksConcat("PDF extraction ", "failed: The PDF ", 'I');
    LacksConcat("PDF extraction " + "failed: The PDF ", "appears to be ", 'I');
    LacksConcat("PDF extraction " + "failed: The PDF " + "appears to be ", "image-based or ", 'I');
    LacksConcat("PDF extraction " + "failed: The PDF " + "appears to be " + "image-based or ", "empty. Only ", 'I');
    LacksConcat("PDF extraction " + "failed: The PDF " + "appears to be " + "image-based or " + "empty. Only ", "text-based PDFs ", 'I');
    LacksConcat("PDF extraction " + "failed: The PDF " + "appears to be " + "image-based or " + "empty. Only " + "text-based PDFs ", "are supported.", 'I');
  }

  lemma ImageBasedErrorLacksG()
    ensures Lacks(ImageBasedError, 'G')
  {
    assert Lacks("PDF extraction ", 'G') && Lacks("failed: The PDF ", 'G') && Lacks("appears to be ", 'G') && Lacks("image-based or ", 'G') && Lacks("empty. Only ", 'G') && Lacks("text-based PDFs ", 'G') && Lacks("are supported.", 'G');
    LacksConcat("PDF extraction ", "failed: The PDF ", 'G');
    LacksConcat("PDF extraction " + "failed: The PDF ", "appears to be ", 'G');
    LacksConcat("PDF extraction " + "failed: The PDF " + "appears to be ", "image-based or ", 'G');
    LacksConcat("PDF extraction " + "failed: The PDF " + "appears to be " + "image-based or ", "empty. Only ", 'G');
    LacksConcat("PDF extraction " + "failed: The PDF " + "appears to be " + "image-based or " + "empty. Only ", "text-based PDFs ", 'G');
    LacksConcat("PDF extraction " + "failed: The PDF " + "appears to be " + "image-based or " + "empty. Only " + "text-based PDFs ", "are supported.", 'G');
  }

  lemma ImageBasedErrorLacksPairFe()
    ensures LacksPair(ImageBasedError, 'f', 'e')
  {
    assert LacksPair("PDF extraction ", 'f', 'e') && LacksPair("failed: The PDF ", 'f', 'e') && LacksPair("appears to be ", 'f', 'e') && LacksPair("image-based or ", 'f', 'e') && LacksPair("empty. Only ", 'f', 'e') && LacksPair("text-based PDFs ", 'f', 'e') && LacksPair("are supported.", 'f', 'e');
    LacksPairConcat("PDF extraction ", "failed: The PDF ", 'f', 'e');
    LacksPairConcat("PDF extraction " + "failed: The PDF ", "appears to be ", 'f', 'e');
    LacksPairConcat("PDF extraction " + "failed: The PDF " + "appears to be ", "image-based or ", 'f', 'e');
    LacksPairConcat("PDF extraction " + "failed: The PDF " + "appears to be " + "image-based or ", "empty. Only ", 'f', 'e');
    LacksPairConcat("PDF extraction " + "failed: The PDF " + "appears to be " + "image-based or " + "empty. Only ", "text-based PDFs ", 'f', 'e');
    LacksPairConcat("PDF extraction " + "failed: The PDF " + "appears to be " + "image-based or " + "empty. Only " + "text-based PDFs ", "are supported.", 'f', 'e');
  }

  lemma DownloadErrorUnclassified()
    ensures Unclassified(DownloadError)
  {
    DownloadErrorLacksF();
    DownloadErrorLacksI();
    DownloadErrorLacksG();
    LacksNotContains(DownloadError, "fetch", 0);
    LacksNotContains(DownloadError, "Invalid PDF", 0);
    LacksNotContains(DownloadError, "GlobalWorkerOptions.workerSrc", 0);
  }

  lemma InvalidPdfErrorClassified()
    ensures !Contains(InvalidPdfError, "fetch") && Contains(InvalidPdfError, "Invalid PDF")
  {
    InvalidPdfErrorLacksPairFe();
    LacksPairNotContains(InvalidPdfError, "fetch", 0);
    assert StartsWith(InvalidPdfError, "Invalid PDF");
  }

  lemma WorkerErrorUnclassified()
    ensures Unclassified(WorkerError)
  {
    WorkerErrorLacksI();
    WorkerErrorLacksG();
    WorkerErrorLacksPairFe();
    LacksPairNotContains(WorkerError, "fetch", 0);
    LacksNotContains(WorkerError, "Invalid PDF", 0);
    LacksNotContains(WorkerError, "GlobalWorkerOptions.workerSrc", 0);
  }

  lemma ImageBasedErrorUnclassified()
    ensures Unclassified(ImageBasedError)
  {
    ImageBasedErrorLacksI();
    ImageBasedErrorLacksG();
    ImageBasedErrorLacksPairFe();
    LacksPairNotContains(ImageBasedError, "fetch", 0);
    LacksNotContains(ImageBasedError, "Invalid PDF", 0);
    LacksNotContains(ImageBasedError, "GlobalWorkerOptions.workerSrc", 0);
  }

  /** Classifying is idempotent: each of the three rewritten messages is
      classified as itself, and so is any message it leaves alone. */
  lemma ClassifyErrorIdempotent(message: string)
    ensures ClassifyError(ClassifyError(message)) == ClassifyError(message)
    ensures Unclassified(message) ==> ClassifyError(message) == message
  {
    DownloadErrorUnclassified();
    InvalidPdfErrorClassified();
    WorkerErrorUnclassified();
  }

  /** A non-OK HTTP status ends as the download message, whatever the status;
      so does every failure whose message mentions `fetch`, before the other
      two substrings are looked at. */
  lemma HttpErrorIsDownloadError(status: nat, statusText: string)
    ensures ClassifyError(HttpErrorMessage(status, statusText)) == DownloadError
  {
    var m := HttpErrorMessage(status, statusText);
    assert StartsWith(m[10..], "fetch");
    ContainsAt(m, "fetch", 10);
  }

  // ---------------------------------------------------------------------
  // extractTextFromPDF
  // ---------------------------------------------------------------------

  /** `extractTextFromPDF` as written: the emptiness test looks at the whole
      accumulated text, page markers included. */
  function ExtractText(outcome: FetchOutcome, maxPages: Option<nat>): Result<string, string> {
    match outcome
    case NetworkFailure(m) => Err(ClassifyError(m))
    case HttpError(status, statusText) => Err(ClassifyError(HttpErrorMessage(status, statusText)))
    case LoadFailure(m) => Err(ClassifyError(m))
    case Loaded(doc) =>
      var t := FullText(doc, maxPages);
      if IsBlank(t) then Err(ClassifyError(ImageBasedError)) else Ok(t)
  }

  /** No page read up to the cap carried any non-whitespace text. */
  predicate NoTextExtracted(doc: PdfDocument, maxPages: Option<nat>) {
    AllBlank(ReadPages(doc.pages, PagesToExtract(doc.NumPages(), maxPages)))
  }

  predicate AllBlank(ps: seq<PageText>) {
    forall i | 0 <= i < |ps| :: IsBlank(ps[i].text)
  }

  /** `extractTextFromPDF` with the emptiness test it evidently intends:
      fail when no page yielded any text. */
  function ExtractTextIntended(outcome: FetchOutcome, maxPages: Option<nat>): Result<string, string> {
    match outcome
    case NetworkFailure(m) => Err(ClassifyError(m))
    case HttpError(status, statusText) => Err(ClassifyError(HttpErrorMessage(status, statusText)))
    case LoadFailure(m) => Err(ClassifyError(m))
    case Loaded(doc) =>
      if NoTextExtracted(doc, maxPages) then Err(ClassifyError(ImageBasedError)) else Ok(FullText(doc, maxPages))
  }

  /** A PDF whose pages were read but gave only whitespace (scanned pages
      without text items, such as `PdfDocument([Some([])])`) is accepted by
      the code as written, since the page markers make the stream non-blank;
      the intended check rejects it. */
  lemma ImageOnlyPagesAccepted(doc: PdfDocument, maxPages: Option<nat>)
    requires NoTextExtracted(doc, maxPages)
    requires ReadPages(doc.pages, PagesToExtract(doc.NumPages(), maxPages)) != []
    ensures ExtractText(Loaded(doc), maxPages) == Ok(FullText(doc, maxPages))
    ensures ExtractTextIntended(Loaded(doc), maxPages) == Err(ImageBasedError)
  {
    FullTextBlankIff(doc, maxPages);
    ExtractTextIntendedSpec(doc, maxPages);
  }

  /** The intended extraction fails exactly when no page gave text, with the
      image-based message, and it rejects every PDF the written one rejects. */
  lemma ExtractTextIntendedSpec(doc: PdfDocument, maxPages: Option<nat>)
    ensures ExtractTextIntended(Loaded(doc), maxPages).Err? <==> NoTextExtracted(doc, maxPages)
    ensures NoTextExtracted(doc, maxPages) ==> ExtractTextIntended(Loaded(doc), maxPages) == Err(ImageBasedError)
    ensures !NoTextExtracted(doc, maxPages) ==> ExtractTextIntended(Loaded(doc), maxPages) == Ok(FullText(doc, maxPages))
    ensures ExtractText(Loaded(doc), maxPages).Err? ==> ExtractTextIntended(Loaded(doc), maxPages).Err?
    ensures ExtractText(Loaded(doc), maxPages).Err? ==> ExtractText(Loaded(doc), maxPages) == Err(ImageBasedError)
  {
    ImageBasedErrorUnclassified();
    ClassifyErrorIdempotent(ImageBasedError);
    FullTextBlankIff(doc, maxPages);
  }

  /** Reading page `k` adds its section when it was read, and nothing when
      it threw. */
  lemma ReadPagesStep(pages: seq<Option<seq<string>>>, k: nat)
    requires 1 <= k <= |pages|
    ensures pages[k - 1].Some? ==>
      Sections(ReadPages(pages, k)) == Sections(ReadPages(pages, k - 1)) + Section(PageText(k, Join(pages[k - 1].value, " ")))
    ensures pages[k - 1].None? ==> ReadPages(pages, k) == ReadPages(pages, k - 1)
    ensures AllBlank(ReadPages(pages, k)) <==>
      AllBlank(ReadPages(pages, k - 1)) && (pages[k - 1].Some? ==> IsBlank(Join(pages[k - 1].value, " ")))
  {
    var before := ReadPages(pages, k - 1);
    if pages[k - 1].Some? {
      var page := PageText(k, Join(pages[k - 1].value, " "));
      assert ReadPages(pages, k) == before + [page];
      assert (before + [page])[..|before|] == before;
      assert (before + [page])[|before|] == page;
    }
  }

  /** The page loop of `extractTextFromPDF`: `fullText` grows by one
      section per page read and a page that throws is skipped. */
  method ReadSections(doc: PdfDocument, pagesToExtract: nat) returns (fullText: string)
    requires pagesToExtract <= doc.NumPages()
    ensures fullText == Sections(ReadPages(doc.pages, pagesToExtract))
  {
    fullText := "";
    var pageNum := 1;
    while pageNum <= pagesToExtract
      invariant 1 <= pageNum <= pagesToExtract + 1
      invariant fullText == Sections(ReadPages(doc.pages, pageNum - 1))
    {
      ReadPagesStep(doc.pages, pageNum);
      if doc.pages[pageNum - 1].Some? {
        var pageText := Join(doc.pages[pageNum - 1].value, " ");
        fullText := fullText + (PageMarker(pageNum) + pageText);
      }
      pageNum := pageNum + 1;
    }
  }

  /** `extractTextFromPDF` as written: the download and parse failures
      become classified messages, then the pages are read, the note follows
      when pages were capped, and a blank accumulated text is rejected. It
      rejects only what the intended test rejects too. */
  method ExtractTextFromPdf(outcome: FetchOutcome, maxPages: Option<nat>) returns (r: Result<string, string>)
    ensures r == ExtractText(outcome, maxPages)
    ensures r.Err? ==> ExtractTextIntended(outcome, maxPages).Err?
    ensures r.Ok? ==> r.value != ""
  {
    match outcome
    case NetworkFailure(m) =>
      r := Err(ClassifyError(m));
    case HttpError(status, statusText) =>
      r := Err(ClassifyError(HttpErrorMessage(status, statusText)));
    case LoadFailure(m) =>
      r := Err(ClassifyError(m));
    case Loaded(doc) =>
      ExtractTextIntendedSpec(doc, maxPages);
      var pagesToExtract := PagesToExtract(doc.NumPages(), maxPages);
      var fullText := ReadSections(doc, pagesToExtract);
      if pagesToExtract < doc.NumPages() {
        fullText := fullText + TruncationNote(pagesToExtract, doc.NumPages());
      } else {
        assert fullText + "" == fullText;
      }
      assert fullText == FullText(doc, maxPages);
      if IsBlank(fullText) {
        r := Err(ClassifyError(ImageBasedError));
      } else {
        r := Ok(fullText);
      }
  }

  // ---------------------------------------------------------------------
  // extractContent
  // ---------------------------------------------------------------------

  /** `x || 'Unknown'` for a string property. */
  function OrUnknown(s: string): string {
    if s == "" then "Unknown" else s
  }

  /** The text built from the page metadata, or "" when there is no
      metadata or its abstract is empty. */
  function HtmlContent(meta: Option<Paper>): string {
    if meta.Some? && meta.value.abstractText != "" then
      var p := meta.value;
      "Title: " + OrUnknown(p.title) + "\n"
        + "Authors: " + Join(p.authors.GetOr([]), ", ") + "\n"
        + "ArXiv ID: " + OrUnknown(p.arxivId) + "\n\n"
        + "Abstract:\n" + p.abstractText + "\n"
    else ""
  }

  lemma HtmlContentNonEmptyIff(meta: Option<Paper>)
    ensures HtmlContent(meta) != "" <==> meta.Some? && meta.value.abstractText != ""
    ensures HtmlContent(meta) != "" ==> Contains(HtmlContent(meta), meta.value.abstractText)
  {
    if meta.Some? && meta.value.abstractText != "" {
      var h := HtmlContent(meta);
      var p := meta.value;
      var front := "Title: " + OrUnknown(p.title) + "\n" + "Authors: " + Join(p.authors.GetOr([]), ", ") + "\n"
        + "ArXiv ID: " + OrUnknown(p.arxivId) + "\n\n" + "Abstract:\n";
      assert h == front + p.abstractText + "\n";
      assert StartsWith(h[|front|..], p.abstractText);
      ContainsAt(h, p.abstractText, |front|);
    }
  }

  const LimitedNote := "\n\n[Note: Full PDF extraction was limited. Using abstract from HTML.]\n\n"
  const FailedNote := "\n\n[Note: PDF extraction failed. Using abstract and metadata from HTML page.]"

  /** The choice `extractContent` makes from the PDF result and the HTML
      text. */
  function Reconcile(pdf: Result<string, string>, html: string, fastMode: bool): Result<PaperContent, string> {
    match pdf
    case Ok(t) =>
      if t != "" && |t| > |html| then
        Ok(PaperContent(t, if fastMode then Combined else Pdf, !fastMode))
      else if html != "" then
        Ok(PaperContent(html + LimitedNote + t, Combined, false))
      else
        Ok(PaperContent(t, if fastMode then Combined else Pdf, !fastMode))
    case Err(_) =>
      if html != "" then Ok(PaperContent(html + FailedNote, Html, false))
      else Err(NoContentError)
  }

  /** `extractContent`: fast mode caps the PDF at ten pages. */
  function ExtractContent(outcome: FetchOutcome, meta: Option<Paper>, fastMode: bool): Result<PaperContent, string> {
    Reconcile(ExtractTextIntended(outcome, if fastMode then Some(FastModeMaxPages) else None),
              HtmlContent(meta), fastMode)
  }

  /** `extractContent` over `extractTextFromPDF` as written. */
  function ExtractContentAsWritten(outcome: FetchOutcome, meta: Option<Paper>, fastMode: bool): Result<PaperContent, string> {
    Reconcile(ExtractText(outcome, if fastMode then Some(FastModeMaxPages) else None), HtmlContent(meta), fastMode)
  }

  /** The written and the intended `extractContent` differ only for a PDF
      that was loaded, whose pages read up to the cap gave no text, and
      whose stream still carries a page marker or the truncation note. */
  lemma ExtractContentAgrees(outcome: FetchOutcome, meta: Option<Paper>, fastMode: bool)
    ensures var maxPages := if fastMode then Some(FastModeMaxPages) else None;
      ExtractContentAsWritten(outcome, meta, fastMode) != ExtractContent(outcome, meta, fastMode) ==>
        && outcome.Loaded?
        && NoTextExtracted(outcome.doc, maxPages)
        && !IsBlank(FullText(outcome.doc, maxPages))
  {
    if outcome.Loaded? {
      var maxPages := if fastMode then Some(FastModeMaxPages) else None;
      ExtractTextIntendedSpec(outcome.doc, maxPages);
      FullTextBlankIff(outcome.doc, maxPages);
    }
  }

  /** Content extracted either way is never empty. */
  lemma ExtractContentNonEmpty(outcome: FetchOutcome, meta: Option<Paper>, fastMode: bool)
    ensures ExtractContent(outcome, meta, fastMode).Ok? ==> ExtractContent(outcome, meta, fastMode).value.fullText != ""
    ensures ExtractContentAsWritten(outcome, meta, fastMode).Ok? ==>
      ExtractContentAsWritten(outcome, meta, fastMode).value.fullText != ""
  {
    var maxPages := if fastMode then Some(FastModeMaxPages) else None;
    ExtractTextNonEmpty(outcome, maxPages);
    ReconcileNonEmpty(ExtractTextIntended(outcome, maxPages), HtmlContent(meta), fastMode);
    ReconcileNonEmpty(ExtractText(outcome, maxPages), HtmlContent(meta), fastMode);
  }

  /** Text accepted by either check is never empty. */
  lemma ExtractTextNonEmpty(outcome: FetchOutcome, maxPages: Option<nat>)
    ensures ExtractText(outcome, maxPages).Ok? ==> ExtractText(outcome, maxPages).value != ""
    ensures ExtractTextIntended(outcome, maxPages).Ok? ==> ExtractTextIntended(outcome, maxPages).value != ""
  {
    if outcome.Loaded? {
      FullTextBlankIff(outcome.doc, maxPages);
      if !NoTextExtracted(outcome.doc, maxPages) {
        assert ReadPages(outcome.doc.pages, PagesToExtract(outcome.doc.NumPages(), maxPages)) != [];
      }
    }
  }

  /** Reconciling a non-empty PDF text, or a failure, never gives empty
      content. */
  lemma ReconcileNonEmpty(pdf: Result<string, string>, html: string, fastMode: bool)
    requires pdf.Ok? ==> pdf.value != ""
    ensures Reconcile(pdf, html, fastMode).Ok? ==> Reconcile(pdf, html, fastMode).value.fullText != ""
  {
  }

  /** The decision table of `extractContent`, row by row. */
  lemma ReconcileTable(pdf: Result<string, string>, html: string, fastMode: bool)
    ensures var r := Reconcile(pdf, html, fastMode);
      && (r.Err? <==> pdf.Err? && html == "")
      && (r.Err? ==> r.error == NoContentError)
      && (r.Ok? ==> (r.value.hasFullPDF ==> r.value.source == Pdf))
      && (r.Ok? ==> (r.value.source == Html <==> pdf.Err?))
      && (pdf.Ok? && pdf.value != "" ==>
            (r.value.hasFullPDF <==> !fastMode && |pdf.value| > |html|))
      && (pdf.Ok? && |pdf.value| > |html| ==>
            r.value.fullText == pdf.value && r.value.source == (if fastMode then Combined else Pdf))
      && (pdf.Ok? && |pdf.value| <= |html| && html != "" ==>
            r.value == PaperContent(html + LimitedNote + pdf.value, Combined, false))
      && (pdf.Err? && html != "" ==> r.value == PaperContent(html + FailedNote, Html, false))
  {
  }

  /** Whatever the outcome, no text is lost: the result holds the PDF text
      when the PDF was read, and starts with the HTML text whenever the PDF
      text did not win. */
  lemma ReconcileKeepsText(pdf: Result<string, string>, html: string, fastMode: bool)
    requires Reconcile(pdf, html, fastMode).Ok?
    ensures var c := Reconcile(pdf, html, fastMode).value;
      && (pdf.Ok? ==> Contains(c.fullText, pdf.value))
      && (!(pdf.Ok? && c.fullText == pdf.value) ==> StartsWith(c.fullText, html))
      && |c.fullText| >= |html|
  {
    var c := Reconcile(pdf, html, fastMode).value;
    if pdf.Ok? {
      if c.fullText == html + LimitedNote + pdf.value {
        assert StartsWith(c.fullText[|html + LimitedNote|..], pdf.value);
        ContainsAt(c.fullText, pdf.value, |html + LimitedNote|);
      } else {
        assert StartsWith(c.fullText, pdf.value);
      }
    }
  }

  // ---------------------------------------------------------------------
  // formatChunkForEmbedding
  // ---------------------------------------------------------------------

  /** `formatChunkForEmbedding`: four lines of metadata and text. */
  function FormatChunkForEmbedding(chunk: Chunk, title: string, authors: seq<string>): string {
    Join(["Paper: " + title, "Authors: " + Join(authors, ", "), "Page: " + NatToString(chunk.pageNumber),
          "Content: " + chunk.text], "\n")
  }

  /** When title, authors and chunk text hold no line break, splitting the
      formatted text into lines gives back exactly the four fields. */
  lemma FormatChunkLines(chunk: Chunk, title: string, authors: seq<string>)
    requires Lacks(title, '\n') && Lacks(Join(authors, ", "), '\n') && Lacks(chunk.text, '\n')
    ensures SplitOn(FormatChunkForEmbedding(chunk, title, authors), '\n')
      == ["Paper: " + title, "Authors: " + Join(authors, ", "),
          "Page: " + NatToString(chunk.pageNumber), "Content: " + chunk.text]
  {
    var lines := ["Paper: " + title, "Authors: " + Join(authors, ", "), "Page: " + NatToString(chunk.pageNumber),
                  "Content: " + chunk.text];
    assert Lacks(NatToString(chunk.pageNumber), '\n');
    JoinSplitOn(lines, '\n');
  }
}
