/** `PDFExtractor.createChunks`: the page-marked text is split on the
    markers `[Page <digits>]\n` back into numbered pages, and each page with
    some non-whitespace text is cut into windows of 1000 characters that
    start 800 characters apart, numbered by one counter over the whole
    document. */
module Chunker {
  import opened Wrappers
  import opened Text
  import opened PdfExtractor

  // ---------------------------------------------------------------------
  // Splitting on page markers
  // ---------------------------------------------------------------------

  /** Length of the run of ASCII digits at the start of `s`. */
  function DigitRun(s: string): (n: nat)
    ensures n <= |s| && AllDigits(s[..n])
    ensures n < |s| ==> !IsDigit(s[n])
  {
    if s != [] && IsDigit(s[0]) then
      var n := 1 + DigitRun(s[1..]);
      assert s[..n] == [s[0]] + s[1..][..n - 1];
      n
    else 0
  }

  /** A marker `[Page <digits>]\n` at the very start of `s`: its digits and
      its length. The digit run is maximal, as the greedy `\d+` of the
      pattern makes it. */
  function MarkerAt(s: string): (r: Option<(string, nat)>)
    ensures r.Some? ==> 9 <= r.value.1 <= |s| && AllDigits(r.value.0) && r.value.0 != []
  {
    if StartsWith(s, "[Page ") then
      var d := DigitRun(s[6..]);
      assert s[6..][..d] == s[6..6 + d];
      if d >= 1 && StartsWith(s[6 + d..], "]\n") then Some((s[6..6 + d], 8 + d)) else None
    else None
  }

  /** One page as the split yields it: the captured digits and the text up
      to the next marker. */
  datatype RawPage = RawPage(digits: string, text: string)

  /** The result of `split` with the page pattern: the text before the
      first marker, then one captured number and one text per marker. */
  datatype Segments = Segments(lead: string, pages: seq<RawPage>)

  /** `s.split(/\[Page (\d+)\]\n/g)`: markers are found left to right, each
      search resuming after the previous marker. */
  function SplitPages(s: string): (r: Segments)
    ensures forall i | 0 <= i < |r.pages| :: AllDigits(r.pages[i].digits)
    decreases |s|
  {
    if s == [] then Segments("", [])
    else
      match MarkerAt(s)
      case Some((digits, len)) =>
        var rest := SplitPages(s[len..]);
        Segments("", [RawPage(digits, rest.lead)] + rest.pages)
      case None =>
        var rest := SplitPages(s[1..]);
        Segments([s[0]] + rest.lead, rest.pages)
  }

  /** The pages of the split with their numbers read by `parseInt`. */
  function ParsePages(s: string): seq<PageText> {
    var raw := SplitPages(s).pages;
    seq(|raw|, i requires 0 <= i < |raw| => PageText(ParseDigits(raw[i].digits), raw[i].text))
  }

  /** `s` holds no `[Page ` at all, so no marker can start inside it. */
  predicate NoPageTag(s: string) {
    !Contains(s, "[Page ")
  }

  lemma NoMarkerAtStart(x: string, y: string)
    requires x != [] && !StartsWith(x, "[Page ") && (y == [] || y[0] == '\n')
    ensures MarkerAt(x + y).None?
  {
    if |x| >= 6 {
      assert (x + y)[..6] == x[..6];
    } else if y != [] && |x + y| >= 6 {
      assert (x + y)[|x|] == '\n';
      assert Lacks("[Page ", '\n');
      assert (x + y)[..6][|x|] == '\n';
    }
  }

  /** Text without a page tag, followed by a line break or nothing, joins
      the lead of what follows. */
  lemma {:induction false} SplitPrefix(x: string, y: string)
    requires NoPageTag(x) && (y == [] || y[0] == '\n')
    ensures SplitPages(x + y) == Segments(x + SplitPages(y).lead, SplitPages(y).pages)
    decreases |x|
  {
    if x == [] {
      assert x + y == y;
    } else {
      NoMarkerAtStart(x, y);
      assert (x + y)[1..] == x[1..] + y;
      SplitPrefix(x[1..], y);
      assert [x[0]] + (x[1..] + SplitPages(y).lead) == x + SplitPages(y).lead;
    }
  }

  lemma {:induction false} DigitRunOf(d: string, rest: string)
    requires AllDigits(d) && (rest == [] || !IsDigit(rest[0]))
    ensures DigitRun(d + rest) == |d|
    decreases |d|
  {
    if d == [] {
      assert d + rest == rest;
    } else {
      assert (d + rest)[1..] == d[1..] + rest;
      DigitRunOf(d[1..], rest);
    }
  }

  /** A marker written by the extractor is recognised as one. */
  lemma MarkerOf(n: nat, rest: string)
    ensures MarkerAt("[Page " + NatToString(n) + "]\n" + rest)
      == Some((NatToString(n), 8 + |NatToString(n)|))
  {
    var d := NatToString(n);
    var s := "[Page " + d + "]\n" + rest;
    assert s[..6] == "[Page ";
    assert s[6..] == d + ("]\n" + rest);
    DigitRunOf(d, "]\n" + rest);
    assert s[6 + |d|..] == "]\n" + rest;
    assert s[6..6 + |d|] == d;
  }

  lemma {:induction false} SectionsCons(e: PageText, rest: seq<PageText>)
    ensures Sections([e] + rest) == Section(e) + Sections(rest)
    decreases |rest|
  {
    if rest == [] {
      assert [e] + rest == [e];
      assert [e][..0] == [];
      assert Sections([e]) == Sections([]) + Section(e);
    } else {
      var all := [e] + rest;
      var init := rest[..|rest| - 1];
      var lst := rest[|rest| - 1];
      assert all[..|all| - 1] == [e] + init;
      assert all[|all| - 1] == lst;
      SectionsCons(e, init);
      assert Sections(all) == Sections([e] + init) + Section(lst);
      assert Sections(rest) == Sections(init) + Section(lst);
    }
  }

  /** A leading line break is never a marker: it joins the lead. */
  lemma SplitAfterNewline(z: string)
    ensures SplitPages("\n" + z) == Segments("\n" + SplitPages(z).lead, SplitPages(z).pages)
  {
    var s := "\n" + z;
    assert s[0] == '\n';
    assert !StartsWith(s, "[Page ");
    assert s[1..] == z;
  }

  /** A marker written by the extractor starts a new page. */
  lemma SplitAtMarker(n: nat, rest: string)
    ensures SplitPages("[Page " + NatToString(n) + "]\n" + rest)
      == Segments("", [RawPage(NatToString(n), SplitPages(rest).lead)] + SplitPages(rest).pages)
  {
    var d := NatToString(n);
    var s := "[Page " + d + "]\n" + rest;
    MarkerOf(n, rest);
    assert s[8 + |d|..] == rest;
  }

  lemma SectionShape(e: PageText, y: string)
    ensures Section(e) + y == "\n" + ("[Page " + NatToString(e.number) + "]\n" + (e.text + y))
  {
    assert "\n[Page " == "\n" + "[Page ";
  }

  /** One section followed by text that starts with a line break (or
      nothing): the split yields the section's page with that text's lead
      appended. */
  lemma SplitSection(e: PageText, y: string)
    requires NoPageTag(e.text) && (y == [] || y[0] == '\n')
    ensures SplitPages(Section(e) + y)
      == Segments("\n", [RawPage(NatToString(e.number), e.text + SplitPages(y).lead)] + SplitPages(y).pages)
  {
    var rest := e.text + y;
    var z := "[Page " + NatToString(e.number) + "]\n" + rest;
    SectionShape(e, y);
    SplitAfterNewline(z);
    SplitAtMarker(e.number, rest);
    SplitPrefix(e.text, y);
    assert "\n" + "" == "\n";
  }

  /** The pages the split recovers from the sections of `es` followed by
      `tail`: each page text gains the line break that starts the next
      marker, and the last one gains the tail. */
  function Recovered(es: seq<PageText>, tail: string): seq<RawPage>
    requires es != []
  {
    if |es| == 1 then [RawPage(NatToString(es[0].number), es[0].text + tail)]
    else [RawPage(NatToString(es[0].number), es[0].text + "\n")] + Recovered(es[1..], tail)
  }

  predicate TextsHaveNoPageTag(es: seq<PageText>) {
    forall i | 0 <= i < |es| :: NoPageTag(es[i].text)
  }

  /** Text without a page tag splits into a lead and no pages. */
  lemma SplitNoSections(tail: string)
    requires NoPageTag(tail)
    ensures SplitPages(tail) == Segments(tail, [])
  {
    SplitPrefix(tail, []);
    assert tail + [] == tail;
  }

  /** Printing pages as sections and splitting the result again gives back
      the pages, as long as no page text holds `[Page `. */
  lemma {:induction false} SplitSections(es: seq<PageText>, tail: string)
    requires es != [] && TextsHaveNoPageTag(es)
    requires NoPageTag(tail) && (tail == [] || tail[0] == '\n')
    ensures SplitPages(Sections(es) + tail) == Segments("\n", Recovered(es, tail))
    decreases |es|
  {
    var e, rest := es[0], es[1..];
    assert es == [e] + rest;
    SectionsCons(e, rest);
    var y := Sections(rest) + tail;
    SectionsThenTail(rest, tail);
    assert Sections(es) + tail == Section(e) + y;
    SplitSection(e, y);
    if rest == [] {
      SplitNoSections(tail);
      assert y == tail;
    } else {
      SplitSections(rest, tail);
    }
  }

  /** The sections of `es` followed by the tail start with a line break or
      are empty. */
  lemma SectionsThenTail(es: seq<PageText>, tail: string)
    requires tail == [] || tail[0] == '\n'
    ensures var y := Sections(es) + tail; y == [] || y[0] == '\n'
  {
    if es != [] {
      SectionsCons(es[0], es[1..]);
      assert es == [es[0]] + es[1..];
      assert Section(es[0])[0] == '\n';
    } else {
      assert Sections(es) + tail == tail;
    }
  }

  // ---------------------------------------------------------------------
  // Round trip with the extractor
  // ---------------------------------------------------------------------

  /** The pages `createChunks` recovers from the pages read: same numbers,
      same order, each text followed by a line break except the last, which
      is followed by the tail. */
  function RecoveredPages(ps: seq<PageText>, tail: string): (r: seq<PageText>)
    ensures |r| == |ps|
  {
    seq(|ps|, i requires 0 <= i < |ps| => PageText(ps[i].number, ps[i].text + (if i < |ps| - 1 then "\n" else tail)))
  }

  lemma {:induction false} RecoveredParsed(es: seq<PageText>, tail: string)
    requires es != []
    ensures var raw := Recovered(es, tail);
      |raw| == |es|
      && forall i | 0 <= i < |es| ::
           raw[i] == RawPage(NatToString(es[i].number), RecoveredPages(es, tail)[i].text)
    decreases |es|
  {
    if |es| > 1 {
      RecoveredParsed(es[1..], tail);
    }
  }

  /** The note written after the last page holds no page tag. */
  lemma TruncationNoteHasNoPageTag(extracted: nat, total: nat)
    ensures NoPageTag(TruncationNote(extracted, total))
    ensures TruncationNote(extracted, total)[0] == '\n'
  {
    var d1, d2 := NatToString(extracted), NatToString(total);
    DigitsLackBracket(d1);
    DigitsLackBracket(d2);
    var a, b1, b2, b3, b4, c :=
      "\n\n[Note: Only first ", " pages extracted ", "for faster ", "processing. ", "Full PDF has ", " pages.]";
    assert LacksPair(a, '[', 'P');
    assert LacksPair(b1, '[', 'P') && LacksPair(b2, '[', 'P') && LacksPair(b3, '[', 'P');
    assert LacksPair(b4, '[', 'P') && LacksPair(c, '[', 'P');
    LacksPairConcat(a, d1, '[', 'P');
    LacksPairConcat(a + d1, b1, '[', 'P');
    LacksPairConcat(a + d1 + b1, b2, '[', 'P');
    LacksPairConcat(a + d1 + b1 + b2, b3, '[', 'P');
    LacksPairConcat(a + d1 + b1 + b2 + b3, b4, '[', 'P');
    LacksPairConcat(a + d1 + b1 + b2 + b3 + b4, d2, '[', 'P');
    LacksPairConcat(a + d1 + b1 + b2 + b3 + b4 + d2, c, '[', 'P');
    assert TruncationNote(extracted, total) == a + d1 + b1 + b2 + b3 + b4 + d2 + c;
    LacksPairNotContains(TruncationNote(extracted, total), "[Page ", 0);
  }

  lemma DigitsLackBracket(d: string)
    requires AllDigits(d)
    ensures LacksPair(d, '[', 'P')
  {
  }

  /** What follows the last page section of the extracted text. */
  function Tail(doc: PdfDocument, maxPages: Option<nat>): string {
    var p := PagesToExtract(doc.NumPages(), maxPages);
    if p < doc.NumPages() then TruncationNote(p, doc.NumPages()) else ""
  }

  /** Splitting the sections of `ps` followed by `tail` and parsing the
      page numbers gives back the pages, each text extended as
      `RecoveredPages` says. */
  lemma ParseSectionsRoundTrip(ps: seq<PageText>, tail: string)
    requires TextsHaveNoPageTag(ps)
    requires NoPageTag(tail) && (tail == [] || tail[0] == '\n')
    ensures ParsePages(Sections(ps) + tail) == RecoveredPages(ps, tail)
  {
    if ps == [] {
      assert Sections(ps) + tail == tail;
      SplitNoSections(tail);
    } else {
      SplitSections(ps, tail);
      RecoveredParsed(ps, tail);
      var raw := SplitPages(Sections(ps) + tail).pages;
      forall i | 0 <= i < |ps| ensures ParseDigits(raw[i].digits) == ps[i].number {
        ParseNatToString(ps[i].number);
      }
    }
  }

  /** The chunker's split recovers exactly the pages the extractor read, in
      ascending order with their numbers; every page text but the last is
      followed by a line break, and the last is followed by the truncation
      note when pages were capped. A page that failed is absent. */
  lemma ParseExtractedText(doc: PdfDocument, maxPages: Option<nat>)
    requires TextsHaveNoPageTag(ReadPages(doc.pages, PagesToExtract(doc.NumPages(), maxPages)))
    ensures ParsePages(FullText(doc, maxPages))
      == RecoveredPages(ReadPages(doc.pages, PagesToExtract(doc.NumPages(), maxPages)), Tail(doc, maxPages))
  {
    var p := PagesToExtract(doc.NumPages(), maxPages);
    var tail := Tail(doc, maxPages);
    if p < doc.NumPages() {
      TruncationNoteHasNoPageTag(p, doc.NumPages());
    } else {
      assert !Contains(tail, "[Page ");
    }
    ParseSectionsRoundTrip(ReadPages(doc.pages, p), tail);
  }

  // ---------------------------------------------------------------------
  // Windows
  // ---------------------------------------------------------------------

  /** The chunks of one page from character `start` on, numbered from
      `index`. */
  function PageWindows(p: PageText, index: nat, start: nat): seq<Chunk>
    decreases |p.text| - start
  {
    if start < |p.text| then
      var end := if start + ChunkSize < |p.text| then start + ChunkSize else |p.text|;
      [Chunk(p.number, index, p.text[start..end], start, end)]
        + PageWindows(p, index + 1, start + (ChunkSize - ChunkOverlap))
    else []
  }

  /** The chunks of the pages `ps`, numbered from `index`; a page that is
      empty or only whitespace gives none. */
  function ChunkPages(ps: seq<PageText>, index: nat): seq<Chunk> {
    if ps == [] then []
    else
      var here := PageChunks(ps[0], index);
      here + ChunkPages(ps[1..], index + |here|)
  }

  /** The windows of one page, or none when the page is blank. */
  function PageChunks(p: PageText, index: nat): seq<Chunk> {
    if IsBlank(p.text) then [] else PageWindows(p, index, 0)
  }

  /** The inner loop of `createChunks` for one page with text: push a
      window while its start is inside the page, then move the start on by
      chunk size minus overlap. */
  method PushWindows(chunks: seq<Chunk>, pageNumber: nat, pageText: string) returns (r: seq<Chunk>)
    ensures r == chunks + PageWindows(PageText(pageNumber, pageText), |chunks|, 0)
  {
    ghost var page := PageText(pageNumber, pageText);
    r := chunks;
    var chunkIndex := |chunks|;
    var startIdx := 0;
    while startIdx < |pageText|
      invariant chunkIndex == |r|
      invariant r + PageWindows(page, chunkIndex, startIdx) == chunks + PageWindows(page, |chunks|, 0)
      decreases |pageText| - startIdx
    {
      var endIdx := if startIdx + ChunkSize < |pageText| then startIdx + ChunkSize else |pageText|;
      var chunk := Chunk(pageNumber, chunkIndex, pageText[startIdx..endIdx], startIdx, endIdx);
      assert PageWindows(page, chunkIndex, startIdx)
        == [chunk] + PageWindows(page, chunkIndex + 1, startIdx + (ChunkSize - ChunkOverlap));
      r := r + [chunk];
      chunkIndex := chunkIndex + 1;
      startIdx := startIdx + (ChunkSize - ChunkOverlap);
    }
    assert PageWindows(page, chunkIndex, startIdx) == [];
  }

  /** One step of the `createChunks` loop: pushing the windows of page
      `ps[i]` (none when it is blank) keeps the chunks so far followed by
      the chunks of the remaining pages equal to the whole result. */
  lemma ChunkPagesStep(ps: seq<PageText>, i: nat, chunks: seq<Chunk>)
    requires i < |ps|
    ensures chunks + ChunkPages(ps[i..], |chunks|)
      == (chunks + PageChunks(ps[i], |chunks|)) + ChunkPages(ps[i + 1..], |chunks + PageChunks(ps[i], |chunks|)|)
  {
    var qs := ps[i..];
    assert qs[0] == ps[i] && qs[1..] == ps[i + 1..];
    var here := PageChunks(ps[i], |chunks|);
    var tail := ChunkPages(ps[i + 1..], |chunks| + |here|);
    assert ChunkPages(qs, |chunks|) == here + tail;
    ConcatAssoc(chunks, here, tail);
  }

  /** `createChunks`: split on the markers, then for each page with text
      push its windows, numbering them with one counter. */
  method CreateChunks(fullText: string) returns (chunks: seq<Chunk>)
    ensures chunks == ChunkPages(ParsePages(fullText), 0)
  {
    ghost var parsed := ParsePages(fullText);
    var pages := SplitPages(fullText).pages;
    assert |parsed| == |pages|
      && forall k | 0 <= k < |pages| :: parsed[k] == PageText(ParseDigits(pages[k].digits), pages[k].text);
    chunks := [];
    var i := 0;
    assert parsed[0..] == parsed;
    while i < |pages|
      invariant 0 <= i <= |pages| && |parsed| == |pages|
      invariant chunks + ChunkPages(parsed[i..], |chunks|) == ChunkPages(parsed, 0)
    {
      var pageNumber := ParseDigits(pages[i].digits);
      var pageText := pages[i].text;
      assert parsed[i] == PageText(pageNumber, pageText);
      ghost var before := chunks;
      if !IsBlank(pageText) {
        chunks := PushWindows(chunks, pageNumber, pageText);
      }
      assert chunks == before + PageChunks(parsed[i], |before|);
      ChunkPagesStep(parsed, i, before);
      i := i + 1;
    }
  }

  // ---------------------------------------------------------------------
  // Properties of the chunks
  // ---------------------------------------------------------------------

  /** The `j`-th window of page `p` when windows start at `start` and are
      numbered from `index`: it starts `800 j` characters later, ends 1000
      characters after its start or at the end of the page, whichever comes
      first, and is the text between those offsets. */
  predicate WindowAt(p: PageText, index: nat, start: nat, j: nat, c: Chunk) {
    && c.pageNumber == p.number
    && c.chunkIndex == index + j
    && c.startChar == start + 800 * j
    && c.endChar == (if start + 800 * j + 1000 < |p.text| then start + 800 * j + 1000 else |p.text|)
    && c.startChar < c.endChar <= |p.text|
    && c.text == p.text[c.startChar..c.endChar]
  }

  /** Closed form of one page's windows: as many as there are window starts
      inside the page, each as `WindowAt` describes. */
  lemma {:induction false} PageWindowsShape(p: PageText, index: nat, start: nat)
    ensures start < |p.text| ==> |PageWindows(p, index, start)| == (|p.text| - start + 799) / 800
    ensures start >= |p.text| ==> PageWindows(p, index, start) == []
    ensures forall j | 0 <= j < |PageWindows(p, index, start)| ::
      WindowAt(p, index, start, j, PageWindows(p, index, start)[j])
    decreases |p.text| - start
  {
    if start < |p.text| {
      PageWindowsShape(p, index + 1, start + 800);
      var cs := PageWindows(p, index, start);
      var rest := PageWindows(p, index + 1, start + 800);
      assert cs[1..] == rest;
      forall j | 0 <= j < |cs| ensures WindowAt(p, index, start, j, cs[j]) {
        if j > 0 {
          assert cs[j] == rest[j - 1];
          assert WindowAt(p, index + 1, start + 800, j - 1, rest[j - 1]);
        }
      }
    }
  }

  /** Character `q` of the page lies inside some window. */
  predicate Covered(cs: seq<Chunk>, q: nat) {
    exists j | 0 <= j < |cs| :: cs[j].startChar <= q < cs[j].endChar
  }

  /** Every window of a page is at most 1000 characters long, exactly 1000
      unless it reaches the end of the page; consecutive windows start 800
      characters apart; the last ends at the end of the page; every
      character of the page lies in some window. */
  lemma PageWindowsCover(p: PageText, index: nat)
    ensures forall j | 0 <= j < |PageWindows(p, index, 0)| ::
      PageWindows(p, index, 0)[j].endChar - PageWindows(p, index, 0)[j].startChar <= ChunkSize
      && (PageWindows(p, index, 0)[j].endChar - PageWindows(p, index, 0)[j].startChar == ChunkSize
          || PageWindows(p, index, 0)[j].endChar == |p.text|)
    ensures forall j | 0 <= j < |PageWindows(p, index, 0)| - 1 ::
      PageWindows(p, index, 0)[j + 1].startChar == PageWindows(p, index, 0)[j].startChar + (ChunkSize - ChunkOverlap)
    ensures |p.text| > 0 ==>
      |PageWindows(p, index, 0)| > 0 && PageWindows(p, index, 0)[|PageWindows(p, index, 0)| - 1].endChar == |p.text|
    ensures forall q | 0 <= q < |p.text| :: Covered(PageWindows(p, index, 0), q)
  {
    PageWindowsShape(p, index, 0);
    var cs := PageWindows(p, index, 0);
    var L := |p.text|;
    assert forall j | 0 <= j < |cs| :: WindowAt(p, index, 0, j, cs[j]);
    if L > 0 {
      var last := |cs| - 1;
      assert |cs| == (L + 799) / 800;
      assert 800 * last + 1000 >= L;
    }
    forall q | 0 <= q < L ensures Covered(cs, q) {
      var j := q / 800;
      assert 800 * j <= q < 800 * j + 800;
      assert j < |cs| by {
        assert |cs| == (L + 799) / 800;
      }
      assert WindowAt(p, index, 0, j, cs[j]);
      assert cs[j].startChar <= q < cs[j].endChar;
    }
  }

  /** Chunk indices over the whole result run from `index` upwards in
      emission order, with no reset at page boundaries. */
  lemma {:induction false} ChunkIndicesConsecutive(ps: seq<PageText>, index: nat)
    ensures forall k | 0 <= k < |ChunkPages(ps, index)| :: ChunkPages(ps, index)[k].chunkIndex == index + k
    decreases |ps|
  {
    if ps != [] {
      var here := PageChunks(ps[0], index);
      PageWindowsShape(ps[0], index, 0);
      ChunkIndicesConsecutive(ps[1..], index + |here|);
      var cs := ChunkPages(ps, index);
      var rest := ChunkPages(ps[1..], index + |here|);
      assert cs == here + rest;
      forall k | 0 <= k < |cs| ensures cs[k].chunkIndex == index + k {
        if k < |here| {
          assert cs[k] == here[k];
          assert WindowAt(ps[0], index, 0, k, here[k]);
        } else {
          assert cs[k] == rest[k - |here|];
        }
      }
    }
  }

  /** A chunk lies within one page that has text: it carries that page's
      number and is the text between its offsets, at most 1000 characters. */
  predicate ChunkOfPage(c: Chunk, p: PageText) {
    && !IsBlank(p.text)
    && c.pageNumber == p.number
    && c.startChar < c.endChar <= |p.text|
    && c.endChar - c.startChar <= ChunkSize
    && c.text == p.text[c.startChar..c.endChar]
  }

  predicate InSomePage(c: Chunk, ps: seq<PageText>) {
    exists i | 0 <= i < |ps| :: ChunkOfPage(c, ps[i])
  }

  lemma {:induction false} ChunksWithinPages(ps: seq<PageText>, index: nat)
    ensures forall k | 0 <= k < |ChunkPages(ps, index)| :: InSomePage(ChunkPages(ps, index)[k], ps)
    decreases |ps|
  {
    if ps != [] {
      var here := PageChunks(ps[0], index);
      PageWindowsShape(ps[0], index, 0);
      ChunksWithinPages(ps[1..], index + |here|);
      var cs := ChunkPages(ps, index);
      var rest := ChunkPages(ps[1..], index + |here|);
      assert cs == here + rest;
      forall k | 0 <= k < |cs| ensures InSomePage(cs[k], ps) {
        if k < |here| {
          assert cs[k] == here[k];
          assert WindowAt(ps[0], index, 0, k, here[k]);
          assert ChunkOfPage(cs[k], ps[0]);
        } else {
          assert cs[k] == rest[k - |here|];
          assert InSomePage(rest[k - |here|], ps[1..]);
          var i :| 0 <= i < |ps[1..]| && ChunkOfPage(rest[k - |here|], ps[1..][i]);
          assert ps[1..][i] == ps[i + 1];
        }
      }
    }
  }

  /** Every page with text gives at least one chunk. */
  lemma {:induction false} PagesWithTextChunked(ps: seq<PageText>, index: nat, i: nat)
    requires i < |ps| && !IsBlank(ps[i].text)
    ensures exists k | 0 <= k < |ChunkPages(ps, index)| :: ChunkPages(ps, index)[k].pageNumber == ps[i].number
    decreases i
  {
    var here := PageChunks(ps[0], index);
    var cs := ChunkPages(ps, index);
    var rest := ChunkPages(ps[1..], index + |here|);
    assert cs == here + rest;
    if i == 0 {
      PageWindowsShape(ps[0], index, 0);
      assert |ps[0].text| > 0;
      assert cs[0] == here[0];
      assert WindowAt(ps[0], index, 0, 0, here[0]);
    } else {
      PagesWithTextChunked(ps[1..], index + |here|, i - 1);
      var k :| 0 <= k < |rest| && rest[k].pageNumber == ps[1..][i - 1].number;
      assert cs[|here| + k] == rest[k];
    }
  }

  /** Text without any page marker, including text before the first
      marker, is never chunked: marker-free input gives no chunks. */
  lemma MarkerFreeTextGivesNoChunks(s: string)
    requires NoPageTag(s)
    ensures ParsePages(s) == [] && ChunkPages(ParsePages(s), 0) == []
  {
    SplitNoSections(s);
  }

  /** A text the intended extraction accepts, with page texts free of page
      tags, always yields at least one chunk. */
  lemma AcceptedTextGivesChunks(doc: PdfDocument, maxPages: Option<nat>)
    requires ExtractTextIntended(Loaded(doc), maxPages).Ok?
    requires TextsHaveNoPageTag(ReadPages(doc.pages, PagesToExtract(doc.NumPages(), maxPages)))
    ensures |ChunkPages(ParsePages(FullText(doc, maxPages)), 0)| > 0
  {
    var p := PagesToExtract(doc.NumPages(), maxPages);
    var ps := ReadPages(doc.pages, p);
    ParseExtractedText(doc, maxPages);
    assert !NoTextExtracted(doc, maxPages);
    var i :| 0 <= i < |ps| && !IsBlank(ps[i].text);
    var parsed := ParsePages(FullText(doc, maxPages));
    var w :| 0 <= w < |ps[i].text| && !IsWhitespace(ps[i].text[w]);
    assert parsed[i].text[w] == ps[i].text[w];
    PagesWithTextChunked(parsed, 0, i);
  }
}
