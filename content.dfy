/** The content script's own logic on arXiv pages: reading the paper id from
    the URL, the title fallback, the tag widget (suggestions and the
    duplicate check), the collections view, the author line, the markdown
    renderer of the chat and the `/clear-pdf-cache` command. The DOM around
    them is not modelled. */
module Content {
  import opened Wrappers
  import opened Text
  import opened Papers
  import opened Background

  // ---------------------------------------------------------------------
  // The paper id in the URL
  // ---------------------------------------------------------------------

  predicate EndsWith(s: string, suffix: string) {
    |suffix| <= |s| && s[|s| - |suffix|..] == suffix
  }

  /** The index just after the last `/` of `s` (0 when there is none): the
      final path segment is `s[LastSegmentStart(s)..]`. */
  function LastSegmentStart(s: string): (k: nat)
    ensures k <= |s| && Lacks(s[k..], '/')
    ensures k > 0 ==> s[k - 1] == '/'
  {
    if s == [] then 0
    else if s[|s| - 1] == '/' then |s|
    else
      var k := LastSegmentStart(s[..|s| - 1]);
      assert s[k..] == s[..|s| - 1][k..] + [s[|s| - 1]];
      k
  }

  /** The segment ends with `v` and at least one digit, with something
      before the `v`. */
  predicate VersionSuffixed(seg: string) {
    var n := TrailingDigits(seg);
    0 < n && n + 2 <= |seg| && seg[|seg| - n - 1] == 'v'
  }

  /** The lazy `([^\/]+?)(?:v\d+)?$`: the shortest non-empty prefix after
      which only `v<digits>` or nothing remains. */
  function StripVersion(seg: string): (id: string)
    ensures |id| <= |seg| && id == seg[..|id|]
    ensures seg != [] ==> id != []
  {
    if VersionSuffixed(seg) then seg[..|seg| - TrailingDigits(seg) - 1] else seg
  }

  /** `pathname.match(/\/(abs|pdf)\/([^\/]+?)(?:v\d+)?$/)`: the final path
      segment after `/abs/` or `/pdf/`, without its version. */
  function ParseArxivId(path: string): (r: Option<string>)
    ensures r.Some? ==> r.value != [] && Lacks(r.value, '/')
  {
    var k := LastSegmentStart(path);
    if k < |path| && (EndsWith(path[..k], "/abs/") || EndsWith(path[..k], "/pdf/")) then
      var id := StripVersion(path[k..]);
      assert forall i | 0 <= i < |id| :: id[i] == path[k..][i];
      Some(id)
    else None
  }

  /** The `arxivId` and `pdfUrl` the widget starts from: both empty when the
      path does not match. */
  function PaperIdentity(path: string): (string, string) {
    match ParseArxivId(path)
    case Some(id) => (id, "https://arxiv.org/pdf/" + id + ".pdf")
    case None => ("", "")
  }

  /** The last `/` of `prefix + marker + seg` is the one that ends the
      marker, when `seg` has none. */
  lemma {:induction false} LastSegmentStartAfter(before: string, seg: string)
    requires before != [] && before[|before| - 1] == '/' && Lacks(seg, '/')
    ensures LastSegmentStart(before + seg) == |before|
    decreases |seg|
  {
    var s := before + seg;
    if seg == [] {
      assert s == before;
    } else {
      assert s[..|s| - 1] == before + seg[..|seg| - 1];
      assert s[|s| - 1] == seg[|seg| - 1];
      LastSegmentStartAfter(before, seg[..|seg| - 1]);
    }
  }

  /** The path `before + seg`, with `before` ending in a marker and `seg` a
      non-empty final segment, yields `seg` without its version. */
  lemma ParseAt(before: string, marker: string, seg: string)
    requires marker == "/abs/" || marker == "/pdf/"
    requires EndsWith(before, marker)
    requires seg != [] && Lacks(seg, '/')
    ensures ParseArxivId(before + seg) == Some(StripVersion(seg))
  {
    var path := before + seg;
    assert before[|before| - 1] == marker[|marker| - 1] == '/';
    LastSegmentStartAfter(before, seg);
    assert path[..|before|] == before;
    assert path[|before|..] == seg;
  }

  /** `v` followed by digits is removed from the end of a non-empty id. */
  lemma StripVersionOf(id: string, version: string)
    requires id != [] && version != [] && AllDigits(version)
    ensures StripVersion(id + "v" + version) == id
  {
    var seg := id + ['v'] + version;
    assert id + "v" + version == seg;
    TrailingDigitsAfter(id, 'v', version);
    assert seg[|seg| - |version| - 1] == 'v';
    assert seg[..|id|] == id;
  }

  /** A versioned abstract or PDF URL gives back the id without the
      version. */
  lemma ParseVersioned(prefix: string, marker: string, id: string, version: string)
    requires marker == "/abs/" || marker == "/pdf/"
    requires id != [] && Lacks(id, '/') && version != [] && AllDigits(version)
    ensures ParseArxivId(prefix + marker + id + "v" + version) == Some(id)
    ensures PaperIdentity(prefix + marker + id + "v" + version) == (id, "https://arxiv.org/pdf/" + id + ".pdf")
  {
    var seg := id + "v" + version;
    assert Lacks(seg, '/') by {
      forall i | 0 <= i < |seg| ensures seg[i] != '/' {
        if i < |id| { assert seg[i] == id[i]; }
        else if i > |id| { assert seg[i] == version[i - |id| - 1]; }
      }
    }
    var before := prefix + marker;
    assert before[|before| - |marker|..] == marker;
    ParseAt(before, marker, seg);
    StripVersionOf(id, version);
    assert prefix + marker + id + "v" + version == before + seg;
  }

  /** An id that does not itself end in `v<digits>` comes back whole from
      an unversioned URL. */
  lemma ParseUnversioned(prefix: string, marker: string, id: string)
    requires marker == "/abs/" || marker == "/pdf/"
    requires id != [] && Lacks(id, '/') && !VersionSuffixed(id)
    ensures ParseArxivId(prefix + marker + id) == Some(id)
  {
    var before := prefix + marker;
    assert before[|before| - |marker|..] == marker;
    ParseAt(before, marker, id);
  }

  /** A path whose last segment is empty, or that has no `/abs/` or `/pdf/`
      before it, gives no id. */
  lemma ParseNeedsSegment(path: string)
    requires path == [] || path[|path| - 1] == '/'
    ensures ParseArxivId(path) == None && PaperIdentity(path) == ("", "")
  {
  }

  /** `if (!title && arxivId) title = 'arXiv Paper ' + arxivId`. */
  function DisplayTitle(title: string, arxivId: string): string {
    if title == "" && arxivId != "" then "arXiv Paper " + arxivId else title
  }

  /** A recognised paper always gets a non-empty title; a scraped title is
      never replaced. */
  lemma DisplayTitleSpec(title: string, arxivId: string)
    ensures arxivId != "" ==> DisplayTitle(title, arxivId) != ""
    ensures title != "" ==> DisplayTitle(title, arxivId) == title
    ensures title == "" && arxivId != "" ==> EndsWith(DisplayTitle(title, arxivId), arxivId)
  {
    if title == "" && arxivId != "" {
      var r := DisplayTitle(title, arxivId);
      assert r[|r| - |arxivId|..] == arxivId;
    }
  }

  // ---------------------------------------------------------------------
  // Tag suggestions and the duplicate check
  // ---------------------------------------------------------------------

  const DefaultTags: seq<string> := [
    "Machine Learning", "Deep Learning", "Computer Vision", "NLP",
    "Reinforcement Learning", "Physics", "Mathematics", "Statistics",
    "Quantum Computing", "Robotics", "To Read", "Important", "Reference",
    "My Research Area"]

  /** At most this many suggestions are listed. */
  const MaxSuggestions: nat := 6

  /** `xs.filter(keep)`. */
  function Keep(xs: seq<string>, keep: string -> bool): (r: seq<string>)
    ensures |r| <= |xs|
  {
    if xs == [] then []
    else if keep(xs[0]) then [xs[0]] + Keep(xs[1..], keep)
    else Keep(xs[1..], keep)
  }

  /** `xs` is `ys` with some elements left out, order kept. */
  predicate IsSubsequence(xs: seq<string>, ys: seq<string>)
    decreases |ys|
  {
    xs == [] || (ys != [] && ((xs[0] == ys[0] && IsSubsequence(xs[1..], ys[1..])) || IsSubsequence(xs, ys[1..])))
  }

  /** The tags listed under the input: default tags not yet on the paper,
      then, for a non-empty filter, those containing it ignoring ASCII case,
      then the first six. */
  function Suggestions(defaults: seq<string>, current: seq<string>, filter: string): seq<string> {
    var filtered := Candidates(defaults, current, filter);
    filtered[..if |filtered| < MaxSuggestions then |filtered| else MaxSuggestions]
  }

  /** The default tags not on the paper, narrowed by a non-empty filter. */
  function Candidates(defaults: seq<string>, current: seq<string>, filter: string): seq<string> {
    var available := Keep(defaults, NotOn(current));
    if filter != "" then Keep(available, Matching(filter)) else available
  }

  /** The tag is not on the paper yet. */
  function NotOn(current: seq<string>): string -> bool {
    t => t !in current
  }

  /** The tag contains the filter, ignoring ASCII case. */
  function Matching(filter: string): string -> bool {
    t => Contains(ToLower(t), ToLower(filter))
  }

  /** A default tag qualifies for the list. */
  predicate Eligible(t: string, current: seq<string>, filter: string) {
    t !in current && (filter == "" || Contains(ToLower(t), ToLower(filter)))
  }

  /** What the suggestion box shows: a note when nothing is left and no
      filter is typed, else the list. The widget passes `DefaultTags`. */
  datatype SuggestionBox = AllTagsInUse | Suggested(tags: seq<string>)

  function ShowTagSuggestions(defaults: seq<string>, current: seq<string>, filter: string): SuggestionBox {
    var shown := Suggestions(defaults, current, filter);
    if shown == [] && filter == "" then AllTagsInUse else Suggested(shown)
  }

  lemma {:induction false} KeepMembers(xs: seq<string>, keep: string -> bool)
    ensures forall x :: x in Keep(xs, keep) <==> x in xs && keep(x)
  {
    if xs != [] {
      KeepMembers(xs[1..], keep);
      assert xs == [xs[0]] + xs[1..];
    }
  }

  lemma {:induction false} KeepSubsequence(xs: seq<string>, keep: string -> bool)
    ensures IsSubsequence(Keep(xs, keep), xs)
  {
    if xs != [] {
      KeepSubsequence(xs[1..], keep);
      if keep(xs[0]) {
        assert ([xs[0]] + Keep(xs[1..], keep))[1..] == Keep(xs[1..], keep);
      }
    }
  }

  lemma {:induction false} SubsequenceTrans(xs: seq<string>, ys: seq<string>, zs: seq<string>)
    requires IsSubsequence(xs, ys) && IsSubsequence(ys, zs)
    ensures IsSubsequence(xs, zs)
    decreases |zs|
  {
    if xs != [] {
      assert ys != [] && zs != [];
      if ys[0] == zs[0] && IsSubsequence(ys[1..], zs[1..]) {
        if xs[0] == ys[0] && IsSubsequence(xs[1..], ys[1..]) {
          SubsequenceTrans(xs[1..], ys[1..], zs[1..]);
        } else {
          SubsequenceTrans(xs, ys[1..], zs[1..]);
        }
      } else {
        SubsequenceTrans(xs, ys, zs[1..]);
      }
    }
  }

  lemma {:induction false} SubsequenceMembers(xs: seq<string>, ys: seq<string>)
    requires IsSubsequence(xs, ys)
    ensures forall x | x in xs :: x in ys
    decreases |ys|
  {
    if xs != [] {
      if xs[0] == ys[0] && IsSubsequence(xs[1..], ys[1..]) {
        SubsequenceMembers(xs[1..], ys[1..]);
        assert xs == [xs[0]] + xs[1..];
      } else {
        SubsequenceMembers(xs, ys[1..]);
      }
    }
  }

  lemma {:induction false} PrefixSubsequence(xs: seq<string>, n: nat)
    requires n <= |xs|
    ensures IsSubsequence(xs[..n], xs)
    decreases |xs|
  {
    if n > 0 {
      assert xs[..n][0] == xs[0] && xs[..n][1..] == xs[1..][..n - 1];
      PrefixSubsequence(xs[1..], n - 1);
    }
  }

  /** The list holds at most six tags, in the order of the default list,
      each one eligible; when fewer than six are shown, every eligible
      default tag is shown. */
  lemma SuggestionsSpec(defaults: seq<string>, current: seq<string>, filter: string)
    ensures var r := Suggestions(defaults, current, filter);
      && |r| <= MaxSuggestions
      && IsSubsequence(r, defaults)
      && (forall t | t in r :: Eligible(t, current, filter))
      && (|r| < MaxSuggestions ==> forall t | t in defaults && Eligible(t, current, filter) :: t in r)
  {
    var filtered := Candidates(defaults, current, filter);
    CandidatesSpec(defaults, current, filter);
    var n := if |filtered| < MaxSuggestions then |filtered| else MaxSuggestions;
    PrefixSubsequence(filtered, n);
    SubsequenceTrans(filtered[..n], filtered, defaults);
    assert forall t | t in filtered[..n] :: t in filtered;
    if n < MaxSuggestions {
      assert filtered[..n] == filtered;
    }
  }

  /** The candidates are exactly the eligible default tags, in their
      order. */
  lemma CandidatesSpec(defaults: seq<string>, current: seq<string>, filter: string)
    ensures var c := Candidates(defaults, current, filter);
      && IsSubsequence(c, defaults)
      && forall t :: t in c <==> t in defaults && Eligible(t, current, filter)
  {
    var notCurrent := NotOn(current);
    var matching := Matching(filter);
    var available := Keep(defaults, notCurrent);
    KeepMembers(defaults, notCurrent);
    KeepSubsequence(defaults, notCurrent);
    if filter != "" {
      var filtered := Keep(available, matching);
      KeepMembers(available, matching);
      KeepSubsequence(available, matching);
      SubsequenceTrans(filtered, available, defaults);
    }
  }

  /** The note appears exactly when no filter is typed and every default
      tag is already on the paper. */
  lemma AllTagsInUseIff(defaults: seq<string>, current: seq<string>, filter: string)
    ensures ShowTagSuggestions(defaults, current, filter) == AllTagsInUse
      <==> filter == "" && forall t | t in defaults :: t in current
  {
    SuggestionsSpec(defaults, current, filter);
    var r := Suggestions(defaults, current, filter);
    SubsequenceMembers(r, defaults);
    if filter == "" && r != [] {
      assert r[0] in r && r[0] in defaults && r[0] !in current;
    }
  }

  /** What pressing Enter in the tag input does. */
  datatype AddTagAction = NothingToAdd | ClearInput | AddNewTag(tag: string)

  /** `addTag` as written: the trimmed input is rejected when it occurs
      inside the text of any `span` of the tag list. */
  function AddTagDecision(input: string, spanTexts: seq<string>): (r: AddTagAction) {
    var tag := Trim(input);
    if tag == "" then NothingToAdd
    else if exists i | 0 <= i < |spanTexts| :: Contains(spanTexts[i], tag) then ClearInput
    else AddNewTag(tag)
  }

  /** A new tag that is part of an existing one is refused: with "Deep
      Learning" shown (`prefix` "Deep ", `tag` "Learning"), typing
      "Learning" only clears the input, although the corrected check adds
      it. */
  lemma SubstringTagRefused(prefix: string, tag: string)
    requires tag != [] && !IsWhitespace(tag[0]) && !IsWhitespace(tag[|tag| - 1])
    ensures AddTagDecision(tag, [prefix + tag]) == ClearInput
    ensures prefix != [] ==> AddTagExact(tag, [prefix + tag]) == AddNewTag(tag)
  {
    TrimUntouched(tag);
    var s := prefix + tag;
    assert s[|prefix|..] == tag;
    ContainsAt(s, tag, |prefix|);
    assert Contains([s][0], tag);
    if prefix != [] {
      assert |s| != |tag|;
    }
  }

  /** The duplicate check compared against the tag labels themselves: only
      the same tag counts as already present. */
  function AddTagExact(input: string, labels: seq<string>): (r: AddTagAction)
    ensures r.AddNewTag? <==> Trim(input) != "" && Trim(input) !in labels
    ensures r.AddNewTag? ==> r.tag == Trim(input)
    ensures r == NothingToAdd <==> IsBlank(input)
  {
    TrimEmptyIffBlank(input);
    var tag := Trim(input);
    if tag == "" then NothingToAdd
    else if tag in labels then ClearInput
    else AddNewTag(tag)
  }

  // ---------------------------------------------------------------------
  // Collections
  // ---------------------------------------------------------------------

  /** The collections tab: a note when no paper has a tag, else every tag
      with its number of papers. */
  datatype CollectionsView = NoTags | TagList(counts: map<string, nat>)

  lemma {:induction false} BagOverEmpty(papers: map<string, Paper>, ids: set<string>)
    requires ids <= papers.Keys
    ensures BagOver(papers, ids) == multiset{} <==> forall id | id in ids :: TagsOf(papers[id]) == []
    decreases ids
  {
    if ids != {} {
      var x :| x in ids;
      BagOverRemove(papers, ids, x);
      BagOverEmpty(papers, ids - {x});
      if TagsOf(papers[x]) != [] {
        assert TagsOf(papers[x])[0] in multiset(TagsOf(papers[x]));
      }
    }
  }

  lemma MultiplicitiesEmpty(b: multiset<string>)
    ensures |Multiplicities(b)| == 0 <==> b == multiset{}
  {
    if b != multiset{} {
      var t :| t in b;
      assert t in Multiplicities(b);
    }
  }

  /** `loadCollections`: count the tags of the library. */
  method LoadCollections(papers: map<string, Paper>) returns (view: CollectionsView)
    ensures view == NoTags <==> forall id | id in papers :: TagsOf(papers[id]) == []
    ensures view.TagList? ==> view.counts == Multiplicities(TagBag(papers))
  {
    var counts := CountTags(papers);
    BagOverEmpty(papers, papers.Keys);
    MultiplicitiesEmpty(TagBag(papers));
    if |counts| == 0 {
      view := NoTags;
    } else {
      view := TagList(counts);
    }
  }

  /** The author line of a listed paper: the first three names and
      " et al." when there are more; `undefined` when the list is
      missing. */
  function AuthorLine(authors: Option<seq<string>>): string {
    match authors
    case None => "undefined"
    case Some(a) =>
      Join(a[..if |a| < 3 then |a| else 3], ", ") + (if |a| > 3 then " et al." else "")
  }

  lemma AuthorLineSpec(a: seq<string>)
    ensures |a| <= 3 ==> AuthorLine(Some(a)) == Join(a, ", ")
    ensures |a| > 3 ==> AuthorLine(Some(a)) == Join(a[..3], ", ") + " et al."
    ensures |a| > 3 ==>
      && StartsWith(AuthorLine(Some(a)), Join(a[..3], ", "))
      && EndsWith(AuthorLine(Some(a)), " et al.")
  {
    if |a| <= 3 {
      assert a[..|a|] == a;
    } else {
      var r := AuthorLine(Some(a));
      assert r == Join(a[..3], ", ") + " et al.";
      assert r[..|Join(a[..3], ", ")|] == Join(a[..3], ", ");
      assert r[|r| - 7..] == " et al.";
    }
  }

  // ---------------------------------------------------------------------
  // Markdown in chat answers
  // ---------------------------------------------------------------------

  /** One emitted element; the HTML templates and their styles are left
      out. `level` is the HTML heading level. */
  datatype Piece =
    | CodeBlock(code: string)
    | Heading(level: nat, text: string)
    | ListItem(body: string)
    | Paragraph(body: string)
    | Bare(body: string)

  predicate IsFence(line: string) {
    StartsWith(line, "```")
  }

  function LeadingDigits(s: string): (n: nat)
    ensures n <= |s|
  {
    if s == [] || !IsDigit(s[0]) then 0 else 1 + LeadingDigits(s[1..])
  }

  /** The length of a match of `^\d+\.\s`, or 0. */
  function NumberedPrefix(s: string): (n: nat)
    ensures n <= |s|
  {
    var d := LeadingDigits(s);
    if 0 < d && d + 2 <= |s| && s[d] == '.' && IsWhitespace(s[d + 1]) then d + 2 else 0
  }

  /** `str.slice(k)`: empty when `k` is past the end. */
  function Drop(s: string, k: nat): string {
    if k <= |s| then s[k..] else ""
  }

  /** A line outside code blocks. `escape` is `escapeHtml`, `inline` the
      bold, italic, code and link replacements; both are left abstract. */
  function RenderLine(line: string, escape: string -> string, inline: string -> string): Piece {
    if StartsWith(line, "### ") then Heading(5, escape(line[4..]))
    else if StartsWith(line, "## ") then Heading(4, escape(line[3..]))
    else if StartsWith(line, "# ") then Heading(3, escape(line[2..]))
    else
      var p := inline(escape(line));
      if StartsWith(line, "- ") || StartsWith(line, "* ") then ListItem(Drop(p, 2))
      else if NumberedPrefix(line) > 0 then ListItem(p[NumberedPrefix(p)..])
      else if p != "" && p[0] != '<' then Paragraph(p)
      else Bare(p)
  }

  function CodePiece(code: seq<string>, escape: string -> string): Piece {
    CodeBlock(escape(Join(code, "\n")))
  }

  /** The pieces for the remaining `lines`, given whether a code block is
      open and the lines collected for it. */
  function Render(lines: seq<string>, inCode: bool, code: seq<string>, escape: string -> string, inline: string -> string)
    : seq<Piece>
  {
    if lines == [] then (if inCode then [CodePiece(code, escape)] else [])
    else if IsFence(lines[0]) then
      if inCode then [CodePiece(code, escape)] + Render(lines[1..], false, [], escape, inline)
      else Render(lines[1..], true, [], escape, inline)
    else if inCode then Render(lines[1..], true, code + [lines[0]], escape, inline)
    else [RenderLine(lines[0], escape, inline)] + Render(lines[1..], false, [], escape, inline)
  }

  /** `renderMarkdown`: one pass over the lines with the code-block state. */
  method RenderMarkdown(text: string, escape: string -> string, inline: string -> string) returns (html: seq<Piece>)
    ensures html == Render(SplitOn(text, '\n'), false, [], escape, inline)
  {
    var lines := SplitOn(text, '\n');
    html := [];
    var inCodeBlock := false;
    var codeBlockLines: seq<string> := [];
    var i := 0;
    while i < |lines|
      invariant i <= |lines|
      invariant !inCodeBlock ==> codeBlockLines == []
      invariant html + Render(lines[i..], inCodeBlock, codeBlockLines, escape, inline) == Render(lines, false, [], escape, inline)
    {
      var line := lines[i];
      assert lines[i..][0] == line && lines[i..][1..] == lines[i + 1..];
      var emitted: seq<Piece> := [];
      if IsFence(line) {
        if inCodeBlock {
          emitted := [CodePiece(codeBlockLines, escape)];
          codeBlockLines := [];
          inCodeBlock := false;
        } else {
          inCodeBlock := true;
        }
      } else if inCodeBlock {
        codeBlockLines := codeBlockLines + [line];
      } else {
        emitted := [RenderLine(line, escape, inline)];
      }
      ConcatAssoc(html, emitted, Render(lines[i + 1..], inCodeBlock, codeBlockLines, escape, inline));
      html := html + emitted;
      i := i + 1;
    }
    if inCodeBlock {
      html := html + [CodePiece(codeBlockLines, escape)];
    }
  }

  /** Text without fences renders line by line, one piece per line. */
  lemma {:induction false} RenderWithoutFences(lines: seq<string>, escape: string -> string, inline: string -> string)
    requires forall k | 0 <= k < |lines| :: !IsFence(lines[k])
    ensures var r := Render(lines, false, [], escape, inline);
      |r| == |lines| && forall k | 0 <= k < |lines| :: r[k] == RenderLine(lines[k], escape, inline)
  {
    if lines != [] {
      RenderWithoutFences(lines[1..], escape, inline);
    }
  }

  /** Inside an open block, lines without fences are only collected; at the
      end the block is flushed even though it was never closed. */
  lemma {:induction false} RenderOpenBlock(lines: seq<string>, code: seq<string>, escape: string -> string, inline: string -> string)
    requires forall k | 0 <= k < |lines| :: !IsFence(lines[k])
    ensures Render(lines, true, code, escape, inline) == [CodePiece(code + lines, escape)]
  {
    if lines == [] {
      assert code + lines == code;
    } else {
      RenderOpenBlock(lines[1..], code + [lines[0]], escape, inline);
      assert (code + [lines[0]]) + lines[1..] == code + lines;
    }
  }

  /** A fenced block becomes one code piece holding exactly its lines; the
      fence lines are not emitted and rendering resumes after the block. */
  lemma {:induction false} RenderClosedBlock(open: string, body: seq<string>, close: string, rest: seq<string>,
                                             code: seq<string>, escape: string -> string, inline: string -> string)
    requires IsFence(close)
    requires forall k | 0 <= k < |body| :: !IsFence(body[k])
    ensures Render(body + [close] + rest, true, code, escape, inline)
      == [CodePiece(code + body, escape)] + Render(rest, false, [], escape, inline)
  {
    var lines := body + [close] + rest;
    if body == [] {
      assert lines[0] == close && lines[1..] == rest;
      assert code + body == code;
    } else {
      assert lines[0] == body[0] && lines[1..] == body[1..] + [close] + rest;
      RenderClosedBlock(open, body[1..], close, rest, code + [body[0]], escape, inline);
      assert (code + [body[0]]) + body[1..] == code + body;
    }
  }

  /** The whole fenced block, opening fence included. */
  lemma RenderFencedBlock(open: string, body: seq<string>, close: string, rest: seq<string>,
                          escape: string -> string, inline: string -> string)
    requires IsFence(open) && IsFence(close)
    requires forall k | 0 <= k < |body| :: !IsFence(body[k])
    ensures Render([open] + body + [close] + rest, false, [], escape, inline)
      == [CodePiece(body, escape)] + Render(rest, false, [], escape, inline)
  {
    var lines := [open] + body + [close] + rest;
    assert lines[0] == open && lines[1..] == body + [close] + rest;
    RenderClosedBlock(open, body, close, rest, [], escape, inline);
    assert [] + body == body;
  }

  /** A line is a heading exactly when it starts with one of the three
      markers, which exclude each other; `### ` gives the smallest. */
  lemma HeadingLevels(line: string, escape: string -> string, inline: string -> string)
    ensures var p := RenderLine(line, escape, inline);
      && (p.Heading? <==> StartsWith(line, "### ") || StartsWith(line, "## ") || StartsWith(line, "# "))
      && (p.Heading? && p.level == 5 <==> StartsWith(line, "### "))
      && (p.Heading? && p.level == 4 <==> StartsWith(line, "## "))
      && (p.Heading? && p.level == 3 <==> StartsWith(line, "# "))
  {
    if StartsWith(line, "# ") {
      assert line[..2][1] == line[1] == ' ';
    }
    if StartsWith(line, "## ") {
      assert line[..3][1] == line[1] == '#';
      assert line[..3][2] == line[2] == ' ';
    }
    if StartsWith(line, "### ") {
      assert line[..4][1] == line[1] == '#';
      assert line[..4][2] == line[2] == '#';
    }
  }

  /** A line that is not a heading becomes a list item exactly when it
      starts with `- `, `* ` or a number, a dot and a space. */
  lemma ListItems(line: string, escape: string -> string, inline: string -> string)
    requires !StartsWith(line, "# ") && !StartsWith(line, "## ") && !StartsWith(line, "### ")
    ensures RenderLine(line, escape, inline).ListItem?
      <==> StartsWith(line, "- ") || StartsWith(line, "* ") || NumberedPrefix(line) > 0
  {
  }

  // ---------------------------------------------------------------------
  // The /clear-pdf-cache command
  // ---------------------------------------------------------------------

  /** Delete the paper's chunk marker when there is one; report whether it
      was there. Nothing else in storage changes. */
  method ClearPdfCache(script: BackgroundScript, arxivId: string) returns (cleared: bool)
    requires script.Valid()
    modifies script
    ensures script.Valid() && script.Repr == old(script.Repr)
    ensures script.assistant == old(script.assistant) && script.badge == old(script.badge)
    ensures cleared == (arxivId in old(script.storage.chunkMarkers))
    ensures script.storage == old(script.storage).(chunkMarkers := old(script.storage.chunkMarkers) - {arxivId})
  {
    cleared := arxivId in script.storage.chunkMarkers;
    if cleared {
      script.storage := script.storage.(chunkMarkers := script.storage.chunkMarkers - {arxivId});
    } else {
      assert script.storage.chunkMarkers - {arxivId} == script.storage.chunkMarkers;
    }
  }

  /** After clearing, the chat for that paper uses the abstract-only
      fallback prompt instead of its chunks, and extracting it again runs a
      new extraction. */
  lemma ClearedPaperIsExtractedAgain(st: Storage, paper: Paper, chunkItems: seq<VectorStore.Entry<VectorStore.ChunkMeta>>,
                                     userMessage: string, s: Assistant.Services, env: Env)
    requires paper.arxivId in st.papers
    ensures var cleared := st.(chunkMarkers := st.chunkMarkers - {paper.arxivId});
      && ChatMessages(cleared, chunkItems, userMessage, paper, s)
         == Ok([Assistant.ChatMessage(Assistant.System, Assistant.ChatSystemPrompt(None)),
                Assistant.ChatMessage(Assistant.System, FallbackChatPrompt(paper)),
                Assistant.ChatMessage(Assistant.User, userMessage)])
      && !ExtractPdfOutcome(cleared, true, paper.arxivId, env).1.AlreadyExtracted?
      && (Consistent(st) ==> Consistent(cleared))
  {
  }
}
