/** The saved-paper record that the background script keeps under the
    `arxiv_papers` storage key (a map from arXiv id to paper), and the pure
    rules of the paper library: the `savePaper` merge, adding and removing a
    tag, counting tags and selecting the papers that carry a tag. */
module Papers {
  import opened Wrappers
  import opened Text

  /** A saved paper. `arxivId`, `title` and the abstract are always present
      in the objects the content script sends; the other properties may be
      missing (`None`). */
  datatype Paper = Paper(
    arxivId: string,
    title: string,
    authors: Option<seq<string>>,
    abstractText: string,
    pdfUrl: Option<string>,
    tags: Option<seq<string>>,
    savedAt: Option<string>)

  /** JavaScript truthiness of an optional string property. */
  predicate Truthy(s: Option<string>) {
    s.Some? && s.value != ""
  }

  /** `p.tags || []`. */
  function TagsOf(p: Paper): seq<string> {
    p.tags.GetOr([])
  }

  /** `a !== undefined ? a : b` for one property. */
  function Or<T>(a: Option<T>, b: Option<T>): Option<T> {
    if a.Some? then a else b
  }

  // ---------------------------------------------------------------------
  // savePaper
  // ---------------------------------------------------------------------

  /** The record `savePaper` stores: the existing record (or `{}`) spread
      first, the incoming one spread over it, then `savedAt` kept from the
      existing record when it is truthy (else the clock value `now`), and
      `tags` taken from the incoming record when defined, else from the
      existing one, else `[]`. */
  function Merge(existing: Option<Paper>, incoming: Paper, now: string): Paper {
    var prev := if existing.Some? then existing.value
               else Paper(incoming.arxivId, incoming.title, None, incoming.abstractText, None, None, None);
    Paper(
      incoming.arxivId,
      incoming.title,
      Or(incoming.authors, prev.authors),
      incoming.abstractText,
      Or(incoming.pdfUrl, prev.pdfUrl),
      Some(if incoming.tags.Some? then incoming.tags.value else TagsOf(prev)),
      Some(if Truthy(prev.savedAt) then prev.savedAt.value else now))
  }

  /** Incoming properties win; a property the incoming record lacks is kept
      from the stored record. */
  lemma MergeOverrides(existing: Paper, incoming: Paper, now: string)
    ensures var p := Merge(Some(existing), incoming, now);
      && p.arxivId == incoming.arxivId && p.title == incoming.title && p.abstractText == incoming.abstractText
      && (incoming.authors.Some? ==> p.authors == incoming.authors)
      && (incoming.authors.None? ==> p.authors == existing.authors)
      && (incoming.pdfUrl.Some? ==> p.pdfUrl == incoming.pdfUrl)
      && (incoming.pdfUrl.None? ==> p.pdfUrl == existing.pdfUrl)
  {
  }

  /** The first save time survives every later save; a paper saved for the
      first time (or whose stored time is empty) gets the current time. */
  lemma MergeSavedAt(existing: Option<Paper>, incoming: Paper, now: string)
    ensures Truthy(Merge(existing, incoming, now).savedAt)
      <== now != "" || (existing.Some? && Truthy(existing.value.savedAt))
    ensures existing.Some? && Truthy(existing.value.savedAt)
      ==> Merge(existing, incoming, now).savedAt == existing.value.savedAt
    ensures existing.None? ==> Merge(existing, incoming, now).savedAt == Some(now)
  {
  }

  /** A stored paper always has a tag list afterwards: the incoming one if
      it has one, else the stored one. */
  lemma MergeTags(existing: Option<Paper>, incoming: Paper, now: string)
    ensures Merge(existing, incoming, now).tags.Some?
    ensures incoming.tags.Some? ==> TagsOf(Merge(existing, incoming, now)) == incoming.tags.value
    ensures incoming.tags.None? && existing.Some?
      ==> TagsOf(Merge(existing, incoming, now)) == TagsOf(existing.value)
    ensures incoming.tags.None? && existing.None? ==> TagsOf(Merge(existing, incoming, now)) == []
  {
  }

  /** Saving the same record twice stores what saving it once stored, when
      the clock gave a non-empty time stamp the first time. */
  lemma MergeIdempotent(existing: Option<Paper>, incoming: Paper, now1: string, now2: string)
    requires now1 != ""
    ensures Merge(Some(Merge(existing, incoming, now1)), incoming, now2) == Merge(existing, incoming, now1)
  {
  }

  // ---------------------------------------------------------------------
  // Tag lists
  // ---------------------------------------------------------------------

  /** `tags.filter(t => t !== tag)`. */
  function Without(tags: seq<string>, tag: string): (r: seq<string>)
    ensures tag !in r
    ensures multiset(r) == multiset(tags)[tag := 0]
    ensures |r| < |tags| <==> tag in tags
    ensures tag !in tags ==> r == tags
  {
    if tags == [] then []
    else
      var rest := Without(tags[1..], tag);
      assert tags == [tags[0]] + tags[1..];
      if tags[0] == tag then rest else [tags[0]] + rest
  }

  predicate Distinct(tags: seq<string>) {
    forall i, j | 0 <= i < j < |tags| :: tags[i] != tags[j]
  }

  /** Every stored paper's tag list is free of repetitions. */
  predicate TagsDistinct(papers: map<string, Paper>) {
    forall id | id in papers :: Distinct(TagsOf(papers[id]))
  }

  datatype TagReply = TagReply(success: bool, message: string)

  /** `addTagToPaper`: the new papers map and the reply. */
  function AddTag(papers: map<string, Paper>, paperId: string, tag: string): (map<string, Paper>, TagReply) {
    if paperId !in papers then
      (papers, TagReply(false, "Paper not found"))
    else if tag in TagsOf(papers[paperId]) then
      (papers, TagReply(false, "Tag already exists"))
    else
      var p := papers[paperId];
      (papers[paperId := p.(tags := Some(TagsOf(p) + [tag]))], TagReply(true, "Tag added successfully"))
  }

  /** `removeTagFromPaper`: the new papers map and the reply. A present but
      empty tag list counts as present (an empty array is truthy). */
  function RemoveTag(papers: map<string, Paper>, paperId: string, tag: string): (map<string, Paper>, TagReply) {
    if paperId in papers && papers[paperId].tags.Some? then
      var p := papers[paperId];
      var kept := Without(p.tags.value, tag);
      if |kept| < |p.tags.value| then
        (papers[paperId := p.(tags := Some(kept))], TagReply(true, "Tag removed successfully"))
      else
        (papers, TagReply(false, "Tag not found"))
    else
      (papers, TagReply(false, "Paper not found or has no tags"))
  }

  /** The three outcomes of adding a tag: unknown paper and repeated tag
      leave the library as it was; otherwise the tag goes to the end of that
      paper's list (which starts empty if absent) and nothing else changes. */
  lemma AddTagOutcomes(papers: map<string, Paper>, paperId: string, tag: string)
    ensures var (after, reply) := AddTag(papers, paperId, tag);
      && (paperId !in papers ==> after == papers && reply == TagReply(false, "Paper not found"))
      && (paperId in papers && tag in TagsOf(papers[paperId])
          ==> after == papers && reply == TagReply(false, "Tag already exists"))
      && (reply.success <==> paperId in papers && tag !in TagsOf(papers[paperId]))
      && (reply.success ==>
            && after.Keys == papers.Keys
            && TagsOf(after[paperId]) == TagsOf(papers[paperId]) + [tag]
            && after[paperId] == papers[paperId].(tags := after[paperId].tags)
            && (forall id | id in papers && id != paperId :: after[id] == papers[id]))
  {
  }

  /** Adding a tag a second time fails and changes nothing. */
  lemma AddTagTwice(papers: map<string, Paper>, paperId: string, tag: string)
    ensures var (once, _) := AddTag(papers, paperId, tag);
      var (twice, reply) := AddTag(once, paperId, tag);
      twice == once && !reply.success
  {
  }

  /** Removing drops every occurrence of the tag and nothing else; success
      is reported exactly when the list got shorter. */
  lemma RemoveTagOutcomes(papers: map<string, Paper>, paperId: string, tag: string)
    ensures var (after, reply) := RemoveTag(papers, paperId, tag);
      && after.Keys == papers.Keys
      && (forall id | id in papers && id != paperId :: after[id] == papers[id])
      && (reply.success <==> paperId in papers && tag in TagsOf(papers[paperId]))
      && (paperId in papers ==>
            tag !in TagsOf(after[paperId])
            && multiset(TagsOf(after[paperId])) == multiset(TagsOf(papers[paperId]))[tag := 0])
      && (!reply.success ==> after == papers)
  {
  }

  /** Adding a tag the paper did not have and then removing it gives the
      paper back its original list. */
  lemma AddThenRemove(papers: map<string, Paper>, paperId: string, tag: string)
    requires paperId in papers && papers[paperId].tags.Some? && tag !in TagsOf(papers[paperId])
    ensures var (added, _) := AddTag(papers, paperId, tag);
      var (removed, reply) := RemoveTag(added, paperId, tag);
      removed == papers && reply.success
  {
    var tags := TagsOf(papers[paperId]);
    WithoutAppend(tags, tag);
    assert papers[paperId].(tags := Some(tags)) == papers[paperId];
  }

  lemma {:induction false} WithoutAppend(tags: seq<string>, tag: string)
    requires tag !in tags
    ensures Without(tags + [tag], tag) == tags
  {
    if tags != [] {
      assert (tags + [tag])[1..] == tags[1..] + [tag];
      WithoutAppend(tags[1..], tag);
    }
  }

  /** Tag operations never introduce a repeated tag on a paper. */
  lemma TagOperationsKeepDistinct(papers: map<string, Paper>, paperId: string, tag: string)
    requires TagsDistinct(papers)
    ensures TagsDistinct(AddTag(papers, paperId, tag).0)
    ensures TagsDistinct(RemoveTag(papers, paperId, tag).0)
  {
    var (removed, _) := RemoveTag(papers, paperId, tag);
    if paperId in papers && papers[paperId].tags.Some? {
      SubsequenceDistinct(papers[paperId].tags.value, tag);
    }
    var (added, _) := AddTag(papers, paperId, tag);
    if paperId in papers && tag !in TagsOf(papers[paperId]) {
      var t := TagsOf(papers[paperId]) + [tag];
      forall i, j | 0 <= i < j < |t| ensures t[i] != t[j] {
        if j == |t| - 1 { assert t[i] in TagsOf(papers[paperId]); }
      }
    }
  }

  lemma {:induction false} SubsequenceDistinct(tags: seq<string>, tag: string)
    requires Distinct(tags)
    ensures Distinct(Without(tags, tag))
  {
    if tags != [] {
      SubsequenceDistinct(tags[1..], tag);
      var rest := Without(tags[1..], tag);
      if tags[0] != tag {
        assert tags[0] !in multiset(tags[1..]);
        assert tags[0] !in rest by {
          assert multiset(rest)[tags[0]] <= multiset(tags[1..])[tags[0]];
        }
        var r := [tags[0]] + rest;
        forall i, j | 0 <= i < j < |r| ensures r[i] != r[j] {
          if i == 0 { assert r[j] in rest; }
        }
      }
    }
  }

  // ---------------------------------------------------------------------
  // Counting tags and selecting papers by tag
  // ---------------------------------------------------------------------

  /** Every tag of every paper whose id is in `ids`, with repetitions. */
  ghost function BagOver(papers: map<string, Paper>, ids: set<string>): multiset<string>
    requires ids <= papers.Keys
    decreases ids
  {
    if ids == {} then multiset{}
    else
      var id :| id in ids;
      multiset(TagsOf(papers[id])) + BagOver(papers, ids - {id})
  }

  /** The bag of all tags in the library. */
  ghost function TagBag(papers: map<string, Paper>): multiset<string> {
    BagOver(papers, papers.Keys)
  }

  /** The sum of the lengths of the tag lists of the papers in `ids`. */
  ghost function TagTotal(papers: map<string, Paper>, ids: set<string>): nat
    requires ids <= papers.Keys
    decreases ids
  {
    if ids == {} then 0
    else
      var id :| id in ids;
      |TagsOf(papers[id])| + TagTotal(papers, ids - {id})
  }

  /** The papers of `ids` whose tag list holds `tag`. */
  ghost function HoldersIn(papers: map<string, Paper>, ids: set<string>, tag: string): set<string>
    requires ids <= papers.Keys
  {
    set id | id in ids && tag in TagsOf(papers[id])
  }

  /** A bag as the record of counts the extension shows: each tag to its
      number of occurrences. */
  function Multiplicities(b: multiset<string>): map<string, nat> {
    map t | t in b :: b[t]
  }

  lemma {:induction false} BagOverRemove(papers: map<string, Paper>, ids: set<string>, x: string)
    requires ids <= papers.Keys && x in ids
    ensures BagOver(papers, ids) == multiset(TagsOf(papers[x])) + BagOver(papers, ids - {x})
    ensures TagTotal(papers, ids) == |TagsOf(papers[x])| + TagTotal(papers, ids - {x})
    decreases ids
  {
    var y :| y in ids && BagOver(papers, ids) == multiset(TagsOf(papers[y])) + BagOver(papers, ids - {y});
    var z :| z in ids && TagTotal(papers, ids) == |TagsOf(papers[z])| + TagTotal(papers, ids - {z});
    if y != x {
      BagOverRemove(papers, ids - {y}, x);
      assert ids - {y} - {x} == ids - {x} - {y};
      BagOverRemove(papers, ids - {x}, y);
    }
    if z != x {
      BagOverRemove(papers, ids - {z}, x);
      assert ids - {z} - {x} == ids - {x} - {z};
      BagOverRemove(papers, ids - {x}, z);
    }
  }

  /** The counts add up to the total length of all tag lists. */
  lemma {:induction false} TagBagSize(papers: map<string, Paper>, ids: set<string>)
    requires ids <= papers.Keys
    ensures |BagOver(papers, ids)| == TagTotal(papers, ids)
    decreases ids
  {
    if ids != {} {
      var x :| x in ids;
      BagOverRemove(papers, ids, x);
      TagBagSize(papers, ids - {x});
    }
  }

  /** A tag is counted at least once per paper that carries it, and exactly
      once per such paper when no paper repeats a tag. */
  lemma {:induction false} CountVersusHolders(papers: map<string, Paper>, ids: set<string>, tag: string)
    requires ids <= papers.Keys
    ensures BagOver(papers, ids)[tag] >= |HoldersIn(papers, ids, tag)|
    ensures TagsDistinct(papers) ==> BagOver(papers, ids)[tag] == |HoldersIn(papers, ids, tag)|
    decreases ids
  {
    if ids != {} {
      var x :| x in ids;
      BagOverRemove(papers, ids, x);
      CountVersusHolders(papers, ids - {x}, tag);
      var tags := TagsOf(papers[x]);
      if tag in tags {
        assert HoldersIn(papers, ids, tag) == HoldersIn(papers, ids - {x}, tag) + {x};
        assert multiset(tags)[tag] >= 1;
        if TagsDistinct(papers) {
          DistinctCountsOnce(tags, tag);
        }
      } else {
        assert HoldersIn(papers, ids, tag) == HoldersIn(papers, ids - {x}, tag);
      }
    } else {
      assert HoldersIn(papers, ids, tag) == {};
    }
  }

  lemma {:induction false} DistinctCountsOnce(tags: seq<string>, tag: string)
    requires Distinct(tags) && tag in tags
    ensures multiset(tags)[tag] == 1
  {
    var i :| 0 <= i < |tags| && tags[i] == tag;
    assert tags == tags[..i] + [tag] + tags[i + 1..];
    assert tag !in tags[..i] && tag !in tags[i + 1..] by {
      forall j | 0 <= j < |tags| && j != i ensures tags[j] != tag {
        if j < i { assert tags[j] != tags[i]; } else { assert tags[i] != tags[j]; }
      }
    }
  }

  /** One more occurrence of `t` adds one to its count. */
  lemma MultiplicitiesAdd(b: multiset<string>, t: string)
    ensures Multiplicities(b + multiset{t})
      == Multiplicities(b)[t := (if t in Multiplicities(b) then Multiplicities(b)[t] else 0) + 1]
  {
  }

  /** Counting one paper's tags into a record of counts. */
  method CountInto(counts: map<string, nat>, tags: seq<string>, ghost b: multiset<string>)
    returns (r: map<string, nat>)
    requires counts == Multiplicities(b)
    ensures r == Multiplicities(b + multiset(tags))
  {
    r := counts;
    var j := 0;
    while j < |tags|
      invariant j <= |tags|
      invariant r == Multiplicities(b + multiset(tags[..j]))
    {
      var tag := tags[j];
      MultiplicitiesAdd(b + multiset(tags[..j]), tag);
      assert tags[..j + 1] == tags[..j] + [tag];
      r := r[tag := (if tag in r then r[tag] else 0) + 1];
      j := j + 1;
    }
    assert tags[..|tags|] == tags;
  }

  /** Counting the tags of all papers, one paper at a time in whatever order
      the map yields them: the result is each tag's number of occurrences. */
  method CountTags(papers: map<string, Paper>) returns (counts: map<string, nat>)
    ensures counts == Multiplicities(TagBag(papers))
  {
    counts := map[];
    var remaining := papers.Keys;
    ghost var done: set<string> := {};
    while remaining != {}
      invariant remaining <= papers.Keys && done == papers.Keys - remaining
      invariant counts == Multiplicities(BagOver(papers, done))
      decreases remaining
    {
      var id :| id in remaining;
      counts := CountInto(counts, TagsOf(papers[id]), BagOver(papers, done));
      BagOverRemove(papers, done + {id}, id);
      assert done + {id} - {id} == done;
      remaining := remaining - {id};
      done := done + {id};
    }
    assert done == papers.Keys;
  }

  /** `showPapersForTag`: exactly the papers whose tag list holds the tag. */
  function PapersWithTag(papers: map<string, Paper>, tag: string): (r: map<string, Paper>)
  {
    map id | id in papers && tag in TagsOf(papers[id]) :: papers[id]
  }

  /** The number next to a tag in the collections view equals the number of
      papers listed when the tag is clicked, as long as no paper repeats a
      tag, which adding and removing tags preserve. */
  lemma TagCountMatchesPaperList(papers: map<string, Paper>, tag: string)
    requires TagsDistinct(papers)
    ensures tag in Multiplicities(TagBag(papers)) <==> |PapersWithTag(papers, tag)| > 0
    ensures tag in Multiplicities(TagBag(papers))
      ==> Multiplicities(TagBag(papers))[tag] == |PapersWithTag(papers, tag)|
  {
    CountVersusHolders(papers, papers.Keys, tag);
    assert PapersWithTag(papers, tag).Keys == HoldersIn(papers, papers.Keys, tag);
  }

  // ---------------------------------------------------------------------
  // getTagsWithCounts as written: counting into a plain object
  // ---------------------------------------------------------------------

  /** The JavaScript values a property of the counting object can hold. */
  datatype JsValue = Undefined | Number(n: nat) | Str(s: string) | NativeFunction(name: string)

  /** The methods every plain object inherits from `Object.prototype`; a
      lookup of one of these names on `{}` finds the inherited function. */
  const InheritedMethods: set<string> := {
    "constructor", "hasOwnProperty", "isPrototypeOf", "propertyIsEnumerable",
    "toString", "valueOf", "toLocaleString",
    "__defineGetter__", "__defineSetter__", "__lookupGetter__", "__lookupSetter__"}

  /** `{}[name]` before any own property is set. */
  function InitialLookup(name: string): JsValue {
    if name in InheritedMethods then NativeFunction(name) else Undefined
  }

  /** How a built-in function converts to a string (the constructor
      property holds the function `Object`). */
  function FunctionSource(name: string): string {
    "function " + (if name == "constructor" then "Object" else name) + "() { [native code] }"
  }

  /** `(v || 0) + 1`: numbers add, a truthy string or function concatenates. */
  function Bump(v: JsValue): JsValue {
    match v
    case Undefined => Number(1)
    case Number(n) => Number(n + 1)
    case Str(s) => if s == "" then Number(1) else Str(s + "1")
    case NativeFunction(name) => Str(FunctionSource(name) + "1")
  }

  function BumpTimes(v: JsValue, k: nat): JsValue {
    if k == 0 then v else Bump(BumpTimes(v, k - 1))
  }

  /** The object `getTagsWithCounts` returns. Each key is bumped once per
      occurrence of the tag, so the order of the papers does not matter.
      Assigning a string to `__proto__` is ignored, so that tag never shows. */
  ghost function RecordTagCounts(papers: map<string, Paper>): (r: map<string, JsValue>)
    ensures r.Keys == set t | t in TagBag(papers) && t != "__proto__"
  {
    var b := TagBag(papers);
    map t | t in b && t != "__proto__" :: BumpTimes(InitialLookup(t), b[t])
  }

  lemma {:induction false} BumpUndefined(k: nat)
    requires k >= 1
    ensures BumpTimes(Undefined, k) == Number(k)
  {
    if k > 1 { BumpUndefined(k - 1); }
  }

  /** As long as no tag is named after an inherited method (or is
      `__proto__`), the object holds the true counts. */
  lemma RecordCountsAgree(papers: map<string, Paper>)
    requires forall t | t in TagBag(papers) :: t !in InheritedMethods && t != "__proto__"
    ensures var counts := Multiplicities(TagBag(papers));
      RecordTagCounts(papers) == map t | t in counts :: Number(counts[t])
  {
    var b := TagBag(papers);
    forall t | t in b ensures BumpTimes(InitialLookup(t), b[t]) == Number(b[t]) {
      BumpUndefined(b[t]);
    }
  }

  /** A library with one paper tagged `constructor`: the tag is counted once,
      but the object shows the text of the `Object` function with a "1"
      appended in place of the count. */
  lemma RecordCountsConstructorTag(p: Paper)
    requires p.tags == Some(["constructor"])
    ensures "constructor" in Multiplicities(TagBag(map[p.arxivId := p]))
    ensures Multiplicities(TagBag(map[p.arxivId := p]))["constructor"] == 1
    ensures "constructor" in RecordTagCounts(map[p.arxivId := p])
    ensures RecordTagCounts(map[p.arxivId := p])["constructor"]
      == Str("function Object() { [native code] }1")
  {
    SinglePaperBag(p);
    assert multiset(["constructor"]) == multiset{"constructor"};
    ConstructorBumped();
  }

  lemma SinglePaperBag(p: Paper)
    ensures TagBag(map[p.arxivId := p]) == multiset(TagsOf(p))
  {
    var papers := map[p.arxivId := p];
    BagOverRemove(papers, papers.Keys, p.arxivId);
    assert papers.Keys - {p.arxivId} == {};
  }

  lemma ConstructorBumped()
    ensures BumpTimes(InitialLookup("constructor"), 1) == Str("function Object() { [native code] }1")
  {
    assert "constructor" in InheritedMethods;
    assert FunctionSource("constructor") + "1" == "function Object() { [native code] }1";
  }
}
