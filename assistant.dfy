/** `ArxivAssistant`: the OpenAI-backed helper that embeds papers and PDF
    chunks into its `BrowserVectorStore`, retrieves chunks for a question
    and composes chat prompts. The OpenAI client exists only when the
    assistant was built with a truthy API key (`configured`). The remote
    calls are the `Services` parameters: `embed` maps a text to its
    embedding, `complete` maps the messages sent to the content of the
    first choice (`null` is `None`); either gives `Err` with the error's
    message when the request rejects. `sqrt` is `Math.sqrt`. */
module Assistant {
  import opened Wrappers
  import opened Text
  import opened Papers
  import opened PdfExtractor
  import opened Similarity
  import opened Ranking
  import opened VectorStore

  datatype Role = System | User | AssistantRole

  datatype ChatMessage = ChatMessage(role: Role, content: string)

  datatype Services = Services(
    embed: string -> Result<seq<real>, string>,
    complete: seq<ChatMessage> -> Result<Option<string>, string>,
    sqrt: real -> real)

  /** One hit of `searchSimilarPapers`: `{score, item}`. */
  datatype SearchHit = SearchHit(score: real, item: PaperMeta)

  const NotInitialized := "OpenAI not initialized"

  /** The message V8 gives the `TypeError` of `undefined.join(...)`. */
  const JoinOfUndefined := "Cannot read properties of undefined (reading 'join')"

  /** The message V8 gives the `TypeError` of `undefined.content`. */
  const ContentOfUndefined := "Cannot read properties of undefined (reading 'content')"

  const BatchSize: nat := 10

  // ---------------------------------------------------------------------
  // Texts sent for embedding and their store entries
  // ---------------------------------------------------------------------

  /** The text embedded for a whole paper. */
  function PaperText(p: Paper, authors: seq<string>): string {
    "Title: " + p.title + "\nAuthors: " + Join(authors, ", ") + "\nAbstract: " + p.abstractText
  }

  function PaperEntry(p: Paper, authors: seq<string>, vector: seq<real>): Entry<PaperMeta> {
    Entry(p.arxivId, vector, PaperMeta(p.arxivId, p.title, PaperText(p, authors)))
  }

  /** The text embedded for one chunk. */
  function ChunkText(c: Chunk, p: Paper): string {
    "Paper: " + p.title + "\nPage " + NatToString(c.pageNumber) + "\nContent: " + c.text
  }

  /** When title, authors and abstract hold no line break, the paper text
      splits into exactly its three labelled lines. */
  lemma PaperTextLines(p: Paper, authors: seq<string>)
    requires Lacks(p.title, '\n') && Lacks(Join(authors, ", "), '\n') && Lacks(p.abstractText, '\n')
    ensures SplitOn(PaperText(p, authors), '\n')
      == ["Title: " + p.title, "Authors: " + Join(authors, ", "), "Abstract: " + p.abstractText]
  {
    var a, b, c := "Title: " + p.title, "Authors: " + Join(authors, ", "), "Abstract: " + p.abstractText;
    JoinThree(a, b, c, "\n");
    assert a + "\n" + b + "\n" + c == PaperText(p, authors);
    LacksConcat("Title: ", p.title, '\n');
    LacksConcat("Authors: ", Join(authors, ", "), '\n');
    LacksConcat("Abstract: ", p.abstractText, '\n');
    JoinSplitOn([a, b, c], '\n');
  }

  /** When title and chunk text hold no line break, the chunk text splits
      into exactly its three lines: title, page number and content. */
  lemma ChunkTextLines(c: Chunk, p: Paper)
    requires Lacks(p.title, '\n') && Lacks(c.text, '\n')
    ensures SplitOn(ChunkText(c, p), '\n')
      == ["Paper: " + p.title, "Page " + NatToString(c.pageNumber), "Content: " + c.text]
  {
    var x, y, z := "Paper: " + p.title, "Page " + NatToString(c.pageNumber), "Content: " + c.text;
    JoinThree(x, y, z, "\n");
    assert x + "\n" + y + "\n" + z == ChunkText(c, p);
    assert Lacks(NatToString(c.pageNumber), '\n');
    LacksConcat("Paper: ", p.title, '\n');
    LacksConcat("Page ", NatToString(c.pageNumber), '\n');
    LacksConcat("Content: ", c.text, '\n');
    JoinSplitOn([x, y, z], '\n');
  }

  /** The key a chunk embedding is stored under. */
  function ChunkId(arxivId: string, chunkIndex: nat): string {
    arxivId + "_chunk_" + NatToString(chunkIndex)
  }

  function ChunkEntry(c: Chunk, p: Paper, vector: seq<real>): Entry<ChunkMeta> {
    Entry(ChunkId(p.arxivId, c.chunkIndex), vector, ChunkMeta(p.arxivId, c.chunkIndex, c.pageNumber, c.text))
  }

  /** `set` applied once per entry, in order. */
  function UpsertAll<M>(es: seq<Entry<M>>, news: seq<Entry<M>>): seq<Entry<M>> {
    if news == [] then es else Upsert(UpsertAll(es, news[..|news| - 1]), news[|news| - 1])
  }

  lemma {:induction false} UpsertAllAppend<M>(es: seq<Entry<M>>, xs: seq<Entry<M>>, ys: seq<Entry<M>>)
    ensures UpsertAll(es, xs + ys) == UpsertAll(UpsertAll(es, xs), ys)
    decreases |ys|
  {
    if ys != [] {
      assert (xs + ys)[..|xs + ys| - 1] == xs + ys[..|ys| - 1];
      UpsertAllAppend(es, xs, ys[..|ys| - 1]);
    } else {
      assert xs + ys == xs;
    }
  }

  /** Every entry after the upserts was there before or is one of the new
      entries. */
  lemma {:induction false} UpsertAllIn<M>(es: seq<Entry<M>>, news: seq<Entry<M>>, x: Entry<M>)
    requires x in UpsertAll(es, news)
    ensures x in es || x in news
    decreases |news|
  {
    if news != [] {
      var init := news[..|news| - 1];
      UpsertIn(UpsertAll(es, init), news[|news| - 1], x);
      if x in UpsertAll(es, init) {
        UpsertAllIn(es, init, x);
        if x in init {
          var k :| 0 <= k < |init| && init[k] == x;
          assert news[k] == x;
        }
      }
    }
  }

  /** New entries with distinct ids are all found after the upserts. */
  lemma {:induction false} UpsertAllLookup<M>(es: seq<Entry<M>>, news: seq<Entry<M>>, j: nat)
    requires UniqueIds(news) && j < |news|
    ensures Lookup(UpsertAll(es, news), news[j].id) == Some(news[j])
    decreases |news|
  {
    var init, last := news[..|news| - 1], news[|news| - 1];
    UpsertLookup(UpsertAll(es, init), last, news[j].id);
    if j < |news| - 1 {
      assert init[j] == news[j];
      UpsertAllLookup(es, init, j);
    }
  }

  /** Chunk ids are unambiguous: the id determines both the paper and the
      chunk index, because the index is written in digits and the digits
      hold no `_`. */
  lemma ChunkIdInjective(a: string, i: nat, b: string, j: nat)
    requires ChunkId(a, i) == ChunkId(b, j)
    ensures a == b && i == j
  {
    var d1, d2 := NatToString(i), NatToString(j);
    var s := ChunkId(a, i);
    assert s == (a + "_chunk") + ['_'] + d1 && s == (b + "_chunk") + ['_'] + d2;
    TrailingDigitsAfter(a + "_chunk", '_', d1);
    TrailingDigitsAfter(b + "_chunk", '_', d2);
    assert d1 == s[|s| - |d1|..] == d2;
    assert a + "_chunk_" == s[..|s| - |d1|] == b + "_chunk_";
    assert a == (a + "_chunk_")[..|a|];
    assert b == (b + "_chunk_")[..|b|];
    NatToStringInjective(i, j);
  }

  /** Storing the same entry twice leaves the map as storing it once: a
      re-embedded chunk replaces its earlier entry. */
  lemma {:induction false} UpsertTwice<M>(es: seq<Entry<M>>, e: Entry<M>)
    ensures Upsert(Upsert(es, e), e) == Upsert(es, e)
  {
    if es != [] && es[0].id != e.id {
      UpsertTwice(es[1..], e);
      assert Upsert(es, e)[1..] == Upsert(es[1..], e);
    }
  }

  // ---------------------------------------------------------------------
  // The calls of `embedChunks`
  // ---------------------------------------------------------------------

  /** What one `embedChunk` call gives: the not-initialised error without a
      client, else the answer to the embedding request for the chunk. */
  function ChunkCall(c: Chunk, p: Paper, s: Services, configured: bool): Result<seq<real>, string> {
    if configured then s.embed(ChunkText(c, p)) else Err(NotInitialized)
  }

  /** The position of the first chunk whose call fails, or the number of
      chunks when every call succeeds. */
  function FirstFailure(cs: seq<Chunk>, p: Paper, s: Services, configured: bool): (k: nat)
    ensures k <= |cs|
    ensures forall j | 0 <= j < k :: ChunkCall(cs[j], p, s, configured).Ok?
    ensures k < |cs| ==> ChunkCall(cs[k], p, s, configured).Err?
  {
    if cs == [] then 0
    else if ChunkCall(cs[0], p, s, configured).Err? then 0
    else 1 + FirstFailure(cs[1..], p, s, configured)
  }

  /** A position before which every call succeeds and at which a call fails
      (or the input ends) is the first failure. */
  lemma FirstFailureUnique(cs: seq<Chunk>, p: Paper, s: Services, configured: bool, k: nat)
    requires k <= |cs|
    requires forall j | 0 <= j < k :: ChunkCall(cs[j], p, s, configured).Ok?
    requires k < |cs| ==> ChunkCall(cs[k], p, s, configured).Err?
    ensures FirstFailure(cs, p, s, configured) == k
  {
  }

  /** The first failure of two runs of chunks: in the first run if it has
      one, else counted from the start of the second. */
  lemma FirstFailureAppend(xs: seq<Chunk>, ys: seq<Chunk>, p: Paper, s: Services, configured: bool)
    ensures FirstFailure(xs + ys, p, s, configured) ==
      if FirstFailure(xs, p, s, configured) < |xs| then FirstFailure(xs, p, s, configured)
      else |xs| + FirstFailure(ys, p, s, configured)
  {
    var fx, fy := FirstFailure(xs, p, s, configured), FirstFailure(ys, p, s, configured);
    var zs := xs + ys;
    var f := if fx < |xs| then fx else |xs| + fy;
    forall j | 0 <= j < f ensures ChunkCall(zs[j], p, s, configured).Ok? {
      if j >= |xs| {
        assert zs[j] == ys[j - |xs|];
      }
    }
    if f < |zs| && f >= |xs| {
      assert zs[f] == ys[fy];
    }
    FirstFailureUnique(zs, p, s, configured, f);
  }

  /** `Promise.all` over the calls of one batch: the vectors in chunk order
      when every call succeeds, else the error of the first failing chunk
      (every call still runs). */
  function BatchOutcome(cs: seq<Chunk>, p: Paper, s: Services, configured: bool): (r: Result<seq<seq<real>>, string>)
    ensures r.Ok? <==> forall j | 0 <= j < |cs| :: ChunkCall(cs[j], p, s, configured).Ok?
    ensures r.Ok? ==> |r.value| == |cs| && forall j | 0 <= j < |cs| :: r.value[j] == ChunkCall(cs[j], p, s, configured).value
  {
    if cs == [] then Ok([])
    else Extend(BatchOutcome(cs[..|cs| - 1], p, s, configured), ChunkCall(cs[|cs| - 1], p, s, configured))
  }

  /** The outcome so far followed by one more call: the earlier error, else
      the call's error, else the vectors with the call's vector appended. */
  function Extend(r: Result<seq<seq<real>>, string>, c: Result<seq<real>, string>): Result<seq<seq<real>>, string> {
    match r
    case Err(e) => Err(e)
    case Ok(vs) =>
      match c
      case Ok(v) => Ok(vs + [v])
      case Err(e) => Err(e)
  }

  /** A rejected batch carries the error of its first failing chunk. */
  lemma {:induction false} BatchOutcomeFirstError(cs: seq<Chunk>, p: Paper, s: Services, configured: bool)
    requires BatchOutcome(cs, p, s, configured).Err?
    ensures FirstFailure(cs, p, s, configured) < |cs|
    ensures ChunkCall(cs[FirstFailure(cs, p, s, configured)], p, s, configured) == Err(BatchOutcome(cs, p, s, configured).error)
    decreases |cs|
  {
    var init := cs[..|cs| - 1];
    FirstFailureAppend(init, [cs[|cs| - 1]], p, s, configured);
    assert init + [cs[|cs| - 1]] == cs;
    if BatchOutcome(init, p, s, configured).Err? {
      BatchOutcomeFirstError(init, p, s, configured);
      assert cs[FirstFailure(init, p, s, configured)] == init[FirstFailure(init, p, s, configured)];
    } else {
      assert FirstFailure(init, p, s, configured) == |init|;
      assert [cs[|cs| - 1]][0] == cs[|cs| - 1];
    }
  }

  /** The entries stored by the calls that succeed, in chunk order. */
  function Succeeded(cs: seq<Chunk>, p: Paper, s: Services, configured: bool): (r: seq<Entry<ChunkMeta>>)
    ensures |r| <= |cs|
    ensures !configured ==> r == []
  {
    if cs == [] then []
    else
      var last := cs[|cs| - 1];
      Succeeded(cs[..|cs| - 1], p, s, configured)
        + match ChunkCall(last, p, s, configured)
          case Ok(v) => [ChunkEntry(last, p, v)]
          case Err(_) => []
  }

  /** When every call succeeds, every chunk is stored, in chunk order, with
      the vector its call returned. */
  lemma {:induction false} SucceededAll(cs: seq<Chunk>, p: Paper, s: Services, configured: bool)
    requires forall j | 0 <= j < |cs| :: ChunkCall(cs[j], p, s, configured).Ok?
    ensures |Succeeded(cs, p, s, configured)| == |cs|
    ensures forall j | 0 <= j < |cs| ::
      Succeeded(cs, p, s, configured)[j] == ChunkEntry(cs[j], p, ChunkCall(cs[j], p, s, configured).value)
    decreases |cs|
  {
    if cs != [] {
      var init := cs[..|cs| - 1];
      SucceededAll(init, p, s, configured);
    }
  }

  lemma {:induction false} SucceededAppend(xs: seq<Chunk>, ys: seq<Chunk>, p: Paper, s: Services, configured: bool)
    ensures Succeeded(xs + ys, p, s, configured) == Succeeded(xs, p, s, configured) + Succeeded(ys, p, s, configured)
    decreases |ys|
  {
    if ys == [] {
      assert xs + ys == xs;
    } else {
      assert (xs + ys)[..|xs + ys| - 1] == xs + ys[..|ys| - 1];
      SucceededAppend(xs, ys[..|ys| - 1], p, s, configured);
    }
  }

  /** Only chunks whose call succeeded are stored, each with the vector its
      call returned. */
  lemma {:induction false} SucceededSound(cs: seq<Chunk>, p: Paper, s: Services, configured: bool, e: Entry<ChunkMeta>)
    requires e in Succeeded(cs, p, s, configured)
    ensures exists j | 0 <= j < |cs| ::
      ChunkCall(cs[j], p, s, configured).Ok? && e == ChunkEntry(cs[j], p, ChunkCall(cs[j], p, s, configured).value)
    decreases |cs|
  {
    var init := cs[..|cs| - 1];
    if e in Succeeded(init, p, s, configured) {
      SucceededSound(init, p, s, configured, e);
      var j :| 0 <= j < |init| && ChunkCall(init[j], p, s, configured).Ok?
        && e == ChunkEntry(init[j], p, ChunkCall(init[j], p, s, configured).value);
      assert init[j] == cs[j];
    } else {
      assert ChunkCall(cs[|cs| - 1], p, s, configured).Ok?;
    }
  }

  /** The outcome of a batch followed by more chunks. */
  lemma {:induction false} BatchOutcomeAppend(xs: seq<Chunk>, ys: seq<Chunk>, p: Paper, s: Services, configured: bool)
    ensures BatchOutcome(xs + ys, p, s, configured) ==
      match BatchOutcome(xs, p, s, configured)
      case Err(e) => Err(e)
      case Ok(vs) => Then(vs, BatchOutcome(ys, p, s, configured))
    decreases |ys|
  {
    if ys == [] {
      assert xs + ys == xs;
      if BatchOutcome(xs, p, s, configured).Ok? {
        assert BatchOutcome(xs, p, s, configured).value + [] == BatchOutcome(xs, p, s, configured).value;
      }
    } else {
      var init, last := ys[..|ys| - 1], ys[|ys| - 1];
      assert (xs + ys)[..|xs + ys| - 1] == xs + init;
      assert (xs + ys)[|xs + ys| - 1] == last;
      BatchOutcomeAppend(xs, init, p, s, configured);
      var a, i, c := BatchOutcome(xs, p, s, configured), BatchOutcome(init, p, s, configured), ChunkCall(last, p, s, configured);
      if a.Ok? && i.Ok? && c.Ok? {
        assert a.value + i.value + [c.value] == a.value + (i.value + [c.value]);
      }
    }
  }

  /** One more chunk: its call extends the batch outcome, and its entry is
      stored after the others when the call succeeds. */
  lemma BatchStep(cs: seq<Chunk>, j: nat, p: Paper, s: Services, configured: bool, es: seq<Entry<ChunkMeta>>)
    requires j < |cs|
    ensures BatchOutcome(cs[..j + 1], p, s, configured)
      == Extend(BatchOutcome(cs[..j], p, s, configured), ChunkCall(cs[j], p, s, configured))
    ensures UpsertAll(es, Succeeded(cs[..j + 1], p, s, configured)) ==
      match ChunkCall(cs[j], p, s, configured)
      case Ok(v) => Upsert(UpsertAll(es, Succeeded(cs[..j], p, s, configured)), ChunkEntry(cs[j], p, v))
      case Err(_) => UpsertAll(es, Succeeded(cs[..j], p, s, configured))
  {
    assert cs[..j + 1][..j] == cs[..j];
    var before := Succeeded(cs[..j], p, s, configured);
    match ChunkCall(cs[j], p, s, configured)
    case Ok(v) =>
      assert (before + [ChunkEntry(cs[j], p, v)])[..|before|] == before;
    case Err(_) =>
      assert before + [] == before;
  }

  /** Prepends the vectors gathered so far to a later outcome. */
  function Then(vs: seq<seq<real>>, later: Result<seq<seq<real>>, string>): Result<seq<seq<real>>, string> {
    match later
    case Ok(ws) => Ok(vs + ws)
    case Err(e) => Err(e)
  }

  lemma ThenEmpty(r: Result<seq<seq<real>>, string>)
    ensures Then([], r) == r
  {
    if r.Ok? {
      assert [] + r.value == r.value;
    }
  }

  function Min(a: nat, b: nat): nat {
    if a < b then a else b
  }

  /** `embedChunks`: the batches of ten go out one after the other. Every
      call of a batch runs, so each chunk whose call succeeds is stored; a
      batch with a failing call rejects with the first failure and ends the
      loop. The outcome pairs the entries stored, in order, with the vectors
      returned or the error thrown. */
  function EmbedChunksOutcome(cs: seq<Chunk>, p: Paper, s: Services, configured: bool)
    : (seq<Entry<ChunkMeta>>, Result<seq<seq<real>>, string>)
    decreases |cs|
  {
    if cs == [] then ([], Ok([]))
    else
      var n := Min(BatchSize, |cs|);
      var rest := EmbedChunksOutcome(cs[n..], p, s, configured);
      match BatchOutcome(cs[..n], p, s, configured)
      case Err(e) => (Succeeded(cs[..n], p, s, configured), Err(e))
      case Ok(vs) => (Succeeded(cs[..n], p, s, configured) + rest.0, Then(vs, rest.1))
  }

  /** The outcome from chunk `i` on, split after its first batch. */
  lemma OutcomeAt(cs: seq<Chunk>, i: nat, end: nat, p: Paper, s: Services, configured: bool)
    requires i < |cs| && end == Min(i + BatchSize, |cs|)
    ensures var b := BatchOutcome(cs[i..end], p, s, configured);
      b.Err? ==> EmbedChunksOutcome(cs[i..], p, s, configured) == (Succeeded(cs[i..end], p, s, configured), b)
    ensures var b := BatchOutcome(cs[i..end], p, s, configured);
      var later := EmbedChunksOutcome(cs[end..], p, s, configured);
      b.Ok? ==>
        EmbedChunksOutcome(cs[i..], p, s, configured)
        == (Succeeded(cs[i..end], p, s, configured) + later.0, Then(b.value, later.1))
  {
    var rest, n := cs[i..], end - i;
    assert rest[..n] == cs[i..end] && rest[n..] == cs[end..];
    OutcomeUnfold(rest, n, p, s, configured);
  }

  /** One turn of the batch loop of `embedChunks` whose batch succeeds:
      the rest of the outcome starts after the batch. */
  lemma OutcomeStep(cs: seq<Chunk>, i: nat, end: nat, stored: seq<Entry<ChunkMeta>>, vs: seq<seq<real>>,
                    p: Paper, s: Services, configured: bool)
    requires i < |cs| && end == Min(i + BatchSize, |cs|)
    requires BatchOutcome(cs[i..end], p, s, configured).Ok?
    requires var later := EmbedChunksOutcome(cs[i..], p, s, configured);
      EmbedChunksOutcome(cs, p, s, configured) == (stored + later.0, Then(vs, later.1))
    ensures var later := EmbedChunksOutcome(cs[end..], p, s, configured);
      EmbedChunksOutcome(cs, p, s, configured)
      == ((stored + Succeeded(cs[i..end], p, s, configured)) + later.0,
          Then(vs + BatchOutcome(cs[i..end], p, s, configured).value, later.1))
  {
    OutcomeAt(cs, i, end, p, s, configured);
    var later := EmbedChunksOutcome(cs[end..], p, s, configured);
    ResumeAfter(stored, Succeeded(cs[i..end], p, s, configured), later.0,
                vs, BatchOutcome(cs[i..end], p, s, configured).value, later.1);
  }

  lemma ResumeAfter(stored: seq<Entry<ChunkMeta>>, done: seq<Entry<ChunkMeta>>, rest: seq<Entry<ChunkMeta>>,
                    vs: seq<seq<real>>, bs: seq<seq<real>>, later: Result<seq<seq<real>>, string>)
    ensures stored + (done + rest) == (stored + done) + rest
    ensures Then(vs, Then(bs, later)) == Then(vs + bs, later)
  {
    if later.Ok? {
      assert vs + (bs + later.value) == (vs + bs) + later.value;
    }
  }

  /** Before the first batch the whole outcome is still ahead. */
  lemma OutcomeStart(cs: seq<Chunk>, p: Paper, s: Services, configured: bool)
    ensures var later := EmbedChunksOutcome(cs[0..], p, s, configured);
      EmbedChunksOutcome(cs, p, s, configured) == ([] + later.0, Then([], later.1))
  {
    var whole := EmbedChunksOutcome(cs, p, s, configured);
    assert cs[0..] == cs;
    ThenEmpty(whole.1);
    assert [] + whole.0 == whole.0;
  }

  /** After the last batch nothing is left of the outcome. */
  lemma OutcomeEnd(cs: seq<Chunk>, stored: seq<Entry<ChunkMeta>>, vs: seq<seq<real>>,
                   p: Paper, s: Services, configured: bool)
    requires var later := EmbedChunksOutcome(cs[|cs|..], p, s, configured);
      EmbedChunksOutcome(cs, p, s, configured) == (stored + later.0, Then(vs, later.1))
    ensures EmbedChunksOutcome(cs, p, s, configured) == (stored, Ok(vs))
  {
    assert cs[|cs|..] == [];
    assert stored + [] == stored && vs + [] == vs;
  }

  /** Where `embedChunks` stops when the chunk at `k` is the first to fail
      (`k == n` when none fails): at the end of that chunk's batch. */
  function StopIndex(k: nat, n: nat): (r: nat)
    requires k <= n
    ensures k <= r <= n
  {
    if k == n then n else Min((k / BatchSize + 1) * BatchSize, n)
  }

  /** `embedChunks` returns what `Promise.all` over every chunk would: the
      vectors of all chunks in order exactly when every call succeeds, else
      the first failure. It stores the succeeding chunks up to the end of
      the batch that holds the first failure, and none after it. */
  lemma {:induction false} EmbedChunksStops(cs: seq<Chunk>, p: Paper, s: Services, configured: bool)
    ensures EmbedChunksOutcome(cs, p, s, configured).1 == BatchOutcome(cs, p, s, configured)
    ensures EmbedChunksOutcome(cs, p, s, configured).0
      == Succeeded(cs[..StopIndex(FirstFailure(cs, p, s, configured), |cs|)], p, s, configured)
    decreases |cs|
  {
    if cs == [] {
      assert cs[..0] == [];
    } else {
      var n := Min(BatchSize, |cs|);
      EmbedChunksStops(cs[n..], p, s, configured);
      if BatchOutcome(cs[..n], p, s, configured).Err? {
        StopsInFirstBatch(cs, n, p, s, configured);
      } else {
        StopsLater(cs, n, p, s, configured);
      }
    }
  }

  /** When no chunk call fails, `embedChunks` stores one vector per chunk,
      in chunk order; for chunks numbered from zero each sits under its own
      chunk id. */
  lemma EmbedChunksComplete(cs: seq<Chunk>, p: Paper, s: Services)
    requires EmbedChunksOutcome(cs, p, s, true).1.Ok?
    requires forall k | 0 <= k < |cs| :: cs[k].chunkIndex == k
    ensures var es := EmbedChunksOutcome(cs, p, s, true).0;
      && |es| == |cs| && UniqueIds(es)
      && forall j | 0 <= j < |es| ::
           es[j].id == ChunkId(p.arxivId, j) && es[j].metadata.paperId == p.arxivId && es[j].metadata.chunkIndex == j
  {
    EmbedChunksStops(cs, p, s, true);
    FirstFailureUnique(cs, p, s, true, |cs|);
    assert cs[..|cs|] == cs;
    SucceededAll(cs, p, s, true);
    ChunkIdsUnique(EmbedChunksOutcome(cs, p, s, true).0, p.arxivId);
  }

  /** Entries under the chunk ids `0, 1, ...` of one paper have distinct
      ids. */
  lemma ChunkIdsUnique(es: seq<Entry<ChunkMeta>>, arxivId: string)
    requires forall j | 0 <= j < |es| :: es[j].id == ChunkId(arxivId, j)
    ensures UniqueIds(es)
  {
    forall i, j | 0 <= i < j < |es| ensures es[i].id != es[j].id {
      if es[i].id == es[j].id {
        ChunkIdInjective(arxivId, i, arxivId, j);
      }
    }
  }

  /** A failure in the first batch stops `embedChunks` after that batch. */
  lemma StopsInFirstBatch(cs: seq<Chunk>, n: nat, p: Paper, s: Services, configured: bool)
    requires cs != [] && n == Min(BatchSize, |cs|)
    requires BatchOutcome(cs[..n], p, s, configured).Err?
    ensures EmbedChunksOutcome(cs, p, s, configured).1 == BatchOutcome(cs, p, s, configured)
    ensures EmbedChunksOutcome(cs, p, s, configured).0
      == Succeeded(cs[..StopIndex(FirstFailure(cs, p, s, configured), |cs|)], p, s, configured)
  {
    var b := cs[..n];
    OutcomeUnfold(cs, n, p, s, configured);
    assert cs == b + cs[n..];
    BatchOutcomeAppend(b, cs[n..], p, s, configured);
    FirstFailureAppend(b, cs[n..], p, s, configured);
    StopIndexFirst(FirstFailure(cs, p, s, configured), n, |cs|);
  }

  lemma StopIndexFirst(k: nat, n: nat, len: nat)
    requires k < n && n == Min(BatchSize, len)
    ensures StopIndex(k, len) == n
  {
  }

  lemma OutcomeUnfold(cs: seq<Chunk>, n: nat, p: Paper, s: Services, configured: bool)
    requires cs != [] && n == Min(BatchSize, |cs|)
    ensures BatchOutcome(cs[..n], p, s, configured).Err? ==>
      EmbedChunksOutcome(cs, p, s, configured) == (Succeeded(cs[..n], p, s, configured), BatchOutcome(cs[..n], p, s, configured))
    ensures BatchOutcome(cs[..n], p, s, configured).Ok? ==>
      var rest := EmbedChunksOutcome(cs[n..], p, s, configured);
      EmbedChunksOutcome(cs, p, s, configured)
        == (Succeeded(cs[..n], p, s, configured) + rest.0, Then(BatchOutcome(cs[..n], p, s, configured).value, rest.1))
  {
  }

  /** A first batch that succeeds is followed by the rest of the run. */
  lemma StopsLater(cs: seq<Chunk>, n: nat, p: Paper, s: Services, configured: bool)
    requires cs != [] && n == Min(BatchSize, |cs|)
    requires BatchOutcome(cs[..n], p, s, configured).Ok?
    requires EmbedChunksOutcome(cs[n..], p, s, configured).1 == BatchOutcome(cs[n..], p, s, configured)
    requires EmbedChunksOutcome(cs[n..], p, s, configured).0
      == Succeeded(cs[n..][..StopIndex(FirstFailure(cs[n..], p, s, configured), |cs[n..]|)], p, s, configured)
    ensures EmbedChunksOutcome(cs, p, s, configured).1 == BatchOutcome(cs, p, s, configured)
    ensures EmbedChunksOutcome(cs, p, s, configured).0
      == Succeeded(cs[..StopIndex(FirstFailure(cs, p, s, configured), |cs|)], p, s, configured)
  {
    StopsLaterResult(cs, n, p, s, configured);
    StopsLaterKept(cs, n, p, s, configured);
  }

  lemma StopsLaterResult(cs: seq<Chunk>, n: nat, p: Paper, s: Services, configured: bool)
    requires cs != [] && n == Min(BatchSize, |cs|)
    requires BatchOutcome(cs[..n], p, s, configured).Ok?
    requires EmbedChunksOutcome(cs[n..], p, s, configured).1 == BatchOutcome(cs[n..], p, s, configured)
    ensures EmbedChunksOutcome(cs, p, s, configured).1 == BatchOutcome(cs, p, s, configured)
  {
    OutcomeUnfold(cs, n, p, s, configured);
    assert cs == cs[..n] + cs[n..];
    BatchOutcomeAppend(cs[..n], cs[n..], p, s, configured);
  }

  lemma StopsLaterKept(cs: seq<Chunk>, n: nat, p: Paper, s: Services, configured: bool)
    requires cs != [] && n == Min(BatchSize, |cs|)
    requires BatchOutcome(cs[..n], p, s, configured).Ok?
    requires EmbedChunksOutcome(cs[n..], p, s, configured).0
      == Succeeded(cs[n..][..StopIndex(FirstFailure(cs[n..], p, s, configured), |cs[n..]|)], p, s, configured)
    ensures EmbedChunksOutcome(cs, p, s, configured).0
      == Succeeded(cs[..StopIndex(FirstFailure(cs, p, s, configured), |cs|)], p, s, configured)
  {
    OutcomeUnfold(cs, n, p, s, configured);
    FirstFailureUnique(cs[..n], p, s, configured, n);
    StopsLaterStored(cs, n, p, s, configured);
  }

  lemma StopsLaterStored(cs: seq<Chunk>, n: nat, p: Paper, s: Services, configured: bool)
    requires cs != [] && n == Min(BatchSize, |cs|)
    requires FirstFailure(cs[..n], p, s, configured) == n
    ensures var m := StopIndex(FirstFailure(cs[n..], p, s, configured), |cs| - n);
      Succeeded(cs[..StopIndex(FirstFailure(cs, p, s, configured), |cs|)], p, s, configured)
        == Succeeded(cs[..n], p, s, configured) + Succeeded(cs[n..][..m], p, s, configured)
  {
    StopAfterFullBatch(cs, n, p, s, configured);
    var m := StopIndex(FirstFailure(cs[n..], p, s, configured), |cs| - n);
    var k := StopIndex(FirstFailure(cs, p, s, configured), |cs|);
    assert k == n + m;
    SliceSplit(cs, n, m);
    assert cs[..k] == cs[..n] + cs[n..][..m];
    SucceededAppend(cs[..n], cs[n..][..m], p, s, configured);
  }

  lemma StopAfterFullBatch(cs: seq<Chunk>, n: nat, p: Paper, s: Services, configured: bool)
    requires cs != [] && n == Min(BatchSize, |cs|)
    requires FirstFailure(cs[..n], p, s, configured) == n
    ensures StopIndex(FirstFailure(cs, p, s, configured), |cs|) == n + StopIndex(FirstFailure(cs[n..], p, s, configured), |cs| - n)
  {
    SliceSplit(cs, n, 0);
    FirstFailureAppend(cs[..n], cs[n..], p, s, configured);
    StopIndexShift(n, FirstFailure(cs[n..], p, s, configured), |cs| - n);
  }

  lemma SliceSplit<T>(xs: seq<T>, n: nat, m: nat)
    requires n + m <= |xs|
    ensures xs[..n + m] == xs[..n] + xs[n..][..m]
    ensures xs == xs[..n] + xs[n..]
  {
  }

  /** The stop of a run that follows a full first batch is the stop within
      the run, shifted by that batch. */
  lemma StopIndexShift(n: nat, kr: nat, len: nat)
    requires kr <= len && n <= BatchSize && (kr < len ==> n == BatchSize)
    ensures StopIndex(n + kr, n + len) == n + StopIndex(kr, len)
  {
    if kr < len {
      assert (n + kr) / BatchSize == kr / BatchSize + 1;
    }
  }

  /** Without a client no chunk is stored and a non-empty input rejects with
      the not-initialised error. */
  lemma EmbedChunksUnconfigured(cs: seq<Chunk>, p: Paper, s: Services)
    requires cs != []
    ensures EmbedChunksOutcome(cs, p, s, false) == ([], Err(NotInitialized))
  {
    EmbedChunksStops(cs, p, s, false);
    assert ChunkCall(cs[0], p, s, false).Err?;
    BatchOutcomeFirstError(cs, p, s, false);
  }

  // ---------------------------------------------------------------------
  // Batches of `embedChunks`
  // ---------------------------------------------------------------------

  /** `chunks.slice(i, i + 10)` for `i = 0, 10, 20, …` while `i` is below
      the length. */
  function Batches<T>(xs: seq<T>): seq<seq<T>>
    decreases |xs|
  {
    if xs == [] then []
    else [xs[..Min(BatchSize, |xs|)]] + Batches(xs[Min(BatchSize, |xs|)..])
  }

  function Flatten<T>(xss: seq<seq<T>>): seq<T> {
    if xss == [] then [] else xss[0] + Flatten(xss[1..])
  }

  /** The batches are consecutive slices that together are the input, in
      order; each holds between 1 and 10 items and all but the last exactly
      10; there are no batches for an empty input. */
  lemma {:induction false} BatchesPartition<T>(xs: seq<T>)
    ensures Flatten(Batches(xs)) == xs
    ensures |Batches(xs)| == (|xs| + BatchSize - 1) / BatchSize
    ensures forall b | 0 <= b < |Batches(xs)| :: 0 < |Batches(xs)[b]| <= BatchSize
    ensures forall b | 0 <= b < |Batches(xs)| - 1 :: |Batches(xs)[b]| == BatchSize
    decreases |xs|
  {
    if xs != [] {
      var n := Min(BatchSize, |xs|);
      BatchesPartition(xs[n..]);
      var bs := Batches(xs);
      assert bs[1..] == Batches(xs[n..]);
      assert xs == xs[..n] + xs[n..];
      forall b | 0 < b < |bs| ensures 0 < |bs[b]| <= BatchSize {
        assert bs[b] == Batches(xs[n..])[b - 1];
      }
      forall b | 0 < b < |bs| - 1 ensures |bs[b]| == BatchSize {
        assert bs[b] == Batches(xs[n..])[b - 1];
      }
    }
  }

  // ---------------------------------------------------------------------
  // Prompts
  // ---------------------------------------------------------------------

  // The prompts are written in short pieces: long string literals are
  // costly for the verifier.
  const DefaultSystemPrompt :=
    "You are an AI assistant " + "helping researchers " + "understand arXiv papers. " + "Use markdown formatting " + "for better readability."

  /** The system message of `chat`: with a truthy paper context, the
      context between a fixed lead and a fixed tail. */
  function ChatSystemPrompt(paperContext: Option<string>): string {
    if Truthy(paperContext) then
      ("You are an AI assistant " + "helping researchers " + "understand arXiv papers. " + "Here is the paper context:\n\n")
        + paperContext.value
        + ("\n\nAnswer questions " + "about this paper clearly " + "and concisely. Use markdown " + "formatting for better " + "readability.")
    else DefaultSystemPrompt
  }

  /** `paper.authors?.join(', ') || 'Unknown'`. */
  function AuthorsOrUnknown(p: Paper): string {
    if p.authors.Some? && Join(p.authors.value, ", ") != "" then Join(p.authors.value, ", ") else "Unknown"
  }

  function RagHeader(p: Paper): string {
    "You are an AI " + "assistant helping " + "researchers " + "understand arXiv " + "papers. \n    \n"
      + "Paper Information:" + "\nTitle: "
      + p.title + "\nAuthors: " + AuthorsOrUnknown(p) + "\narXiv ID: " + p.arxivId
      + "\n\nAbstract: " + p.abstractText + "\n\nRelevant " + "sections from " + "the full paper:\n"
  }

  /** The entry for the `i`-th retrieved chunk, counting from 1. */
  function SectionEntry(i: nat, c: Scored<ChunkMeta>): string {
    "\n[Section " + NatToString(i) + " - Page " + NatToString(c.metadata.pageNumber) + "]\n" + c.metadata.text + "\n"
  }

  /** The entries of the retrieved chunks, numbered from 1 in retrieval
      order. */
  function SectionList(cs: seq<Scored<ChunkMeta>>): string {
    if cs == [] then "" else SectionList(cs[..|cs| - 1]) + SectionEntry(|cs|, cs[|cs| - 1])
  }

  const RagFooter :=
    "\nUse the above " + "context to answer " + "questions. If " + "information is " + "not in the " + "provided context, " + "say so."

  function RagPrompt(p: Paper, cs: seq<Scored<ChunkMeta>>): string {
    RagHeader(p) + SectionList(cs) + RagFooter
  }

  /** Where the entry of chunk `k` starts in `h` followed by the entries
      of `cs`. */
  function ListOffset(h: string, cs: seq<Scored<ChunkMeta>>, k: nat): nat
    requires k <= |cs|
  {
    |h| + |SectionList(cs[..k])|
  }

  lemma {:induction false} SectionListPrefix(cs: seq<Scored<ChunkMeta>>, k: nat)
    requires k <= |cs|
    ensures StartsWith(SectionList(cs), SectionList(cs[..k]))
    decreases |cs| - k
  {
    if k < |cs| {
      SectionListPrefix(cs, k + 1);
      assert cs[..k + 1][..k] == cs[..k];
    } else {
      assert cs[..k] == cs;
    }
  }

  /** The RAG prompt opens with the paper's title, authors (or `Unknown`),
      id and abstract, then holds the entry `[Section k+1 - Page p]` of the
      `k`-th retrieved chunk, each entry right after the previous one, in
      retrieval order, and closes with the instruction to answer from that
      context. */
  lemma RagPromptLayout(p: Paper, cs: seq<Scored<ChunkMeta>>, k: nat)
    requires k < |cs|
    ensures ListOffset(RagHeader(p), cs, k + 1) == ListOffset(RagHeader(p), cs, k) + |SectionEntry(k + 1, cs[k])|
    ensures ListOffset(RagHeader(p), cs, k + 1) <= |RagPrompt(p, cs)|
    ensures RagPrompt(p, cs)[ListOffset(RagHeader(p), cs, k)..ListOffset(RagHeader(p), cs, k + 1)]
      == SectionEntry(k + 1, cs[k])
  {
    SectionLayout(RagHeader(p), cs, k, RagFooter, RagPrompt(p, cs));
  }

  /** The same layout for any text `t` made of `h`, the list and `f`. */
  lemma {:induction false} SectionLayout(h: string, cs: seq<Scored<ChunkMeta>>, k: nat, f: string, t: string)
    requires k < |cs| && t == h + SectionList(cs) + f
    ensures ListOffset(h, cs, k + 1) == ListOffset(h, cs, k) + |SectionEntry(k + 1, cs[k])|
    ensures ListOffset(h, cs, k + 1) <= |t|
    ensures t[ListOffset(h, cs, k)..ListOffset(h, cs, k + 1)] == SectionEntry(k + 1, cs[k])
  {
    SectionListPrefix(cs, k + 1);
    SectionListStep(cs, k);
    PieceAt(h, SectionList(cs[..k]), SectionEntry(k + 1, cs[k]), SectionList(cs), f);
  }

  /** A piece that follows `before` at the start of `all` sits right after
      `h + before` in `h + all + f`. */
  lemma PieceAt(h: string, before: string, piece: string, all: string, f: string)
    requires StartsWith(all, before + piece)
    ensures |h| + |before| + |piece| <= |h + all + f|
    ensures (h + all + f)[|h| + |before|..|h| + |before| + |piece|] == piece
  {
    var t := h + all + f;
    forall i | 0 <= i < |piece| ensures t[|h| + |before| + i] == piece[i] {
      assert t[|h| + |before| + i] == all[|before| + i];
      assert all[..|before + piece|][|before| + i] == piece[i];
    }
  }

  lemma SectionListStep(cs: seq<Scored<ChunkMeta>>, k: nat)
    requires k < |cs|
    ensures SectionList(cs[..k + 1]) == SectionList(cs[..k]) + SectionEntry(k + 1, cs[k])
  {
    assert cs[..k + 1][..k] == cs[..k];
  }

  /** The prompt opens with the paper block and closes with the instruction
      to answer from the listed context. */
  lemma RagPromptEnds(p: Paper, cs: seq<Scored<ChunkMeta>>)
    ensures StartsWith(RagPrompt(p, cs), RagHeader(p))
    ensures |RagFooter| <= |RagPrompt(p, cs)| && RagPrompt(p, cs)[|RagPrompt(p, cs)| - |RagFooter|..] == RagFooter
  {
    ThreeParts(RagHeader(p), SectionList(cs), RagFooter, RagPrompt(p, cs));
  }

  /** A text made of three parts starts with the first and ends with the
      last. */
  lemma ThreeParts(h: string, l: string, f: string, t: string)
    requires t == h + l + f
    ensures StartsWith(t, h)
    ensures |f| <= |t| && t[|t| - |f|..] == f
  {
    assert t[..|h|] == h;
    assert t[|h + l|..] == f;
  }

  /** The user prompt of `summarizePaper`. */
  function SummaryPrompt(p: Paper, authors: seq<string>): string {
    ("Please provide a concise " + "summary of this paper:\n\nTitle: ") + p.title + "\nAuthors: " + Join(authors, ", ")
      + "\nAbstract: " + p.abstractText
      + ("\n\nProvide a 2-3 paragraph " + "summary that highlights " + "the key contributions " + "and findings.")
  }

  /** The user prompt of `extractKeywords`. */
  function KeywordsPrompt(p: Paper): string {
    ("Extract 5-8 relevant " + "keywords/tags for this " + "paper:\n\nTitle: ") + p.title + "\nAbstract: " + p.abstractText
      + ("\n\nReturn only the " + "keywords as a comma-separated " + "list.")
  }

  /** `response?.split(',').map(k => k.trim()) || []`: a missing reply
      gives no keywords, any reply (even the empty one) at least one. */
  function Keywords(response: Option<string>): (r: seq<string>)
    ensures response.None? ==> r == []
    ensures response.Some? ==> |r| == |SplitOn(response.value, ',')| >= 1
  {
    if response.None? then []
    else
      var pieces := SplitOn(response.value, ',');
      seq(|pieces|, k requires 0 <= k < |pieces| => Trim(pieces[k]))
  }

  /** Each keyword is the comma-separated piece at its position with the
      surrounding whitespace removed: it holds no comma and neither starts
      nor ends with whitespace. */
  lemma KeywordsTrimmed(reply: string, k: nat)
    requires k < |Keywords(Some(reply))|
    ensures Keywords(Some(reply))[k] == Trim(SplitOn(reply, ',')[k])
    ensures Lacks(Keywords(Some(reply))[k], ',')
    ensures var w := Keywords(Some(reply))[k]; w != [] ==> !IsWhitespace(w[0]) && !IsWhitespace(w[|w| - 1])
  {
    var pieces := SplitOn(reply, ',');
    SplitOnJoin(reply, ',');
    TrimLacks(pieces[k], ',');
  }

  /** When no comma-separated piece of the reply has surrounding
      whitespace, joining the keywords with commas gives back the reply. */
  lemma KeywordsJoin(reply: string)
    requires forall k | 0 <= k < |SplitOn(reply, ',')| :: Trim(SplitOn(reply, ',')[k]) == SplitOn(reply, ',')[k]
    ensures Join(Keywords(Some(reply)), [',']) == reply
  {
    SplitOnJoin(reply, ',');
    assert Keywords(Some(reply)) == SplitOn(reply, ',');
  }

  /** The `ragContext +=` loop of `chatWithRAG`. */
  method BuildRagContext(paper: Paper, relevantChunks: seq<Scored<ChunkMeta>>) returns (ragContext: string)
    ensures ragContext == RagPrompt(paper, relevantChunks)
  {
    var header := RagHeader(paper);
    ragContext := header;
    var idx := 0;
    assert relevantChunks[..0] == [];
    while idx < |relevantChunks|
      invariant idx <= |relevantChunks|
      invariant ragContext == header + SectionList(relevantChunks[..idx])
    {
      SectionListStep(relevantChunks, idx);
      ConcatAssoc(header, SectionList(relevantChunks[..idx]), SectionEntry(idx + 1, relevantChunks[idx]));
      ragContext := ragContext + SectionEntry(idx + 1, relevantChunks[idx]);
      idx := idx + 1;
    }
    assert relevantChunks[..idx] == relevantChunks;
    ragContext := ragContext + RagFooter;
  }

  // ---------------------------------------------------------------------
  // The assistant
  // ---------------------------------------------------------------------

  class ArxivAssistant {
    /** `this.openai !== null`. */
    var configured: bool
    var vectorStore: BrowserVectorStore

    ghost predicate Valid()
      reads this, vectorStore
    {
      vectorStore.Valid()
    }

    /** The client is created only for a truthy key; the store starts
        empty. */
    constructor(apiKey: Option<string>)
      ensures configured == Truthy(apiKey)
      ensures fresh(vectorStore) && vectorStore.items == [] && vectorStore.chunkItems == []
      ensures Valid()
    {
      configured := Truthy(apiKey);
      vectorStore := new BrowserVectorStore();
    }

    /** `embedPaper`: embeds title, authors and abstract and stores the
        vector under the arXiv id; a rejected request stores nothing. */
    method EmbedPaper(paper: Paper, s: Services) returns (r: Result<seq<real>, string>)
      requires Valid()
      modifies vectorStore
      ensures Valid()
      ensures vectorStore.chunkItems == old(vectorStore.chunkItems)
      ensures !configured ==> r == Err(NotInitialized) && vectorStore.items == old(vectorStore.items)
      ensures configured && paper.authors.None? ==> r == Err(JoinOfUndefined) && vectorStore.items == old(vectorStore.items)
      ensures configured && paper.authors.Some? ==>
        && r == s.embed(PaperText(paper, paper.authors.value))
        && vectorStore.items == if r.Ok? then Upsert(old(vectorStore.items), PaperEntry(paper, paper.authors.value, r.value))
                                else old(vectorStore.items)
    {
      if !configured {
        return Err(NotInitialized);
      }
      if paper.authors.None? {
        return Err(JoinOfUndefined);
      }
      var text := PaperText(paper, paper.authors.value);
      r := s.embed(text);
      if r.Ok? {
        vectorStore.AddItem(paper.arxivId, r.value, PaperMeta(paper.arxivId, paper.title, text));
      }
    }

    /** `embedChunk`: embeds the chunk with its paper title and page and
        stores it under `<arxivId>_chunk_<chunkIndex>`. */
    method EmbedChunk(chunk: Chunk, paper: Paper, s: Services) returns (r: Result<seq<real>, string>)
      requires Valid()
      modifies vectorStore
      ensures Valid()
      ensures vectorStore.items == old(vectorStore.items)
      ensures r == ChunkCall(chunk, paper, s, configured)
      ensures vectorStore.chunkItems == if r.Ok? then Upsert(old(vectorStore.chunkItems), ChunkEntry(chunk, paper, r.value))
                                       else old(vectorStore.chunkItems)
    {
      if !configured {
        return Err(NotInitialized);
      }
      r := s.embed(ChunkText(chunk, paper));
      if r.Ok? {
        vectorStore.AddChunkItem(ChunkId(paper.arxivId, chunk.chunkIndex), r.value,
          ChunkMeta(paper.arxivId, chunk.chunkIndex, chunk.pageNumber, chunk.text));
      }
    }

    /** `Promise.all(batch.map(chunk => this.embedChunk(chunk, paper)))`,
        taken one chunk after the other: every call runs and stores its
        chunk when it succeeds. */
    method EmbedBatch(batch: seq<Chunk>, paper: Paper, s: Services) returns (r: Result<seq<seq<real>>, string>)
      requires Valid()
      modifies vectorStore
      ensures Valid()
      ensures vectorStore.items == old(vectorStore.items)
      ensures r == BatchOutcome(batch, paper, s, configured)
      ensures vectorStore.chunkItems == UpsertAll(old(vectorStore.chunkItems), Succeeded(batch, paper, s, configured))
    {
      r := Ok([]);
      var j := 0;
      while j < |batch|
        invariant Valid()
        invariant j <= |batch|
        invariant vectorStore.items == old(vectorStore.items)
        invariant r == BatchOutcome(batch[..j], paper, s, configured)
        invariant vectorStore.chunkItems == UpsertAll(old(vectorStore.chunkItems), Succeeded(batch[..j], paper, s, configured))
      {
        BatchStep(batch, j, paper, s, configured, old(vectorStore.chunkItems));
        var e := EmbedChunk(batch[j], paper, s);
        r := Extend(r, e);
        j := j + 1;
      }
      assert batch[..j] == batch;
    }

    /** `embedChunks`: the chunks go out in consecutive batches of at most
        ten; the loop stops at the first batch that rejects. */
    method EmbedChunks(chunks: seq<Chunk>, paper: Paper, s: Services) returns (r: Result<seq<seq<real>>, string>)
      requires Valid()
      modifies vectorStore
      ensures Valid()
      ensures vectorStore.items == old(vectorStore.items)
      ensures r == EmbedChunksOutcome(chunks, paper, s, configured).1
      ensures vectorStore.chunkItems == UpsertAll(old(vectorStore.chunkItems), EmbedChunksOutcome(chunks, paper, s, configured).0)
    {
      var embeddings: seq<seq<real>> := [];
      ghost var stored: seq<Entry<ChunkMeta>> := [];
      var i := 0;
      OutcomeStart(chunks, paper, s, configured);
      while i < |chunks|
        invariant Valid()
        invariant i <= |chunks|
        invariant vectorStore.items == old(vectorStore.items)
        invariant vectorStore.chunkItems == UpsertAll(old(vectorStore.chunkItems), stored)
        invariant var later := EmbedChunksOutcome(chunks[i..], paper, s, configured);
          EmbedChunksOutcome(chunks, paper, s, configured) == (stored + later.0, Then(embeddings, later.1))
        decreases |chunks| - i
      {
        var end := Min(i + BatchSize, |chunks|);
        var batch := chunks[i..end];
        var batchEmbeddings := EmbedBatch(batch, paper, s);
        UpsertAllAppend(old(vectorStore.chunkItems), stored, Succeeded(batch, paper, s, configured));
        if batchEmbeddings.Err? {
          OutcomeAt(chunks, i, end, paper, s, configured);
          stored := stored + Succeeded(batch, paper, s, configured);
          return Err(batchEmbeddings.error);
        }
        OutcomeStep(chunks, i, end, stored, embeddings, paper, s, configured);
        stored := stored + Succeeded(batch, paper, s, configured);
        embeddings := embeddings + batchEmbeddings.value;
        i := end;
      }
      OutcomeEnd(chunks, stored, embeddings, paper, s, configured);
      return Ok(embeddings);
    }

    /** `retrieveRelevantChunks`: the query's embedding searched against
        the chunks of one paper. */
    method RetrieveRelevantChunks(query: string, paperId: string, topK: nat, s: Services)
      returns (r: Result<seq<Scored<ChunkMeta>>, string>)
      ensures !configured ==> r == Err(NotInitialized)
      ensures configured && s.embed(query).Err? ==> r == Err(s.embed(query).error)
      ensures configured && s.embed(query).Ok? ==>
        r == Ok(Top(ScoreMatching(vectorStore.chunkItems, paperId, s.embed(query).value, s.sqrt), topK))
    {
      if !configured {
        return Err(NotInitialized);
      }
      var response := s.embed(query);
      if response.Err? {
        return Err(response.error);
      }
      var similar := vectorStore.FindSimilarChunks(response.value, paperId, topK, s.sqrt);
      return Ok(similar);
    }

    /** `embedText`. */
    method EmbedText(text: string, s: Services) returns (r: Result<seq<real>, string>)
      ensures !configured ==> r == Err(NotInitialized)
      ensures configured ==> r == s.embed(text)
    {
      if !configured {
        return Err(NotInitialized);
      }
      return s.embed(text);
    }

    /** `searchSimilarPapers`: the best `k` papers for the query, as
        `{score, item}` pairs. */
    method SearchSimilarPapers(query: string, k: nat, s: Services) returns (r: Result<seq<SearchHit>, string>)
      ensures !configured ==> r == Err(NotInitialized)
      ensures configured && s.embed(query).Err? ==> r == Err(s.embed(query).error)
      ensures configured && s.embed(query).Ok? ==>
        var top := Top(ScoreAll(vectorStore.items, s.embed(query).value, s.sqrt), k);
        r.Ok? && |r.value| == |top|
        && forall n | 0 <= n < |r.value| :: r.value[n] == SearchHit(top[n].similarity, top[n].metadata)
    {
      if !configured {
        return Err(NotInitialized);
      }
      var response := s.embed(query);
      if response.Err? {
        return Err(response.error);
      }
      var results := vectorStore.FindSimilar(response.value, k, s.sqrt);
      var hits := seq(|results|, n requires 0 <= n < |results| => SearchHit(results[n].similarity, results[n].metadata));
      return Ok(hits);
    }

    /** `chat`: one system message, chosen by the paper context, ahead of
        the caller's messages. */
    method Chat(messages: seq<ChatMessage>, paperContext: Option<string>, s: Services)
      returns (r: Result<Option<string>, string>)
      ensures !configured ==> r == Err(NotInitialized)
      ensures configured ==> r == s.complete([ChatMessage(System, ChatSystemPrompt(paperContext))] + messages)
    {
      if !configured {
        return Err(NotInitialized);
      }
      var systemMessage := ChatMessage(System, ChatSystemPrompt(paperContext));
      return s.complete([systemMessage] + messages);
    }

    /** `chatWithRAG`: the last message is the query; its three best chunks
        of the paper are listed in the system prompt, which goes ahead of
        the caller's messages. */
    method ChatWithRag(messages: seq<ChatMessage>, paper: Paper, s: Services)
      returns (r: Result<Option<string>, string>)
      ensures !configured ==> r == Err(NotInitialized)
      ensures configured && messages == [] ==> r == Err(ContentOfUndefined)
      ensures configured && messages != [] ==>
        var query := s.embed(messages[|messages| - 1].content);
        && (query.Err? ==> r == Err(query.error))
        && (query.Ok? ==>
              r == s.complete([ChatMessage(System, RagPrompt(paper,
                     Top(ScoreMatching(vectorStore.chunkItems, paper.arxivId, query.value, s.sqrt), 3)))] + messages))
    {
      if !configured {
        return Err(NotInitialized);
      }
      if messages == [] {
        return Err(ContentOfUndefined);
      }
      var userQuery := messages[|messages| - 1].content;
      var retrieved := RetrieveRelevantChunks(userQuery, paper.arxivId, 3, s);
      if retrieved.Err? {
        return Err(retrieved.error);
      }
      var ragContext := BuildRagContext(paper, retrieved.value);
      var systemMessage := ChatMessage(System, ragContext);
      return s.complete([systemMessage] + messages);
    }

    /** `summarizePaper`: the prompt is built before the client is checked,
        so a paper without authors fails on `join` first. */
    method SummarizePaper(paper: Paper, s: Services) returns (r: Result<Option<string>, string>)
      ensures paper.authors.None? ==> r == Err(JoinOfUndefined)
      ensures paper.authors.Some? && !configured ==> r == Err(NotInitialized)
      ensures paper.authors.Some? && configured ==>
        r == s.complete([ChatMessage(System, DefaultSystemPrompt),
                         ChatMessage(User, SummaryPrompt(paper, paper.authors.value))])
    {
      if paper.authors.None? {
        return Err(JoinOfUndefined);
      }
      var prompt := SummaryPrompt(paper, paper.authors.value);
      r := Chat([ChatMessage(User, prompt)], None, s);
      assert [ChatMessage(System, DefaultSystemPrompt)] + [ChatMessage(User, prompt)]
        == [ChatMessage(System, DefaultSystemPrompt), ChatMessage(User, prompt)];
    }

    /** `extractKeywords`: the reply split on commas, each piece trimmed; a
        rejected request rejects. */
    method ExtractKeywords(paper: Paper, s: Services) returns (r: Result<seq<string>, string>)
      ensures !configured ==> r == Err(NotInitialized)
      ensures configured ==>
        var reply := s.complete([ChatMessage(System, DefaultSystemPrompt), ChatMessage(User, KeywordsPrompt(paper))]);
        r == if reply.Ok? then Ok(Keywords(reply.value)) else Err(reply.error)
    {
      var response := Chat([ChatMessage(User, KeywordsPrompt(paper))], None, s);
      assert [ChatMessage(System, DefaultSystemPrompt)] + [ChatMessage(User, KeywordsPrompt(paper))]
        == [ChatMessage(System, DefaultSystemPrompt), ChatMessage(User, KeywordsPrompt(paper))];
      if response.Err? {
        return Err(response.error);
      }
      return Ok(Keywords(response.value));
    }
  }
}
