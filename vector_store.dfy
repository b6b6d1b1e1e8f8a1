/** `BrowserVectorStore`: two insertion-ordered maps from id to embedding,
    one for whole papers and one for PDF chunks, searched by cosine
    similarity. A JavaScript `Map` is a sequence of entries with distinct
    keys: `set` on a present key replaces that entry where it stands, on a
    new key appends it; iteration follows the sequence. */
module VectorStore {
  import opened Wrappers
  import opened Similarity
  import opened Ranking

  datatype Entry<M> = Entry(id: string, vector: seq<real>, metadata: M)

  /** Metadata stored with a paper embedding. */
  datatype PaperMeta = PaperMeta(arxivId: string, title: string, text: string)

  /** Metadata stored with a chunk embedding. */
  datatype ChunkMeta = ChunkMeta(paperId: string, chunkIndex: nat, pageNumber: nat, text: string)

  function Ids<M>(es: seq<Entry<M>>): (r: seq<string>)
    ensures |r| == |es| && forall i | 0 <= i < |es| :: r[i] == es[i].id
  {
    if es == [] then [] else [es[0].id] + Ids(es[1..])
  }

  predicate UniqueIds<M>(es: seq<Entry<M>>) {
    forall i, j | 0 <= i < j < |es| :: es[i].id != es[j].id
  }

  /** `map.get(id)`. */
  function Lookup<M>(es: seq<Entry<M>>, id: string): Option<Entry<M>> {
    if es == [] then None
    else if es[0].id == id then Some(es[0])
    else Lookup(es[1..], id)
  }

  /** `map.set(e.id, e)`. */
  function Upsert<M>(es: seq<Entry<M>>, e: Entry<M>): seq<Entry<M>> {
    if es == [] then [e]
    else if es[0].id == e.id then [e] + es[1..]
    else [es[0]] + Upsert(es[1..], e)
  }

  /** After `set`, the key maps to the new entry and every other key to
      what it mapped to before. */
  lemma {:induction false} UpsertLookup<M>(es: seq<Entry<M>>, e: Entry<M>, id: string)
    ensures Lookup(Upsert(es, e), id) == if id == e.id then Some(e) else Lookup(es, id)
  {
    if es != [] && es[0].id != e.id {
      UpsertLookup(es[1..], e, id);
      assert Upsert(es, e)[1..] == Upsert(es[1..], e);
    }
  }

  /** `set` keeps the key order: a present key stays where it is, a new
      key goes last. */
  lemma {:induction false} UpsertIds<M>(es: seq<Entry<M>>, e: Entry<M>)
    ensures Ids(Upsert(es, e)) == if e.id in Ids(es) then Ids(es) else Ids(es) + [e.id]
  {
    if es != [] {
      assert Ids(es) == [es[0].id] + Ids(es[1..]);
      if es[0].id != e.id {
        UpsertIds(es[1..], e);
        assert Upsert(es, e)[1..] == Upsert(es[1..], e);
        assert e.id in Ids(es) <==> e.id in Ids(es[1..]);
      }
    }
  }

  /** `set` adds the new entry and drops at most the one it replaces. */
  lemma {:induction false} UpsertIn<M>(es: seq<Entry<M>>, e: Entry<M>, x: Entry<M>)
    requires x in Upsert(es, e)
    ensures x in es || x == e
  {
    if es != [] && es[0].id != e.id && x != es[0] {
      assert x in Upsert(es[1..], e);
      UpsertIn(es[1..], e, x);
    }
  }

  lemma UpsertUnique<M>(es: seq<Entry<M>>, e: Entry<M>)
    requires UniqueIds(es)
    ensures UniqueIds(Upsert(es, e))
  {
    UpsertIds(es, e);
    var r := Upsert(es, e);
    forall i, j | 0 <= i < j < |r| ensures r[i].id != r[j].id {
      assert Ids(r)[i] == r[i].id && Ids(r)[j] == r[j].id;
      if j < |es| {
        assert Ids(es)[i] == es[i].id && Ids(es)[j] == es[j].id;
      } else {
        assert e.id !in Ids(es);
        assert Ids(es)[i] == es[i].id;
      }
    }
  }

  /** Every entry scored against the query, in map order. */
  function ScoreAll<M>(es: seq<Entry<M>>, query: seq<real>, sqrt: real -> real): (r: seq<Scored<M>>)
    ensures |r| == |es|
  {
    seq(|es|, i requires 0 <= i < |es| => Scored(es[i].id, Cosine(query, es[i].vector, sqrt), es[i].metadata))
  }

  /** The chunk entries of one paper scored against the query, in map
      order. */
  function ScoreMatching(es: seq<Entry<ChunkMeta>>, paperId: string, query: seq<real>, sqrt: real -> real)
    : seq<Scored<ChunkMeta>>
  {
    if es == [] then []
    else
      var last := es[|es| - 1];
      ScoreMatching(es[..|es| - 1], paperId, query, sqrt)
        + if last.metadata.paperId == paperId then [Scored(last.id, Cosine(query, last.vector, sqrt), last.metadata)] else []
  }

  /** The entries of one paper. */
  function OfPaper(es: seq<Entry<ChunkMeta>>, paperId: string): seq<Entry<ChunkMeta>> {
    if es == [] then []
    else OfPaper(es[..|es| - 1], paperId) + if es[|es| - 1].metadata.paperId == paperId then [es[|es| - 1]] else []
  }

  /** A paper none of whose entries is stored has no entries to score. */
  lemma {:induction false} OfPaperNone(es: seq<Entry<ChunkMeta>>, paperId: string)
    requires forall e | e in es :: e.metadata.paperId != paperId
    ensures OfPaper(es, paperId) == []
  {
    if es != [] {
      assert es[|es| - 1] in es;
      OfPaperNone(es[..|es| - 1], paperId);
    }
  }

  /** Filtering then scoring: the matching scores are exactly the scores of
      the paper's own entries, so each carries that paper id. */
  lemma {:induction false} ScoreMatchingOfPaper(es: seq<Entry<ChunkMeta>>, paperId: string, query: seq<real>, sqrt: real -> real)
    ensures ScoreMatching(es, paperId, query, sqrt) == ScoreAll(OfPaper(es, paperId), query, sqrt)
    ensures forall k | 0 <= k < |OfPaper(es, paperId)| :: OfPaper(es, paperId)[k].metadata.paperId == paperId
  {
    if es != [] {
      ScoreMatchingOfPaper(es[..|es| - 1], paperId, query, sqrt);
    }
  }

  class BrowserVectorStore {
    var items: seq<Entry<PaperMeta>>
    var chunkItems: seq<Entry<ChunkMeta>>

    ghost predicate Valid()
      reads this
    {
      UniqueIds(items) && UniqueIds(chunkItems)
    }

    constructor()
      ensures Valid() && items == [] && chunkItems == []
    {
      items := [];
      chunkItems := [];
    }

    /** `addItem`: insert or replace under `id`; the chunk map is untouched. */
    method AddItem(id: string, vector: seq<real>, metadata: PaperMeta)
      requires Valid()
      modifies this
      ensures Valid()
      ensures items == Upsert(old(items), Entry(id, vector, metadata))
      ensures chunkItems == old(chunkItems)
    {
      UpsertUnique(items, Entry(id, vector, metadata));
      items := Upsert(items, Entry(id, vector, metadata));
    }

    /** `addChunkItem`: insert or replace under `id`; the paper map is
        untouched. */
    method AddChunkItem(id: string, vector: seq<real>, metadata: ChunkMeta)
      requires Valid()
      modifies this
      ensures Valid()
      ensures chunkItems == Upsert(old(chunkItems), Entry(id, vector, metadata))
      ensures items == old(items)
    {
      UpsertUnique(chunkItems, Entry(id, vector, metadata));
      chunkItems := Upsert(chunkItems, Entry(id, vector, metadata));
    }

    /** `findSimilar`: score every paper entry, then keep the `limit` best,
        best first. */
    method FindSimilar(queryVector: seq<real>, limit: nat, sqrt: real -> real) returns (r: seq<Scored<PaperMeta>>)
      ensures r == Top(ScoreAll(items, queryVector, sqrt), limit)
    {
      var similarities: seq<Scored<PaperMeta>> := [];
      var i := 0;
      while i < |items|
        invariant i <= |items|
        invariant similarities == ScoreAll(items[..i], queryVector, sqrt)
      {
        var similarity := CosineSimilarity(queryVector, items[i].vector, sqrt);
        similarities := similarities + [Scored(items[i].id, similarity, items[i].metadata)];
        i := i + 1;
      }
      assert items[..i] == items;
      r := Top(similarities, limit);
    }

    /** `findSimilarChunks`: score only the chunks of `paperId`, then keep
        the `limit` best, best first. */
    method FindSimilarChunks(queryVector: seq<real>, paperId: string, limit: nat, sqrt: real -> real)
      returns (r: seq<Scored<ChunkMeta>>)
      ensures r == Top(ScoreMatching(chunkItems, paperId, queryVector, sqrt), limit)
    {
      var similarities: seq<Scored<ChunkMeta>> := [];
      var i := 0;
      while i < |chunkItems|
        invariant i <= |chunkItems|
        invariant similarities == ScoreMatching(chunkItems[..i], paperId, queryVector, sqrt)
      {
        var item := chunkItems[i];
        assert chunkItems[..i + 1][..i] == chunkItems[..i];
        if item.metadata.paperId == paperId {
          var similarity := CosineSimilarity(queryVector, item.vector, sqrt);
          similarities := similarities + [Scored(item.id, similarity, item.metadata)];
        }
        i := i + 1;
      }
      assert chunkItems[..i] == chunkItems;
      r := Top(similarities, limit);
    }
  }

  /** What `findSimilarChunks` promises: only chunks of the requested
      paper, `min(limit, number of that paper's chunks)` of them, best
      first, each one of the paper's chunks scored by cosine similarity
      with the query. */
  lemma FindSimilarChunksSpec(chunkItems: seq<Entry<ChunkMeta>>, paperId: string, query: seq<real>, limit: nat, sqrt: real -> real)
    ensures var r := Top(ScoreMatching(chunkItems, paperId, query, sqrt), limit);
      var n := |OfPaper(chunkItems, paperId)|;
      && |r| == (if limit < n then limit else n)
      && SortedDesc(r)
      && multiset(r) <= multiset(ScoreMatching(chunkItems, paperId, query, sqrt))
      && forall k | 0 <= k < |r| :: r[k].metadata.paperId == paperId
  {
    var all := ScoreMatching(chunkItems, paperId, query, sqrt);
    ScoreMatchingOfPaper(chunkItems, paperId, query, sqrt);
    TopSpec(all, limit);
    var r := Top(all, limit);
    forall k | 0 <= k < |r| ensures r[k].metadata.paperId == paperId {
      assert r[k] in multiset(all);
      var m :| 0 <= m < |all| && all[m] == r[k];
    }
  }

  /** What `findSimilar` promises: `min(limit, number of entries)` paper
      entries, best first. */
  lemma FindSimilarSpec(items: seq<Entry<PaperMeta>>, query: seq<real>, limit: nat, sqrt: real -> real)
    ensures var r := Top(ScoreAll(items, query, sqrt), limit);
      && |r| == (if limit < |items| then limit else |items|)
      && SortedDesc(r)
      && multiset(r) <= multiset(ScoreAll(items, query, sqrt))
  {
    TopSpec(ScoreAll(items, query, sqrt), limit);
  }
}
