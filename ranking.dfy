/** Ranking by similarity: `array.sort((a, b) => b.similarity -
    a.similarity)` followed by `slice(0, limit)`. JavaScript's sort is
    stable, so entries with equal scores keep their relative order. */
module Ranking {

  /** One scored entry: the key it was stored under, its score and its
      metadata. */
  datatype Scored<M> = Scored(id: string, similarity: real, metadata: M)

  predicate SortedDesc<M>(xs: seq<Scored<M>>) {
    forall i, j | 0 <= i < j < |xs| :: xs[i].similarity >= xs[j].similarity
  }

  /** Places `x` before the first entry that does not score higher. */
  function Insert<M>(x: Scored<M>, ys: seq<Scored<M>>): seq<Scored<M>> {
    if ys == [] || ys[0].similarity <= x.similarity then [x] + ys
    else [ys[0]] + Insert(x, ys[1..])
  }

  /** Stable sort by descending similarity. */
  function SortDesc<M>(xs: seq<Scored<M>>): seq<Scored<M>> {
    if xs == [] then [] else Insert(xs[0], SortDesc(xs[1..]))
  }

  /** `sort` then `slice(0, limit)`. */
  function Top<M>(xs: seq<Scored<M>>, limit: nat): seq<Scored<M>> {
    var s := SortDesc(xs);
    if limit < |s| then s[..limit] else s
  }

  /** The entries of `xs` scoring exactly `s`, in their order. */
  function WithScore<M>(xs: seq<Scored<M>>, s: real): seq<Scored<M>> {
    if xs == [] then []
    else (if xs[0].similarity == s then [xs[0]] else []) + WithScore(xs[1..], s)
  }

  lemma {:induction false} InsertPermutes<M>(x: Scored<M>, ys: seq<Scored<M>>)
    ensures multiset(Insert(x, ys)) == multiset(ys) + multiset{x}
  {
    if !(ys == [] || ys[0].similarity <= x.similarity) {
      InsertPermutes(x, ys[1..]);
      assert ys == [ys[0]] + ys[1..];
    }
  }

  lemma {:induction false} InsertSorted<M>(x: Scored<M>, ys: seq<Scored<M>>)
    requires SortedDesc(ys)
    ensures SortedDesc(Insert(x, ys))
  {
    if !(ys == [] || ys[0].similarity <= x.similarity) {
      var rest := Insert(x, ys[1..]);
      InsertSorted(x, ys[1..]);
      InsertPermutes(x, ys[1..]);
      var r := [ys[0]] + rest;
      forall j | 0 < j < |r| ensures r[0].similarity >= r[j].similarity {
        assert r[j] == rest[j - 1];
        assert r[j] in multiset(rest);
        if r[j] != x {
          assert r[j] in multiset(ys[1..]);
          var k :| 0 <= k < |ys[1..]| && ys[1..][k] == r[j];
          assert ys[k + 1] == r[j];
        }
      }
    }
  }

  lemma {:induction false} InsertStable<M>(x: Scored<M>, ys: seq<Scored<M>>, s: real)
    requires SortedDesc(ys)
    ensures WithScore(Insert(x, ys), s) == WithScore([x] + ys, s)
  {
    if ys == [] || ys[0].similarity <= x.similarity {
      assert Insert(x, ys) == [x] + ys;
    } else {
      var rest := Insert(x, ys[1..]);
      InsertStable(x, ys[1..], s);
      var r := [ys[0]] + rest;
      assert r[1..] == rest;
      assert ([x] + ys)[1..] == ys;
      assert ([x] + ys[1..])[1..] == ys[1..];
      if x.similarity == s {
        assert ys[0].similarity > s;
        assert WithScore(ys, s) == WithScore(ys[1..], s);
      }
    }
  }

  lemma {:induction false} SortDescPermutes<M>(xs: seq<Scored<M>>)
    ensures multiset(SortDesc(xs)) == multiset(xs)
  {
    if xs != [] {
      SortDescPermutes(xs[1..]);
      InsertPermutes(xs[0], SortDesc(xs[1..]));
      assert xs == [xs[0]] + xs[1..];
    }
  }

  lemma {:induction false} SortDescSorted<M>(xs: seq<Scored<M>>)
    ensures SortedDesc(SortDesc(xs))
  {
    if xs != [] {
      SortDescSorted(xs[1..]);
      InsertSorted(xs[0], SortDesc(xs[1..]));
    }
  }

  /** Stability: the entries with any one score keep their input order. */
  lemma {:induction false} SortDescStable<M>(xs: seq<Scored<M>>, s: real)
    ensures WithScore(SortDesc(xs), s) == WithScore(xs, s)
  {
    if xs != [] {
      SortDescStable(xs[1..], s);
      SortDescSorted(xs[1..]);
      InsertStable(xs[0], SortDesc(xs[1..]), s);
      assert ([xs[0]] + SortDesc(xs[1..]))[1..] == SortDesc(xs[1..]);
    }
  }

  /** The top `limit`: `min(limit, |xs|)` entries taken from `xs`, in
      descending order. */
  lemma TopSpec<M>(xs: seq<Scored<M>>, limit: nat)
    ensures |Top(xs, limit)| == if limit < |xs| then limit else |xs|
    ensures SortedDesc(Top(xs, limit))
    ensures multiset(Top(xs, limit)) <= multiset(xs)
  {
    SortDescPermutes(xs);
    SortDescSorted(xs);
    var s := SortDesc(xs);
    assert |s| == |xs| by {
      assert |multiset(s)| == |multiset(xs)|;
    }
    if limit < |s| {
      assert s == s[..limit] + s[limit..];
      assert multiset(s) == multiset(s[..limit]) + multiset(s[limit..]);
    }
  }

  /** In a list sorted by descending score, an entry of the first `limit`
      scores at least as high as one after them. */
  lemma SortedSplit<M>(s: seq<Scored<M>>, limit: nat, kept: Scored<M>, dropped: Scored<M>)
    requires SortedDesc(s) && limit < |s|
    requires kept in s[..limit] && dropped in s[limit..]
    ensures kept.similarity >= dropped.similarity
  {
    var i :| 0 <= i < limit && s[..limit][i] == kept;
    var j :| 0 <= j < |s| - limit && s[limit..][j] == dropped;
    assert s[i] == kept && s[limit + j] == dropped;
  }

  /** No entry left out of the top `limit` scores higher than one kept. */
  lemma TopKeepsBest<M>(xs: seq<Scored<M>>, limit: nat, kept: Scored<M>, dropped: Scored<M>)
    requires kept in Top(xs, limit)
    requires dropped in multiset(xs) - multiset(Top(xs, limit))
    ensures kept.similarity >= dropped.similarity
  {
    SortDescPermutes(xs);
    SortDescSorted(xs);
    var s := SortDesc(xs);
    if limit < |s| {
      var t := s[..limit];
      assert s == t + s[limit..];
      assert multiset(s) == multiset(t) + multiset(s[limit..]);
      assert dropped in multiset(s[limit..]);
      SortedSplit(s, limit, kept, dropped);
    }
  }
}
