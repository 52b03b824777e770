/**
 What the lineage of a published prefix stands for.

 The lineage is a digest over the parent's lineage, the branch and the end. It is computed once, from the parent that was
 live when the publication was prepared. This module says what it determines: the whole chain of dependencies up to the
 root, as long as digests do not collide.
 */
module Lineages {
  import opened Options
  import opened TokenSequence
  import opened PrefixForest
  import opened StoreAccounting
  import opened ContextStore

  /** The digest goes on from the live parent's. */
  predicate GoesOn(ids: IdScheme, p: Published, id: Id)
    requires id in p && ParentFits(p, p[id])
  {
    p[id].lineage == ids.lineage(if p[id].parent.Some? then p[p[id].parent.value].lineage else 0, p[id].branch, p[id].end)
  }

  ghost predicate AllGoOn(ids: IdScheme, p: Published)
    requires Forest(p)
  {
    forall id {:trigger GoesOn(ids, p, id)} :: id in p ==> Fits(p, id) && GoesOn(ids, p, id)
  }

  /** Lineages do not collide, and none is the one that stands for a missing parent. */
  ghost predicate LineagesDiffer(ids: IdScheme) {
    && (forall a, b, c, d, e, f :: ids.lineage(a, b, c) == ids.lineage(d, e, f) ==> a == d && b == e && c == f)
    && (forall a, b, c :: ids.lineage(a, b, c) != 0)
  }

  ghost predicate BranchesDiffer(ids: IdScheme) {
    forall s, t :: ids.branch(s) == ids.branch(t) ==> s == t
  }

  /** The dependencies of a prefix, from the root down to itself: branch and end of each. */
  ghost function Chain(p: Published, id: Id): seq<(nat, nat)>
    requires Forest(p) && id in p
    decreases p[id].end
  {
    assert Fits(p, id);
    (if p[id].parent.Some? then Chain(p, p[id].parent.value) else []) + [(p[id].branch, p[id].end)]
  }

  /** The same with the tokens themselves. */
  ghost function Sequences(p: Published, id: Id): seq<seq<Token>>
    requires Forest(p) && id in p
    decreases p[id].end
  {
    assert Fits(p, id);
    (if p[id].parent.Some? then Sequences(p, p[id].parent.value) else []) + [p[id].sequence]
  }

  /** Two prefixes, even of different stores, have the same lineage exactly if they have the same chain. */
  lemma {:induction false} LineageIsChain(ids: IdScheme, p: Published, x: Id, q: Published, y: Id)
    requires LineagesDiffer(ids) && Forest(p) && Forest(q) && AllGoOn(ids, p) && AllGoOn(ids, q)
    requires x in p && y in q
    ensures p[x].lineage == q[y].lineage <==> Chain(p, x) == Chain(q, y)
    decreases p[x].end
  {
    assert Fits(p, x) && Fits(q, y);
    assert GoesOn(ids, p, x) && GoesOn(ids, q, y);
    var (up, vp) := (p[x].parent, q[y].parent);
    var a := if up.Some? then Chain(p, up.value) else [];
    var b := if vp.Some? then Chain(q, vp.value) else [];
    LastOfBoth(a, (p[x].branch, p[x].end), b, (q[y].branch, q[y].end));
    if up.Some? && vp.Some? {
      LineageIsChain(ids, p, up.value, q, vp.value);
    } else if up.Some? {
      assert Fits(p, up.value) && GoesOn(ids, p, up.value);
    } else if vp.Some? {
      assert Fits(q, vp.value) && GoesOn(ids, q, vp.value);
    }
  }

  lemma LastOfBoth<T>(a: seq<T>, x: T, b: seq<T>, y: T)
    ensures a + [x] == b + [y] <==> a == b && x == y
  {
    var (s, t) := (a + [x], b + [y]);
    assert s[..|s| - 1] == a && t[..|t| - 1] == b;
    assert s[|s| - 1] == x && t[|t| - 1] == y;
  }

  /** Where token digests do not collide either, the same lineage means the same tokens at every step of the chain. */
  lemma {:induction false} ChainIsSequences(ids: IdScheme, p: Published, x: Id, q: Published, y: Id)
    requires BranchesDiffer(ids) && Forest(p) && Forest(q) && AllNamed(ids, p) && AllNamed(ids, q)
    requires x in p && y in q
    ensures Chain(p, x) == Chain(q, y) <==> Sequences(p, x) == Sequences(q, y)
    decreases p[x].end
  {
    assert Fits(p, x) && Fits(q, y) && Named(ids, p[x]) && Named(ids, q[y]);
    var (up, vp) := (p[x].parent, q[y].parent);
    LastOfBoth(if up.Some? then Chain(p, up.value) else [], (p[x].branch, p[x].end),
               if vp.Some? then Chain(q, vp.value) else [], (q[y].branch, q[y].end));
    LastOfBoth(if up.Some? then Sequences(p, up.value) else [], p[x].sequence,
               if vp.Some? then Sequences(q, vp.value) else [], q[y].sequence);
    if up.Some? && vp.Some? {
      ChainIsSequences(ids, p, up.value, q, vp.value);
    }
  }

  lemma SameLineageSameTokens(ids: IdScheme, p: Published, x: Id, q: Published, y: Id)
    requires LineagesDiffer(ids) && BranchesDiffer(ids)
    requires Forest(p) && Forest(q) && AllGoOn(ids, p) && AllGoOn(ids, q) && AllNamed(ids, p) && AllNamed(ids, q)
    requires x in p && y in q
    ensures p[x].lineage == q[y].lineage <==> Sequences(p, x) == Sequences(q, y)
  {
    LineageIsChain(ids, p, x, q, y);
    ChainIsSequences(ids, p, x, q, y);
  }

  // ---- what the store keeps ----

  /** Publishing what was prepared, however long ago, keeps it. */
  lemma PublishedGoesOn(ids: IdScheme, v: StoreView, p: Prepared)
    requires CollisionFree(ids) && WellPrepared(ids, p.mapping)
    requires Forest(v.published) && AllNamed(ids, v.published) && AllGoOn(ids, v.published)
    requires Refusal(v, p).None?
    ensures Forest(WithPublication(v, p).published) && AllGoOn(ids, WithPublication(v, p).published)
  {
    var (before, m) := (v.published, p.mapping);
    var after := before[m.id := m];
    if m.id in before {
      assert after == before;
    } else {
      if m.parent.Some? {
        PreparedParentFits(ids, before, m);
      }
      forall id | id in after
        ensures Fits(after, id) && GoesOn(ids, after, id)
      {
        assert id in before ==> Fits(before, id) && GoesOn(ids, before, id);
      }
    }
  }

  /** So does dropping any part on which nothing that stays depends. */
  lemma RestGoesOn(ids: IdScheme, p: Published, q: Published)
    requires Forest(p) && Forest(q) && AllGoOn(ids, p)
    requires forall id :: id in q ==> id in p && q[id] == p[id]
    ensures AllGoOn(ids, q)
  {
    forall id | id in q
      ensures Fits(q, id) && GoesOn(ids, q, id)
    {
      assert Fits(q, id) && Fits(p, id) && GoesOn(ids, p, id);
    }
  }

  /** One call: nothing new is published, or what was prepared, whenever that was; and something may be reclaimed. */
  ghost predicate Call(ids: IdScheme, a: StoreView, b: StoreView) {
    || LeftOf(a, b)
    || exists p: Prepared :: WellPrepared(ids, p.mapping) && Refusal(a, p).None? && LeftOf(WithPublication(a, p), b)
  }

  predicate LeftOf(a: StoreView, b: StoreView) {
    forall id :: id in b.published ==> id in a.published && b.published[id] == a.published[id]
  }

  ghost predicate Calls(ids: IdScheme, vs: seq<StoreView>) {
    && (forall i :: 0 <= i < |vs| ==> Forest(vs[i].published) && AllNamed(ids, vs[i].published))
    && (forall i :: 0 < i < |vs| ==> Call(ids, vs[i - 1], vs[i]))
  }

  /** In every store reached from an empty one, every lineage goes on from the parent's, and so stands for the chain. */
  lemma {:induction false} RunGoesOn(ids: IdScheme, vs: seq<StoreView>, n: nat)
    requires CollisionFree(ids) && Calls(ids, vs) && n < |vs| && vs[0].published == map[]
    ensures Forest(vs[n].published) && AllGoOn(ids, vs[n].published)
  {
    if n > 0 {
      RunGoesOn(ids, vs, n - 1);
      var (a, b) := (vs[n - 1], vs[n]);
      assert Call(ids, a, b);
      if LeftOf(a, b) {
        RestGoesOn(ids, a.published, b.published);
      } else {
        var p: Prepared :| WellPrepared(ids, p.mapping) && Refusal(a, p).None? && LeftOf(WithPublication(a, p), b);
        PublishedGoesOn(ids, a, p);
        RestGoesOn(ids, WithPublication(a, p).published, b.published);
      }
    }
  }
}
