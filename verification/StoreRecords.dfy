/**
 What publishing does to the store, field by field.

 `ContextStore` specifies a publication by functions on the whole view: a refusal, a view with the publication, and the
 view that collection leaves. These lemmas say what they amount to without naming roots or collection.
 */
module StoreRecords {
  import opened Options
  import opened TokenSequence
  import opened PrefixForest
  import opened StoreAccounting
  import opened ContextStore

  /** The context is as it was when the publication was prepared. */
  predicate AsPrepared(v: StoreView, p: Prepared) {
    p.context in v.contexts && v.contexts[p.context].revision == p.revision && v.contexts[p.context].evaluated == p.current
  }

  /** The prefix is known already, just like this, or its parent is live. */
  predicate Placed(v: StoreView, m: EvaluatedPrefix) {
    if m.id in v.published then v.published[m.id] == m else m.parent.Some? ==> m.parent.value in v.published
  }

  /** What is refused, and why. */
  lemma RefusedExactly(v: StoreView, p: Prepared)
    requires WellFormed(p.mapping)
    ensures Refusal(v, p).None? <==>
            && AsPrepared(v, p) && v.contexts[p.context].epochs == p.mapping.epochs
            && p.mapping.sequence <= v.contexts[p.context].tokens && Placed(v, p.mapping)
    ensures Refusal(v, p) == Some(ContextNotFound) <==> p.context !in v.contexts
    ensures Refusal(v, p) == Some(PublicationConflict) <==>
            && p.context in v.contexts
            && (!AsPrepared(v, p)
                || (v.contexts[p.context].epochs == p.mapping.epochs
                    && !(p.mapping.sequence <= v.contexts[p.context].tokens)))
    ensures Refusal(v, p) == Some(IncompatibleEpoch) <==>
            AsPrepared(v, p) && v.contexts[p.context].epochs != p.mapping.epochs
    ensures Refusal(v, p) == Some(IdentityConflict) ==>
            p.mapping.id in v.published && v.published[p.mapping.id] != p.mapping
    ensures Refusal(v, p) == Some(InvalidDependency) ==>
            p.mapping.id !in v.published && p.mapping.parent.Some? && p.mapping.parent.value !in v.published
  {
    if p.context in v.contexts && p.mapping.end <= |v.contexts[p.context].tokens| {
      var tokens := v.contexts[p.context].tokens;
      assert p.mapping.sequence <= tokens <==> tokens[..p.mapping.end] == p.mapping.sequence;
    }
  }

  /** Nothing holds `x` directly. */
  predicate Unheld(v: StoreView, x: Id) {
    && (x in v.catalog ==> v.catalog[x] == 0)
    && forall c :: c in v.contexts ==> v.contexts[c].evaluated != Some(x)
  }

  /** The context is bound to the prefix, one revision later, and nothing else is written of contexts. The prefix is
      published as prepared, a new one with one reference of the catalog; what is gone was held by nothing. */
  lemma PublishedRecords(v: StoreView, p: Prepared)
    requires p.context in v.contexts && v.catalog.Keys == v.published.Keys
    requires Forest(WithPublication(v, p).published)
    requires p.mapping.id in v.published ==> v.published[p.mapping.id] == p.mapping
    ensures var (w, id, c) := (Settled(WithPublication(v, p)), p.mapping.id, v.contexts[p.context]);
            && w.next == v.next && w.contexts.Keys == v.contexts.Keys
            && (forall x :: x in v.contexts && x != p.context ==> w.contexts[x] == v.contexts[x])
            && w.contexts[p.context] == Context(c.tokens, c.epochs, Some(id), c.revision + 1)
    ensures var (w, id) := (Settled(WithPublication(v, p)), p.mapping.id);
            && id in w.published && w.published[id] == p.mapping && w.catalog.Keys == w.published.Keys
            && w.catalog[id] == (if id in v.published then v.catalog[id] else 1)
            && (forall x :: x in w.published && x != id ==>
                  x in v.published && w.published[x] == v.published[x] && w.catalog[x] == v.catalog[x])
            && (forall x :: x in v.published && x !in w.published ==> Unheld(w.(catalog := v.catalog), x))
  {
    var u := WithPublication(v, p);
    var roots := Roots(u.contexts, u.catalog);
    assert u.contexts[p.context].evaluated == Some(p.mapping.id);
    forall x | x in u.published && !Unheld(u, x)
      ensures Anchored(u.published, roots, x)
    {
      assert x in Ancestors(u.published, x);
      if x !in u.catalog || u.catalog[x] == 0 {
        var c :| c in u.contexts && u.contexts[c].evaluated == Some(x);
        assert x in roots;
      }
    }
  }

  /** A publication loses its target exactly if the prefix is known already, the context is bound to another one, and what
      depends on the target is held by nothing but that binding. */
  lemma LostExactly(v: StoreView, p: Prepared)
    requires Forest(v.published)
    ensures TargetLost(v, p) <==>
            && p.context in v.contexts && p.mapping.id in v.published
            && v.contexts[p.context].evaluated.Some? && v.contexts[p.context].evaluated != Some(p.mapping.id)
            && forall r :: r in v.published && p.mapping.id in Ancestors(v.published, r) ==>
                 Unheld(v.(contexts := v.contexts - {p.context}), r)
  {
    if p.context in v.contexts && p.mapping.id in v.published {
      var (cs, rest) := (Unbound(v.contexts, p.context), v.contexts - {p.context});
      forall r: Id
        ensures r in Roots(cs, v.catalog) <==> !Unheld(v.(contexts := rest), r)
      {
        if r in Roots(cs, v.catalog) && (r !in v.catalog || v.catalog[r] == 0) {
          var c :| c in cs && cs[c].evaluated == Some(r);
          assert c in rest && rest[c].evaluated == Some(r);
        }
        if c :| c in rest && rest[c].evaluated == Some(r) {
          assert c in cs && cs[c].evaluated.Some? && cs[c].evaluated.value == r;
        }
      }
    }
  }

  /** The prefix that is found has the context's epochs and begins its tokens, and no published prefix that does so is
      longer, or as long with a smaller id. */
  lemma FoundExactly(p: Published, c: Context, best: Option<EvaluatedPrefix>)
    requires Forest(p) && IsLongest(p, c, best)
    ensures best.Some? ==> best.value.epochs == c.epochs && best.value.sequence <= c.tokens
    ensures forall id :: id in p && p[id].epochs == c.epochs && p[id].sequence <= c.tokens ==>
              && best.Some? && |p[id].sequence| <= |best.value.sequence|
              && (|p[id].sequence| == |best.value.sequence| ==> best.value.id <= id)
  {
    forall id | id in p && p[id].epochs == c.epochs && p[id].sequence <= c.tokens
      ensures best.Some? && |p[id].sequence| <= |best.value.sequence|
      ensures |p[id].sequence| == |best.value.sequence| ==> best.value.id <= id
    {
      assert Fits(p, id);
      assert c.tokens[..p[id].end] == p[id].sequence;
      assert Matches(p[id], c);
      assert best.Some? ==> Fits(p, best.value.id);
    }
    if best.Some? {
      assert best.value.sequence == c.tokens[..best.value.end];
    }
  }
}
