/**
 The context store: logical contexts, published prefixes, and prepare / validate / commit publication.

 The class keeps counts and an index the way the program does. Its methods are specified on `View`, which has
 neither: what is published after an operation is what tracing from the new roots leaves (`Settled`).
 */
module ContextStore {
  import opened Options
  import opened TokenSequence
  import opened PrefixForest
  import opened StoreAccounting

  datatype Error =
    | ContextNotFound
    | PrefixOutOfBounds
    | IncompatibleEpoch
    | IncompleteComponents
    | InvalidDependency
    | PublicationConflict
    | MappingNotFound
    | IdentityConflict

  datatype Result<+T> = Success(value: T) | Failure(error: Error)

  // ---- identities ----

  datatype IdInput = IdInput(
    epochs: Epochs, parent: Id, branch: nat, end: nat, components: Mask, parameters: nat, lineage: nat)

  /** The three digests, uninterpreted. */
  datatype IdScheme = IdScheme(branch: seq<Token> -> nat, lineage: (nat, nat, nat) -> nat, mapping: IdInput -> Id)

  /** A missing parent is hashed as 32 zero bytes. */
  function ParentBytes(parent: Option<Id>): Id {
    match parent
    case None => 0
    case Some(id) => id
  }

  function InputOf(m: EvaluatedPrefix): IdInput {
    IdInput(m.epochs, ParentBytes(m.parent), m.branch, m.end, m.required, m.parameters, m.lineage)
  }

  /** The id is the digest of the fields, the branch the digest of the tokens. */
  predicate Named(ids: IdScheme, m: EvaluatedPrefix) {
    m.id == ids.mapping(InputOf(m)) && m.branch == ids.branch(m.sequence)
  }

  ghost predicate AllNamed(ids: IdScheme, p: Published) {
    forall id {:trigger Named(ids, p[id])} :: id in p ==> Named(ids, p[id])
  }

  ghost predicate CollisionFree(ids: IdScheme) {
    forall a, b :: ids.mapping(a) == ids.mapping(b) ==> a == b
  }

  /** The metadata a publication of `c.tokens[..end]` would carry. */
  function MappingFor(ids: IdScheme, c: Context, end: nat, parent: Option<EvaluatedPrefix>,
                      required: Mask, complete: Mask, parameters: nat): EvaluatedPrefix
    requires end <= |c.tokens|
  {
    var branch := ids.branch(c.tokens[..end]);
    var parentId := if parent.Some? then Some(parent.value.id) else None;
    var lineage := ids.lineage(if parent.Some? then parent.value.lineage else 0, branch, end);
    var id := ids.mapping(IdInput(c.epochs, ParentBytes(parentId), branch, end, required, parameters, lineage));
    EvaluatedPrefix(id, branch, end, c.epochs, parentId, lineage, required, complete, parameters, c.tokens[..end])
  }

  // ---- publications ----

  datatype Prepared = Prepared(context: ContextId, revision: nat, current: Option<Id>, mapping: EvaluatedPrefix)

  /** What holds of every publication that `PreparePublication` handed out: a well-formed, named prefix whose
      parent, when it was looked up, was shorter and of the same epochs. The lineage goes on from that parent's. */
  ghost predicate WellPrepared(ids: IdScheme, m: EvaluatedPrefix) {
    && WellFormed(m)
    && Named(ids, m)
    && if m.parent.None? then m.lineage == ids.lineage(0, m.branch, m.end)
       else exists w: EvaluatedPrefix :: Named(ids, w) && PreparedFrom(ids, w, m)
  }

  predicate PreparedFrom(ids: IdScheme, w: EvaluatedPrefix, m: EvaluatedPrefix) {
    && m.parent == Some(w.id) && w.end < m.end && w.epochs == m.epochs
    && m.lineage == ids.lineage(w.lineage, m.branch, m.end)
  }

  /** With a collision-free id scheme a recorded parent still fits whenever it is live, even if it was
      reclaimed and published again in between. */
  lemma PreparedParentFits(ids: IdScheme, p: Published, m: EvaluatedPrefix)
    requires CollisionFree(ids) && WellPrepared(ids, m) && Forest(p) && AllNamed(ids, p)
    requires m.parent.Some? && m.parent.value in p
    ensures ParentFits(p, m) && m.lineage == ids.lineage(p[m.parent.value].lineage, m.branch, m.end)
  {
    var w: EvaluatedPrefix :| Named(ids, w) && PreparedFrom(ids, w, m);
    var q := p[m.parent.value];
    assert Fits(p, m.parent.value) && Named(ids, q);
    assert InputOf(q) == InputOf(w);
  }

  // ---- the abstract store ----

  datatype StoreView = StoreView(next: ContextId, contexts: Contexts, published: Published, catalog: map<Id, nat>)

  ghost function ViewOf(next: ContextId, cs: Contexts, e: Entries): StoreView {
    StoreView(next, cs, Prefixes(e), Catalog(e))
  }

  function Kept(catalog: map<Id, nat>, p: Published): map<Id, nat> {
    map id | id in catalog && id in p :: catalog[id]
  }

  /** The view after tracing from its roots. */
  ghost function Settled(v: StoreView): StoreView
    requires Forest(v.published)
  {
    var p := Traced(v.published, Roots(v.contexts, v.catalog));
    v.(published := p, catalog := Kept(v.catalog, p))
  }

  /** Why a prepared publication cannot be committed now, if it cannot. */
  ghost function Refusal(v: StoreView, p: Prepared): Option<Error> {
    if p.context !in v.contexts then Some(ContextNotFound)
    else
      var c := v.contexts[p.context];
      if c.evaluated != p.current || c.revision != p.revision then Some(PublicationConflict)
      else if c.epochs != p.mapping.epochs then Some(IncompatibleEpoch)
      else if p.mapping.end > |c.tokens| || c.tokens[..p.mapping.end] != p.mapping.sequence
      then Some(PublicationConflict)
      else if p.mapping.id in v.published then
        if v.published[p.mapping.id] != p.mapping then Some(IdentityConflict) else None
      else if p.mapping.parent.Some? && p.mapping.parent.value !in v.published then Some(InvalidDependency)
      else None
  }

  function Unbound(cs: Contexts, c: ContextId): Contexts {
    if c in cs then cs[c := cs[c].(evaluated := None)] else cs
  }

  /** The target is published already, the context is bound elsewhere, and with that binding released nothing
      else holds the target. Releasing the old binding first then reclaims the target. */
  ghost predicate TargetLost(v: StoreView, p: Prepared)
    requires Forest(v.published)
  {
    && p.context in v.contexts
    && v.contexts[p.context].evaluated.Some?
    && v.contexts[p.context].evaluated != Some(p.mapping.id)
    && p.mapping.id in v.published
    && !Anchored(v.published, Roots(Unbound(v.contexts, p.context), v.catalog), p.mapping.id)
  }

  /** The view with the prefix published (catalogued once if it is new) and the context bound to it. */
  ghost function WithPublication(v: StoreView, p: Prepared): StoreView
    requires p.context in v.contexts
  {
    var c := v.contexts[p.context];
    StoreView(v.next,
         v.contexts[p.context := Rebound(c, p.mapping.id)],
         v.published[p.mapping.id := p.mapping],
         if p.mapping.id in v.published then v.catalog else v.catalog[p.mapping.id := 1])
  }

  /** A view in which everything is anchored is settled. */
  lemma AllAnchored(v: StoreView)
    requires Forest(v.published) && v.catalog.Keys == v.published.Keys
    requires AllFrom(v.published, Roots(v.contexts, v.catalog))
    ensures Settled(v) == v
  {
    AllTraced(v.published, Roots(v.contexts, v.catalog));
    KeptAll(v.catalog, v.published);
  }

  ghost predicate AllFrom(p: Published, roots: set<Id>)
    requires Forest(p)
  {
    forall id :: id in p ==> Anchored(p, roots, id)
  }

  lemma AllTraced(p: Published, roots: set<Id>)
    requires Forest(p) && AllFrom(p, roots)
    ensures Traced(p, roots) == p
  {
  }

  lemma KeptAll(catalog: map<Id, nat>, p: Published)
    requires catalog.Keys == p.Keys
    ensures Kept(catalog, p) == catalog
  {
    assert forall id :: id in catalog ==> id in p;
  }

  datatype Outcome = Committed(mapping: EvaluatedPrefix) | Refused(error: Error) | Panicked

  // ---- histories ----

  /** `b` can come after `a`: context ids are not reused, revisions do not go back, and a context with the same
      revision is the same context. */
  ghost predicate Later(a: StoreView, b: StoreView) {
    && a.next <= b.next
    && forall c :: c in b.contexts && c < a.next ==>
         && c in a.contexts
         && a.contexts[c].revision <= b.contexts[c].revision
         && (a.contexts[c].revision == b.contexts[c].revision ==> a.contexts[c] == b.contexts[c])
  }

  ghost predicate History(vs: seq<StoreView>) {
    && (forall i :: 0 <= i < |vs| ==> forall c :: c in vs[i].contexts ==> c < vs[i].next)
    && (forall i :: 0 < i < |vs| ==> Later(vs[i - 1], vs[i]))
  }

  lemma {:induction false} HistoryLater(vs: seq<StoreView>, i: nat, j: nat)
    requires History(vs) && i <= j < |vs|
    ensures Later(vs[i], vs[j])
    decreases j - i
  {
    if i < j {
      HistoryLater(vs, i, j - 1);
      var (a, b, d) := (vs[i], vs[j - 1], vs[j]);
      assert Later(b, d);
      forall c | c in d.contexts && c < a.next
        ensures c in b.contexts && c in a.contexts
        ensures a.contexts[c].revision <= b.contexts[c].revision <= d.contexts[c].revision
      {
      }
    }
  }

  /** No ABA: a publication prepared at some point of a run and not refused at a later one finds the context
      in exactly the state it was prepared from, whatever happened in between. */
  lemma PublicationSeesItsOwnState(vs: seq<StoreView>, i: nat, j: nat, p: Prepared)
    requires History(vs) && i <= j < |vs|
    requires p.context in vs[i].contexts
    requires p.revision == vs[i].contexts[p.context].revision
    requires Refusal(vs[j], p).None?
    ensures p.context in vs[j].contexts && vs[j].contexts[p.context] == vs[i].contexts[p.context]
  {
    HistoryLater(vs, i, j);
  }

  // ---- lemmas that tie counting to the view ----

  lemma SweptSettles(next: ContextId, cs: Contexts, e: Entries, e': Entries)
    requires Forest(Prefixes(e)) && Forest(Prefixes(e')) && Counted(cs, e')
    requires Shrunk(cs, e, e') && NoGarbage(e', None)
    ensures ViewOf(next, cs, e') == Settled(ViewOf(next, cs, e))
  {
    SweptIsTraced(cs, e, e');
    CatalogKept(e, e', Prefixes(e'));
  }

  lemma CatalogKept(e: Entries, e': Entries, p: Published)
    requires p == Prefixes(e')
    requires forall id :: id in e' ==> id in e && e'[id].references.catalog == e[id].references.catalog
    ensures Catalog(e') == Kept(Catalog(e), p)
  {
  }

  /** Binding a context to a prefix that is anchored without it changes nothing that is published. */
  lemma BindingSettles(next: ContextId, cs: Contexts, c: ContextId, bound: Context, e: Entries, e': Entries, id: Id)
    requires Forest(Prefixes(e)) && c in cs && bound.evaluated == Some(id)
    requires ViewOf(next, Unbound(cs, c), e') == Settled(ViewOf(next, Unbound(cs, c), e))
    requires id in e'
    ensures ViewOf(next, cs[c := bound], e') == Settled(ViewOf(next, cs[c := bound], e))
  {
    var roots := Roots(Unbound(cs, c), Catalog(e));
    var roots' := Roots(cs[c := bound], Catalog(e));
    assert id in Prefixes(e') && id in Traced(Prefixes(e), roots);
    RootsBound(cs, c, bound, Catalog(e), id);
    TracedAgain(Prefixes(e), roots, id);
  }

  function Rebound(c: Context, id: Id): Context {
    c.(evaluated := Some(id), revision := c.revision + 1)
  }

  lemma PrefixesKeys(e: Entries)
    ensures Prefixes(e).Keys == e.Keys
    ensures forall id :: id in e <==> id in Prefixes(e)
  {
  }

  lemma SettledKeeps(next: ContextId, cs: Contexts, e: Entries, e': Entries, id: Id)
    requires Forest(Prefixes(e)) && id in e && id in e'
    requires ViewOf(next, cs, e') == Settled(ViewOf(next, cs, e))
    ensures e'[id].mapping == e[id].mapping
  {
    assert Prefixes(e')[id] == Prefixes(e)[id];
  }

  lemma RebindSettles(next: ContextId, cs: Contexts, c: ContextId, bound: Context,
                      e: Entries, e': Entries, e'': Entries, id: Id)
    requires Forest(Prefixes(e)) && c in cs && bound.evaluated == Some(id)
    requires ViewOf(next, Unbound(cs, c), e') == Settled(ViewOf(next, Unbound(cs, c), e))
    requires id in e'
    requires Prefixes(e'') == Prefixes(e') && Catalog(e'') == Catalog(e')
    ensures id in e'' && e''[id].mapping == e'[id].mapping
    ensures ViewOf(next, cs[c := bound], e'') == Settled(ViewOf(next, cs[c := bound], e))
  {
    BindingSettles(next, cs, c, bound, e, e', id);
    assert id in Prefixes(e'') && Prefixes(e'')[id] == Prefixes(e')[id];
  }

  lemma RootsBound(cs: Contexts, c: ContextId, bound: Context, catalog: map<Id, nat>, id: Id)
    requires c in cs && bound.evaluated == Some(id)
    ensures Roots(cs[c := bound], catalog) == Roots(Unbound(cs, c), catalog) + {id}
  {
    var (a, b) := (Unbound(cs, c), cs[c := bound]);
    forall x | x in Roots(b, catalog)
      ensures x in Roots(a, catalog) + {id}
    {
      if x !in catalog || catalog[x] == 0 {
        var k :| k in b && b[k].evaluated == Some(x);
        assert k != c ==> k in a && a[k].evaluated == Some(x);
      }
    }
    forall x | x in Roots(a, catalog) + {id}
      ensures x in Roots(b, catalog)
    {
      if x == id {
        assert b[c].evaluated.value == id;
      } else if x !in catalog || catalog[x] == 0 {
        var k :| k in a && a[k].evaluated == Some(x);
        assert k in b && b[k].evaluated == Some(x);
      }
    }
  }

  class Store {
    const ids: IdScheme
    var nextContext: ContextId
    var contexts: Contexts
    var mappings: Entries
    var prefixIndex: Index

    ghost function View(): StoreView
      reads this
    {
      ViewOf(nextContext, contexts, mappings)
    }

    ghost predicate Valid()
      reads this
    {
      && Consistent(contexts, mappings, prefixIndex, None)
      && AllNamed(ids, Prefixes(mappings))
      && (forall c :: c in contexts ==> c < nextContext)
    }

    constructor (ids: IdScheme)
      ensures Valid()
      ensures this.ids == ids
      ensures View() == StoreView(0, map[], map[], map[])
    {
      this.ids := ids;
      nextContext := 0;
      contexts := map[];
      mappings := map[];
      prefixIndex := map[];
    }

    /** In every valid store nothing is published that no root depends on. */
    lemma NothingToCollect()
      requires Valid()
      ensures Forest(View().published)
      ensures View() == Settled(View())
    {
      SweptSettles(nextContext, contexts, mappings, mappings);
    }

    method Create(tokens: seq<Token>, epochs: Epochs) returns (id: ContextId)
      requires Valid()
      modifies this
      ensures Valid()
      ensures id == old(nextContext)
      ensures View() == old(View()).(
                next := id + 1,
                contexts := old(contexts)[id := Context(tokens, epochs, None, 0)])
      ensures Later(old(View()), View())
    {
      id := nextContext;
      nextContext := nextContext + 1;
      ghost var before := contexts;
      contexts := contexts[id := Context(tokens, epochs, None, 0)];
      TouchedConsistent(before, contexts, id, mappings, prefixIndex);
    }

    method Branch(source: ContextId, at: nat) returns (r: Result<ContextId>)
      requires Valid()
      modifies this
      ensures Valid()
      ensures source !in old(contexts) ==> r == Failure(ContextNotFound)
      ensures source in old(contexts) && at > |old(contexts)[source].tokens| ==> r == Failure(PrefixOutOfBounds)
      ensures source in old(contexts) && at <= |old(contexts)[source].tokens| ==>
                && r == Success(old(nextContext))
                && var s := old(contexts)[source];
                   View() == old(View()).(
                     next := old(nextContext) + 1,
                     contexts := old(contexts)[old(nextContext) := Context(s.tokens[..at], s.epochs, None, 0)])
      ensures r.Failure? ==> View() == old(View())
      ensures Later(old(View()), View())
    {
      if source !in contexts {
        return Failure(ContextNotFound);
      }
      var s := contexts[source];
      if at > |s.tokens| {
        return Failure(PrefixOutOfBounds);
      }
      var id := Create(s.tokens[..at], s.epochs);
      return Success(id);
    }

    method Append(context: ContextId, tokens: seq<Token>) returns (r: Result<()>)
      requires Valid()
      modifies this
      ensures Valid()
      ensures r == if context in old(contexts) then Success(()) else Failure(ContextNotFound)
      ensures context !in old(contexts) || tokens == [] ==> View() == old(View())
      ensures context in old(contexts) && tokens != [] ==>
                var c := old(contexts)[context];
                View() == old(View()).(
                  contexts := old(contexts)[
                    context := c.(tokens := c.tokens + tokens, revision := c.revision + 1)])
      ensures Later(old(View()), View())
    {
      if context !in contexts {
        return Failure(ContextNotFound);
      }
      if tokens != [] {
        ghost var before := contexts;
        var c := contexts[context];
        contexts := contexts[context := c.(tokens := c.tokens + tokens, revision := c.revision + 1)];
        forall m: EvaluatedPrefix | Matches(m, c)
          ensures Matches(m, contexts[context])
        {
          assert (c.tokens + tokens)[..m.end] == c.tokens[..m.end];
        }
        assert BindingHolds(before, mappings, context);
        TouchedConsistent(before, contexts, context, mappings, prefixIndex);
      }
      return Success(());
    }

    method RemoveContext(id: ContextId) returns (r: Result<()>)
      requires Valid()
      modifies this
      ensures Valid()
      ensures r == if id in old(contexts) then Success(()) else Failure(ContextNotFound)
      ensures id !in old(contexts) ==> View() == old(View())
      ensures id in old(contexts) ==>
                && Forest(old(View()).published)
                && View() == Settled(old(View()).(contexts := old(contexts) - {id}))
      ensures Later(old(View()), View())
    {
      if id !in contexts {
        return Failure(ContextNotFound);
      }
      ghost var before := contexts;
      var context := contexts[id];
      contexts := contexts - {id};
      assert Unbinds(before, contexts, id);
      GiveUpBinding(context.evaluated, before, contexts, id);
      return Success(());
    }

    /** Gives up the binding of `c`, if it has one: `after` is `before` without it. */
    method GiveUpBinding(bound: Option<Id>, ghost before: Contexts, ghost after: Contexts, ghost c: ContextId)
      requires Consistent(before, mappings, prefixIndex, None) && AllNamed(ids, Prefixes(mappings))
      requires Unbinds(before, after, c) && before[c].evaluated == bound
      modifies this`mappings, this`prefixIndex
      ensures Consistent(after, mappings, prefixIndex, None) && AllNamed(ids, Prefixes(mappings))
      ensures Forest(old(Prefixes(mappings)))
      ensures ViewOf(nextContext, after, mappings) == Settled(ViewOf(nextContext, after, old(mappings)))
      ensures bound.None? ==> mappings == old(mappings)
    {
      if bound.Some? {
        ReleaseContext(bound.value, before, after, c);
      } else {
        UnboundUntouched(before, after, c);
        SweptSettles(nextContext, after, mappings, mappings);
      }
    }

    /** Removing a context that was bound to nothing keeps every count. */
    lemma UnboundUntouched(before: Contexts, after: Contexts, c: ContextId)
      requires Consistent(before, mappings, prefixIndex, None)
      requires Unbinds(before, after, c) && before[c].evaluated == None
      ensures Consistent(after, mappings, prefixIndex, None)
    {
      UnboundBindings(before, after, c, mappings);
      forall id | id in mappings
        ensures CountsHold(after, mappings, id)
      {
        assert CountsHold(before, mappings, id);
        UnboundCounts(before, after, c, id);
      }
    }

    method SetEpochs(id: ContextId, epochs: Epochs) returns (r: Result<()>)
      requires Valid()
      modifies this
      ensures Valid()
      ensures r == if id in old(contexts) then Success(()) else Failure(ContextNotFound)
      ensures id !in old(contexts) || old(contexts)[id].epochs == epochs ==> View() == old(View())
      ensures id in old(contexts) && old(contexts)[id].epochs != epochs ==>
                && Forest(old(View()).published)
                && var c := old(contexts)[id];
                   View() == Settled(old(View()).(
                     contexts := old(contexts)[id := Context(c.tokens, epochs, None, c.revision + 1)]))
      ensures Later(old(View()), View())
    {
      if id !in contexts {
        return Failure(ContextNotFound);
      }
      var c := contexts[id];
      if c.epochs == epochs {
        return Success(());
      }
      ghost var before := contexts;
      contexts := contexts[id := Context(c.tokens, epochs, None, c.revision + 1)];
      assert Unbinds(before, contexts, id);
      GiveUpBinding(c.evaluated, before, contexts, id);
      return Success(());
    }

    /** One context reference less, then reclamation. `before` and `after` are the contexts with and without
        the binding that is given up. */
    method ReleaseContext(id: Id, ghost before: Contexts, ghost after: Contexts, ghost c: ContextId)
      requires Consistent(before, mappings, prefixIndex, None) && AllNamed(ids, Prefixes(mappings))
      requires Unbinds(before, after, c) && before[c].evaluated == Some(id)
      modifies this`mappings, this`prefixIndex
      ensures Consistent(after, mappings, prefixIndex, None) && AllNamed(ids, Prefixes(mappings))
      ensures Forest(old(Prefixes(mappings)))
      ensures ViewOf(nextContext, after, mappings) == Settled(ViewOf(nextContext, after, old(mappings)))
    {
      UnboundConsistent(before, after, c, mappings, prefixIndex);
      Recounted(mappings, id, LessContexts(mappings[id]));
      RecountedCatalog(mappings, id, LessContexts(mappings[id]));
      mappings := mappings[id := LessContexts(mappings[id])];
      ghost var lowered := mappings;
      Reclaim(id, after);
      SweptSettles(nextContext, after, lowered, mappings);
    }

    /** Removes `id` if nothing refers to it, then its parent, and so on up. */
    method Reclaim(id: Id, ghost cs: Contexts)
      requires Consistent(cs, mappings, prefixIndex, Some(id)) && AllNamed(ids, Prefixes(mappings))
      modifies this`mappings, this`prefixIndex
      ensures Consistent(cs, mappings, prefixIndex, None) && AllNamed(ids, Prefixes(mappings))
      ensures Shrunk(cs, old(mappings), mappings)
    {
      var candidate := Some(id);
      while candidate.Some?
        invariant Consistent(cs, mappings, prefixIndex, candidate)
        invariant Shrunk(cs, old(mappings), mappings)
        decreases mappings.Keys, candidate
      {
        var c := candidate.value;
        if c !in mappings || !Unreferenced(mappings[c]) {
          break;
        }
        DroppedConsistent(cs, mappings, prefixIndex, c);
        ghost var before := mappings;
        var removed := mappings[c];
        mappings := mappings - {c};
        prefixIndex := WithoutIndexed(prefixIndex, removed.mapping);
        candidate := removed.mapping.parent;
        if candidate.Some? && candidate.value in mappings {
          mappings := mappings[candidate.value := LessDependents(mappings[candidate.value])];
        }
        assert mappings == Dropped(before, c);
        DroppedShrunk(cs, before, c);
        ShrunkTransitive(cs, old(mappings), before, mappings);
      }
      forall x | x in mappings
        ensures Named(ids, Prefixes(mappings)[x])
      {
        assert Named(ids, old(Prefixes(mappings))[x]);
      }
    }

    static lemma DroppedShrunk(cs: Contexts, e: Entries, c: Id)
      requires c in e && Unreferenced(e[c]) && Counted(cs, e)
      ensures Shrunk(cs, e, Dropped(e, c))
    {
      assert CountsHold(cs, e, c);
      CardinalityZero(BoundTo(cs, c));
    }

    method ReleaseMapping(id: Id) returns (r: Result<()>)
      requires Valid()
      modifies this`mappings, this`prefixIndex
      ensures Valid()
      ensures r == if id in old(mappings) then Success(()) else Failure(MappingNotFound)
      ensures id !in old(mappings) ==> View() == old(View())
      ensures id in old(mappings) ==>
                && Forest(old(View()).published)
                && var n := old(View()).catalog[id];
                   View() == Settled(old(View()).(
                     catalog := old(View()).catalog[id := if n > 0 then n - 1 else 0]))
    {
      if id !in mappings {
        return Failure(MappingNotFound);
      }
      LessCatalogConsistent(contexts, mappings, prefixIndex, id);
      Recounted(mappings, id, LessCatalog(mappings[id]));
      RecountedCatalog(mappings, id, LessCatalog(mappings[id]));
      mappings := mappings[id := LessCatalog(mappings[id])];
      ghost var lowered := mappings;
      Reclaim(id, contexts);
      SweptSettles(nextContext, contexts, lowered, mappings);
      return Success(());
    }

    // ---- publication ----

    /** Prepares a publication without changing the store. */
    method PreparePublication(context: ContextId, end: nat, parent: Option<Id>,
                              required: Mask, complete: Mask, parameters: nat) returns (r: Result<Prepared>)
      requires Valid()
      ensures r.Failure? ==>
                r.error == if context !in contexts then ContextNotFound
                           else if end > |contexts[context].tokens| then PrefixOutOfBounds
                           else if !(required <= complete) then IncompleteComponents
                           else InvalidDependency
      ensures r.Success? <==>
                && context in contexts
                && end <= |contexts[context].tokens|
                && required <= complete
                && (parent.Some? ==>
                      && parent.value in mappings
                      && mappings[parent.value].mapping.end < end
                      && Matches(mappings[parent.value].mapping, contexts[context]))
      ensures r.Success? ==>
                && r.value == Prepared(
                     context, contexts[context].revision, contexts[context].evaluated,
                     MappingFor(ids, contexts[context], end,
                       if parent.Some? then Some(mappings[parent.value].mapping) else None,
                       required, complete, parameters))
                && WellPrepared(ids, r.value.mapping)
                && (parent.Some? ==> mappings[parent.value].mapping.sequence <= r.value.mapping.sequence)
                && r.value.mapping.parent == parent
                && ParentFits(Prefixes(mappings), r.value.mapping)
    {
      if context !in contexts {
        return Failure(ContextNotFound);
      }
      var c := contexts[context];
      if end > |c.tokens| {
        return Failure(PrefixOutOfBounds);
      }
      if !(required <= complete) {
        return Failure(IncompleteComponents);
      }
      var dependency: Option<EvaluatedPrefix> := None;
      if parent.Some? {
        if parent.value !in mappings {
          return Failure(InvalidDependency);
        }
        var w := mappings[parent.value].mapping;
        assert Fits(Prefixes(mappings), parent.value) && Named(ids, Prefixes(mappings)[parent.value]);
        if w.end >= end {
          return Failure(InvalidDependency);
        }
        var valid := MappingValidForContext(w, c, Some(end));
        WalkNeverRejects(Prefixes(mappings), w);
        if !valid {
          return Failure(InvalidDependency);
        }
        assert c.tokens[..end][..w.end] == c.tokens[..w.end];
        dependency := Some(w);
      }
      return Success(Prepared(context, c.revision, c.evaluated,
        MappingFor(ids, c, end, dependency, required, complete, parameters)));
    }

    /** The walk of one mapping's recorded parents, on top of the comparison with the context. */
    method MappingValidForContext(m: EvaluatedPrefix, c: Context, childEnd: Option<nat>) returns (valid: bool)
      ensures valid <==>
                && Matches(m, c)
                && (childEnd.Some? ==> m.end <= childEnd.value)
                && AncestorsHold(Prefixes(mappings), m)
    {
      if || m.epochs != c.epochs
         || !(m.required <= m.complete)
         || m.end > |c.tokens|
         || (childEnd.Some? && m.end > childEnd.value)
         || c.tokens[..m.end] != m.sequence
      {
        return false;
      }
      var child := m;
      while child.parent.Some?
        invariant AncestorsHold(Prefixes(mappings), m) <==> AncestorsHold(Prefixes(mappings), child)
        decreases child.end
      {
        if child.parent.value !in mappings {
          return false;
        }
        var parent := mappings[child.parent.value].mapping;
        assert Prefixes(mappings)[child.parent.value] == parent;
        if parent.end >= child.end || parent.epochs != child.epochs || !(parent.required <= parent.complete) {
          return false;
        }
        child := parent;
      }
      return true;
    }

    method ValidatePublication(p: Prepared) returns (r: Option<Error>)
      ensures r == Refusal(View(), p)
    {
      if p.context !in contexts {
        return Some(ContextNotFound);
      }
      var c := contexts[p.context];
      if c.evaluated != p.current || c.revision != p.revision {
        return Some(PublicationConflict);
      }
      if c.epochs != p.mapping.epochs {
        return Some(IncompatibleEpoch);
      }
      if p.mapping.end > |c.tokens| || c.tokens[..p.mapping.end] != p.mapping.sequence {
        return Some(PublicationConflict);
      }
      if p.mapping.id in mappings {
        if mappings[p.mapping.id].mapping != p.mapping {
          return Some(IdentityConflict);
        }
      } else if p.mapping.parent.Some? && p.mapping.parent.value !in mappings {
        return Some(InvalidDependency);
      }
      return None;
    }

    /** Publishes a new prefix: one dependent more for its parent, one id more in the index, one catalogued entry. */
    method Insert(m: EvaluatedPrefix)
      requires m.id !in mappings
      modifies this`mappings, this`prefixIndex
      ensures mappings == Inserted(old(mappings), m)
      ensures prefixIndex == WithIndexed(old(prefixIndex), m)
    {
      if m.parent.Some? && m.parent.value in mappings {
        mappings := mappings[m.parent.value := MoreDependents(mappings[m.parent.value])];
      }
      prefixIndex := WithIndexed(prefixIndex, m);
      mappings := mappings[m.id := Entry(m, References(1, 0, 0))];
    }

    /** Counts the new binding and records it in the context. */
    method Bind(context: ContextId, bound: Context, id: Id, ghost unbound: Contexts)
      requires context in contexts && unbound == Unbound(contexts, context)
      requires Consistent(unbound, mappings, prefixIndex, None) && AllNamed(ids, Prefixes(mappings))
      requires bound.evaluated == Some(id) && id in mappings && Matches(mappings[id].mapping, bound)
      modifies this`mappings, this`contexts
      ensures contexts == old(contexts)[context := bound]
      ensures Consistent(contexts, mappings, prefixIndex, None) && AllNamed(ids, Prefixes(mappings))
      ensures Prefixes(mappings) == old(Prefixes(mappings)) && Catalog(mappings) == old(Catalog(mappings))
    {
      ghost var contexts' := contexts[context := bound];
      assert contexts' - {context} == unbound - {context};
      BoundConsistent(unbound, contexts', context, mappings, prefixIndex, id);
      Recounted(mappings, id, MoreContexts(mappings[id]));
      RecountedCatalog(mappings, id, MoreContexts(mappings[id]));
      mappings := mappings[id := MoreContexts(mappings[id])];
      contexts := contexts[context := bound];
    }

    method EnsurePublished(m: EvaluatedPrefix)
      requires Valid() && Named(ids, m) && WellFormed(m)
      requires if m.id in mappings then mappings[m.id].mapping == m else ParentFits(Prefixes(mappings), m)
      modifies this`mappings, this`prefixIndex
      ensures Valid() && m.id in mappings && mappings[m.id].mapping == m
      ensures Prefixes(mappings) == old(Prefixes(mappings))[m.id := m]
      ensures Catalog(mappings) ==
              if m.id in old(mappings) then old(Catalog(mappings)) else old(Catalog(mappings))[m.id := 1]
    {
      if m.id !in mappings {
        InsertedConsistent(contexts, mappings, prefixIndex, m);
        InsertedCatalog(mappings, m);
        Insert(m);
      } else {
        PublishedAlready(mappings, m);
      }
    }

    /** Releases the old binding of a context on the way to `id`, and says whether that took `id` along. */
    method ReleaseFor(context: ContextId, id: Id, ghost unbound: Contexts) returns (lost: bool)
      requires Valid()
      requires context in contexts && unbound == Unbound(contexts, context)
      requires id in mappings
      modifies this`mappings, this`prefixIndex
      ensures Consistent(unbound, mappings, prefixIndex, None) && AllNamed(ids, Prefixes(mappings))
      ensures Forest(old(Prefixes(mappings)))
      ensures ViewOf(nextContext, unbound, mappings) == Settled(ViewOf(nextContext, unbound, old(mappings)))
      ensures lost <==> id !in mappings
      ensures lost <==> id !in Settled(ViewOf(nextContext, unbound, old(mappings))).published
      ensures !lost ==> mappings[id].mapping == old(mappings[id].mapping)
      ensures contexts[context].evaluated.None? ==> !lost
    {
      assert Unbinds(contexts, unbound, context);
      GiveUpBinding(contexts[context].evaluated, contexts, unbound, context);
      PrefixesKeys(mappings);
      lost := id !in mappings;
      if !lost {
        SettledKeeps(nextContext, unbound, old(mappings), mappings, id);
      }
    }

    /** Moves the binding of a context to a published prefix: release first, then count. The target may be lost
        in between. */
    method Rebind(context: ContextId, id: Id) returns (lost: bool)
      requires Valid()
      requires context in contexts && contexts[context].evaluated != Some(id)
      requires id in mappings && Matches(mappings[id].mapping, contexts[context])
      modifies this
      ensures nextContext == old(nextContext)
      ensures Forest(old(Prefixes(mappings)))
      ensures lost <==> id !in Settled(ViewOf(nextContext, Unbound(old(contexts), context), old(mappings))).published
      ensures old(contexts)[context].evaluated.None? ==> !lost
      ensures !lost ==>
                && Valid()
                && id in mappings && mappings[id].mapping == old(mappings[id].mapping)
                && contexts == old(contexts)[context := Rebound(old(contexts)[context], id)]
                && View() == Settled(ViewOf(nextContext, contexts, old(mappings)))
    {
      ghost var unbound := Unbound(contexts, context);
      lost := ReleaseFor(context, id, unbound);
      if !lost {
        ghost var released := mappings;
        var bound := Rebound(contexts[context], id);
        Bind(context, bound, id, unbound);
        RebindSettles(nextContext, old(contexts), context, bound, old(mappings), released, mappings, id);
      }
    }

    /** Commits a prepared publication. The old binding is released before the new one is counted, so a target
        that only the old binding keeps alive is reclaimed and the final lookup panics: exactly `TargetLost`.
        Otherwise the store publishes the prefix, binds the context and collects what that leaves unheld. */
    method CommitPublication(p: Prepared) returns (r: Outcome)
      requires Valid()
      requires WellPrepared(ids, p.mapping)
      requires p.mapping.parent.Some? && p.mapping.parent.value in mappings
               ==> ParentFits(Prefixes(mappings), p.mapping)
      modifies this
      ensures nextContext == old(nextContext)
      ensures Forest(old(View()).published)
      ensures Refusal(old(View()), p).Some? ==> r == Refused(Refusal(old(View()), p).value) && View() == old(View())
      ensures Refusal(old(View()), p).None? ==> (r.Panicked? <==> TargetLost(old(View()), p))
      ensures Refusal(old(View()), p).None? && !r.Panicked? ==>
                && r == Committed(p.mapping)
                && Forest(WithPublication(old(View()), p).published)
                && View() == if old(contexts)[p.context].evaluated == Some(p.mapping.id) then old(View())
                             else Settled(WithPublication(old(View()), p))
      ensures !r.Panicked? ==> Valid() && Later(old(View()), View())
    {
      var refused := ValidatePublication(p);
      if refused.Some? {
        return Refused(refused.value);
      }
      var id := p.mapping.id;
      ghost var before := View();
      assert BindingHolds(contexts, mappings, p.context);
      EnsurePublished(p.mapping);
      assert id in before.published ==> before.published[id := p.mapping] == before.published;
      if contexts[p.context].evaluated == Some(id) {
        return Committed(mappings[id].mapping);
      }
      ghost var published := View();
      assert id !in before.published ==> id in Roots(Unbound(contexts, p.context), published.catalog);
      assert id !in before.published ==> id in Ancestors(published.published, id);
      var lost := Rebind(p.context, id);
      if lost {
        return Panicked;
      }
      return Committed(mappings[id].mapping);
    }

    // ---- lookup ----

    /** The valid prefix with the smallest id among `candidates`. */
    method ValidMappingFromIds(c: Context, candidates: seq<Id>) returns (best: Option<EvaluatedPrefix>)
      requires Forest(Prefixes(mappings))
      ensures best.None? ==> forall id :: id in candidates && id in mappings ==> !Matches(mappings[id].mapping, c)
      ensures best.Some? ==>
                && best.value.id in candidates && best.value.id in mappings
                && best.value == mappings[best.value.id].mapping
                && Matches(best.value, c)
                && forall id :: id in candidates && id in mappings && Matches(mappings[id].mapping, c)
                     ==> best.value.id <= id
    {
      best := None;
      for i := 0 to |candidates|
        invariant best.None? ==>
            forall id :: id in candidates[..i] && id in mappings ==> !Matches(mappings[id].mapping, c)
        invariant best.Some? ==>
            && best.value.id in candidates[..i] && best.value.id in mappings
            && best.value == mappings[best.value.id].mapping
            && Matches(best.value, c)
            && forall id :: id in candidates[..i] && id in mappings && Matches(mappings[id].mapping, c)
                 ==> best.value.id <= id
      {
        var id := candidates[i];
        assert candidates[..i + 1] == candidates[..i] + [id];
        if id in mappings {
          var m := mappings[id].mapping;
          assert Fits(Prefixes(mappings), id);
          WalkNeverRejects(Prefixes(mappings), m);
          var valid := MappingValidForContext(m, c, None);
          if valid && (best.None? || m.id < best.value.id) {
            best := Some(m);
          }
        }
      }
      assert candidates[..|candidates|] == candidates;
    }

    /** Looks the index up from the context's length downwards and stops at the first bucket with a valid
        prefix. The answer is the longest prefix a search over all of them would find. */
    method LongestValidPrefix(context: ContextId) returns (r: Result<Option<EvaluatedPrefix>>)
      requires Valid()
      ensures r.Failure? <==> context !in contexts
      ensures r.Failure? ==> r.error == ContextNotFound
      ensures r.Success? ==> IsLongest(Prefixes(mappings), contexts[context], r.value)
    {
      if context !in contexts {
        return Failure(ContextNotFound);
      }
      var c := contexts[context];
      if c.epochs !in prefixIndex {
        forall id | id in mappings && Matches(mappings[id].mapping, c)
          ensures false
        {
          InItsBucket(id);
        }
        return Success(None);
      }
      var lengths := prefixIndex[c.epochs];
      var n := |c.tokens|;
      while true
        invariant 0 <= n <= |c.tokens|
        invariant forall id :: id in mappings && Matches(mappings[id].mapping, c) ==> mappings[id].mapping.end <= n
        decreases n
      {
        if n in lengths {
          var best := ValidMappingFromIds(c, lengths[n]);
          assert BucketHolds(prefixIndex, mappings, c.epochs, n);
          forall id | id in mappings && mappings[id].mapping.end == n && mappings[id].mapping.epochs == c.epochs
            ensures id in lengths[n]
          {
            InItsBucket(id);
          }
          if best.Some? {
            return Success(best);
          }
        } else {
          forall id | id in mappings && mappings[id].mapping.epochs == c.epochs
            ensures mappings[id].mapping.end != n
          {
            InItsBucket(id);
          }
        }
        if n == 0 {
          return Success(None);
        }
        n := n - 1;
      }
    }

    lemma InItsBucket(id: Id)
      requires Valid() && id in mappings
      ensures var m := mappings[id].mapping;
              m.epochs in prefixIndex && m.end in prefixIndex[m.epochs] && id in prefixIndex[m.epochs][m.end]
    {
      assert InPlace(prefixIndex, mappings[id].mapping);
      assert Fits(Prefixes(mappings), id);
    }
  }

  // ---- a store that loses its target ----

  /** `target` is published, and `child` that depends on it; the only context is bound to the child. */
  function PairView(c: Context, target: EvaluatedPrefix, child: EvaluatedPrefix, catalog: map<Id, nat>): StoreView {
    StoreView(1, map[0 := c.(evaluated := Some(child.id), revision := 2)],
              map[target.id := target, child.id := child], catalog)
  }

  predicate IsPair(target: EvaluatedPrefix, child: EvaluatedPrefix) {
    && WellFormed(target) && WellFormed(child) && target.id != child.id
    && target.parent.None? && child.parent == Some(target.id)
    && target.end < child.end && target.epochs == child.epochs
  }

  lemma PairForest(target: EvaluatedPrefix, child: EvaluatedPrefix)
    requires IsPair(target, child)
    ensures var p := map[target.id := target, child.id := child];
            && Forest(p) && Ancestors(p, target.id) == {target.id} && Ancestors(p, child.id) == {target.id, child.id}
  {
    var p := map[target.id := target, child.id := child];
    assert p.Keys == {target.id, child.id};
    assert Fits(p, target.id) && Fits(p, child.id);
  }

  /** As long as the child is bound, both stay. */
  lemma PairSettled(c: Context, target: EvaluatedPrefix, child: EvaluatedPrefix, catalog: map<Id, nat>)
    requires IsPair(target, child) && catalog.Keys == {target.id, child.id}
    ensures var v := PairView(c, target, child, catalog); Forest(v.published) && Settled(v) == v
  {
    var v := PairView(c, target, child, catalog);
    PairForest(target, child);
    assert v.contexts[0].evaluated.value == child.id;
    assert child.id in Roots(v.contexts, v.catalog);
    assert Anchored(v.published, Roots(v.contexts, v.catalog), target.id);
    assert Anchored(v.published, Roots(v.contexts, v.catalog), child.id);
    AllAnchored(v);
  }

  /** With the catalog empty, giving up the binding to the child unholds the target. */
  lemma PairLoses(c: Context, target: EvaluatedPrefix, child: EvaluatedPrefix, catalog: map<Id, nat>)
    requires IsPair(target, child) && catalog.Keys == {target.id, child.id}
    requires catalog[target.id] == 0 && catalog[child.id] == 0
    ensures var v := PairView(c, target, child, catalog);
            Forest(v.published) && TargetLost(v, Prepared(0, 2, Some(child.id), target))
  {
    var v := PairView(c, target, child, catalog);
    PairForest(target, child);
    assert Roots(Unbound(v.contexts, 0), v.catalog) == {};
  }

  function OneView(c: Context, target: EvaluatedPrefix): StoreView {
    StoreView(1, map[0 := c.(evaluated := Some(target.id), revision := 1)], map[target.id := target],
              map[target.id := 1])
  }

  lemma OneSettled(c: Context, target: EvaluatedPrefix)
    requires WellFormed(target) && target.parent.None?
    ensures Forest(OneView(c, target).published) && Settled(OneView(c, target)) == OneView(c, target)
  {
    var v := OneView(c, target);
    assert Fits(v.published, target.id);
    assert target.id in Roots(v.contexts, v.catalog) && target.id in Ancestors(v.published, target.id);
    assert Anchored(v.published, Roots(v.contexts, v.catalog), target.id);
    AllAnchored(v);
  }

  function TargetOf(ids: IdScheme, c: Context): EvaluatedPrefix
    requires |c.tokens| >= 2
  {
    MappingFor(ids, c, 1, None, {}, {}, 0)
  }

  function ChildOf(ids: IdScheme, c: Context): EvaluatedPrefix
    requires |c.tokens| >= 2
  {
    MappingFor(ids, c, 2, Some(TargetOf(ids, c)), {}, {}, 0)
  }

  /** A context publishes one token. */
  method PublishOne(s: Store, c: Context)
    requires s.Valid() && |c.tokens| >= 2 && s.View() == StoreView(1, map[0 := c], map[], map[])
    requires c.evaluated.None? && c.revision == 0
    modifies s
    ensures s.Valid() && s.View() == OneView(c, TargetOf(s.ids, c))
  {
    var target := TargetOf(s.ids, c);
    var p := s.PreparePublication(0, 1, None, {}, {}, 0);
    OneSettled(c, target);
    assert WithPublication(s.View(), p.value) == OneView(c, target);
    CommitTo(s, p.value, OneView(c, target));
  }

  /** The catalog holds both. */
  function Both(target: EvaluatedPrefix, child: EvaluatedPrefix): map<Id, nat> {
    map[target.id := 1, child.id := 1]
  }

  /** And then two on top of it. */
  method PublishTwo(s: Store, c: Context)
    requires s.Valid() && |c.tokens| >= 2 && s.View() == OneView(c, TargetOf(s.ids, c))
    requires IsPair(TargetOf(s.ids, c), ChildOf(s.ids, c))
    modifies s
    ensures s.Valid()
    ensures var (target, child) := (TargetOf(s.ids, c), ChildOf(s.ids, c));
            s.View() == PairView(c, target, child, Both(target, child))
  {
    var target, child := TargetOf(s.ids, c), ChildOf(s.ids, c);
    var p := PrepareTwo(s, c);
    PairPublished(c, target, child);
    CommitTo(s, p, PairView(c, target, child, Both(target, child)));
  }

  lemma PairPublished(c: Context, target: EvaluatedPrefix, child: EvaluatedPrefix)
    requires IsPair(target, child)
    ensures var v := WithPublication(OneView(c, target), Prepared(0, 1, Some(target.id), child));
            v == PairView(c, target, child, Both(target, child)) && Forest(v.published) && Settled(v) == v
  {
    PairSettled(c, target, child, Both(target, child));
  }

  /** Commits what is new and collects nothing. */
  method CommitTo(s: Store, p: Prepared, ghost after: StoreView)
    requires s.Valid() && WellPrepared(s.ids, p.mapping) && Refusal(s.View(), p).None?
    requires p.mapping.id !in s.View().published && ParentFits(s.View().published, p.mapping)
    requires s.contexts[p.context].evaluated != Some(p.mapping.id)
    requires after == WithPublication(s.View(), p) && Forest(after.published) && Settled(after) == after
    modifies s
    ensures s.Valid() && s.View() == after
  {
    var committed := s.CommitPublication(p);
  }

  method PrepareTwo(s: Store, c: Context) returns (p: Prepared)
    requires s.Valid() && |c.tokens| >= 2 && s.View() == OneView(c, TargetOf(s.ids, c))
    requires IsPair(TargetOf(s.ids, c), ChildOf(s.ids, c))
    ensures p == Prepared(0, 1, Some(TargetOf(s.ids, c).id), ChildOf(s.ids, c)) && Refusal(s.View(), p).None?
    ensures WellPrepared(s.ids, p.mapping) && ParentFits(s.View().published, p.mapping)
  {
    var target := TargetOf(s.ids, c);
    assert s.View().published[target.id] == target;
    assert s.mappings[target.id].mapping == target;
    assert c.tokens[..1] == target.sequence;
    var prepared := s.PreparePublication(0, 2, Some(target.id), {}, {}, 0);
    p := prepared.value;
  }

  /** The catalog lets go of a prefix without anything being collected. */
  method LetGo(s: Store, id: Id, ghost after: StoreView)
    requires s.Valid() && id in s.View().published && s.View().catalog[id] == 1
    requires after == s.View().(catalog := s.View().catalog[id := 0])
    requires Forest(after.published) && Settled(after) == after
    modifies s
    ensures s.Valid() && s.View() == after
  {
    var released := s.ReleaseMapping(id);
  }

  method LetGoOf(s: Store, c: Context, id: Id, catalog: map<Id, nat>)
    requires s.Valid() && |c.tokens| >= 2 && IsPair(TargetOf(s.ids, c), ChildOf(s.ids, c))
    requires catalog.Keys == {TargetOf(s.ids, c).id, ChildOf(s.ids, c).id} && id in catalog && catalog[id] == 1
    requires s.View() == PairView(c, TargetOf(s.ids, c), ChildOf(s.ids, c), catalog)
    modifies s
    ensures s.Valid()
    ensures s.View() == PairView(c, TargetOf(s.ids, c), ChildOf(s.ids, c), catalog[id := 0])
  {
    PairSettled(c, TargetOf(s.ids, c), ChildOf(s.ids, c), catalog[id := 0]);
    LetGo(s, id, PairView(c, TargetOf(s.ids, c), ChildOf(s.ids, c), catalog[id := 0]));
  }

  /** A run that loses its target. A context publishes one token and then two on top of it, the catalog lets go of
      both, and the context publishes the one token once more: prepared without objection, committed with a panic. */
  method TargetCanBeLost(ids: IdScheme, c: Context) returns (r: Outcome)
    requires |c.tokens| >= 2 && c.evaluated.None? && c.revision == 0 && TargetOf(ids, c).id != ChildOf(ids, c).id
    ensures r.Panicked?
  {
    var s := new Store(ids);
    var context := s.Create(c.tokens, c.epochs);
    PublishOne(s, c);
    PublishTwo(s, c);
    var target, child := TargetOf(ids, c), ChildOf(ids, c);
    LetGoOf(s, c, target.id, Both(target, child));
    LetGoOf(s, c, child.id, Both(target, child)[target.id := 0]);
    r := PublishAgain(s, c, Both(target, child)[target.id := 0][child.id := 0]);
  }

  method PublishAgain(s: Store, c: Context, catalog: map<Id, nat>) returns (r: Outcome)
    requires s.Valid() && |c.tokens| >= 2 && IsPair(TargetOf(s.ids, c), ChildOf(s.ids, c))
    requires catalog.Keys == {TargetOf(s.ids, c).id, ChildOf(s.ids, c).id}
    requires catalog[TargetOf(s.ids, c).id] == 0 && catalog[ChildOf(s.ids, c).id] == 0
    requires s.View() == PairView(c, TargetOf(s.ids, c), ChildOf(s.ids, c), catalog)
    modifies s
    ensures r.Panicked?
  {
    var p := s.PreparePublication(0, 1, None, {}, {}, 0);
    PairLoses(c, TargetOf(s.ids, c), ChildOf(s.ids, c), catalog);
    ghost var before := s.View();
    assert p.value.mapping == TargetOf(s.ids, c) && Refusal(before, p.value).None?;
    r := s.CommitPublication(p.value);
  }
}
