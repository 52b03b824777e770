/**
 What a context store holds, as values, and what must be true of it: the recorded reference counts are the
 true ones, every id that is mentioned is live, the length index lists every prefix once, and nothing live is
 unreferenced.
 */
module StoreAccounting {
  import opened Options
  import opened PrefixForest

  datatype References = References(catalog: nat, contexts: nat, dependents: nat)

  datatype Entry = Entry(mapping: EvaluatedPrefix, references: References)

  type Entries = map<Id, Entry>
  type Contexts = map<ContextId, Context>
  type Index = map<Epochs, map<nat, seq<Id>>>

  ghost function Prefixes(e: Entries): Published {
    map id | id in e :: e[id].mapping
  }

  ghost function Catalog(e: Entries): map<Id, nat> {
    map id | id in e :: e[id].references.catalog
  }

  ghost function BoundTo(cs: Contexts, id: Id): set<ContextId> {
    set c | c in cs && cs[c].evaluated == Some(id)
  }

  ghost function ChildrenOf(e: Entries, id: Id): set<Id> {
    set m | m in e && e[m].mapping.parent == Some(id)
  }

  /** What is held directly: catalogued prefixes and those a context is bound to. */
  ghost function Roots(cs: Contexts, catalog: map<Id, nat>): set<Id> {
    (set id | id in catalog && catalog[id] > 0) + (set c | c in cs && cs[c].evaluated.Some? :: cs[c].evaluated.value)
  }

  /** The recorded counts of `id` are the true ones. */
  ghost predicate CountsHold(cs: Contexts, e: Entries, id: Id)
    requires id in e
  {
    && e[id].references.contexts == |BoundTo(cs, id)|
    && e[id].references.dependents == |ChildrenOf(e, id)|
  }

  ghost predicate Counted(cs: Contexts, e: Entries) {
    forall id {:trigger CountsHold(cs, e, id)} :: id in e ==> CountsHold(cs, e, id)
  }

  ghost predicate NoGarbage(e: Entries, loose: Option<Id>) {
    forall id :: id in e && loose != Some(id) ==> !Unreferenced(e[id])
  }

  predicate Unreferenced(e: Entry) {
    e.references.catalog == 0 && e.references.contexts == 0 && e.references.dependents == 0
  }

  /** A context is only ever bound to a live prefix of its own tokens and epochs. */
  ghost predicate Bindings(cs: Contexts, e: Entries) {
    forall c {:trigger BindingHolds(cs, e, c)} :: c in cs ==> BindingHolds(cs, e, c)
  }

  ghost predicate BindingHolds(cs: Contexts, e: Entries, c: ContextId)
    requires c in cs
  {
    cs[c].evaluated.Some? ==>
      cs[c].evaluated.value in e && Matches(e[cs[c].evaluated.value].mapping, cs[c])
  }

  ghost predicate NoDuplicates(ids: seq<Id>) {
    forall i, j :: 0 <= i < j < |ids| ==> ids[i] != ids[j]
  }

  function IdsAt(ix: Index, k: Epochs, n: nat): seq<Id> {
    if k in ix && n in ix[k] then ix[k][n] else []
  }

  predicate InPlace(ix: Index, m: EvaluatedPrefix) {
    m.id in IdsAt(ix, m.epochs, m.end)
  }

  /** The bucket for epochs `k` and length `n` lists live prefixes of that kind, each once. */
  ghost predicate BucketHolds(ix: Index, e: Entries, k: Epochs, n: nat) {
    && NoDuplicates(IdsAt(ix, k, n))
    && forall id :: id in IdsAt(ix, k, n) ==> id in e && e[id].mapping.epochs == k && e[id].mapping.end == n
  }

  ghost predicate NoEmptyBucket(ix: Index) {
    forall k :: k in ix ==> ix[k] != map[] && forall n :: n in ix[k] ==> ix[k][n] != []
  }

  /** Every live prefix is listed once, every listed id is live and in the right bucket, no bucket is empty. */
  ghost predicate Indexed(ix: Index, e: Entries) {
    && NoEmptyBucket(ix)
    && (forall id {:trigger InPlace(ix, e[id].mapping)} :: id in e ==> InPlace(ix, e[id].mapping))
    && (forall k, n :: BucketHolds(ix, e, k, n))
  }

  /** The invariant of the store, with room for one prefix that may have just lost its last reference. */
  ghost predicate Consistent(cs: Contexts, e: Entries, ix: Index, loose: Option<Id>) {
    && Forest(Prefixes(e))
    && Counted(cs, e)
    && Bindings(cs, e)
    && Indexed(ix, e)
    && NoGarbage(e, loose)
  }

  // ---- counting lemmas ----

  lemma CardinalityAdd<T>(s: set<T>, t: set<T>, x: T)
    requires t == s + {x} && x !in s
    ensures |t| == |s| + 1
  {
  }

  lemma CardinalityZero<T>(s: set<T>)
    requires |s| == 0
    ensures s == {}
  {
  }

  lemma Nonempty<T>(s: set<T>) returns (x: T)
    requires |s| > 0
    ensures x in s
  {
    assert s != {};
    x :| x in s;
  }

  // ---- the index ----

  function Without(ids: seq<Id>, id: Id): seq<Id> {
    if ids == [] then [] else (if ids[0] == id then [] else [ids[0]]) + Without(ids[1..], id)
  }

  lemma {:induction false} WithoutKeeps(ids: seq<Id>, id: Id)
    ensures forall x :: x in Without(ids, id) <==> x in ids && x != id
    ensures NoDuplicates(ids) ==> NoDuplicates(Without(ids, id))
  {
    if ids != [] {
      WithoutKeeps(ids[1..], id);
      var rest := Without(ids[1..], id);
      assert forall x :: x in ids <==> x == ids[0] || x in ids[1..];
      if NoDuplicates(ids) {
        assert forall j :: 0 <= j < |ids[1..]| ==> ids[1..][j] == ids[j + 1];
        assert forall j :: 0 <= j < |rest| ==> rest[j] in rest;
        assert ids[0] !in rest;
      }
    }
  }

  /** Adds an id to its bucket, creating bucket and epoch on first use. */
  function WithIndexed(ix: Index, m: EvaluatedPrefix): Index {
    var lengths: map<nat, seq<Id>> := if m.epochs in ix then ix[m.epochs] else map[];
    var ids := if m.end in lengths then lengths[m.end] else [];
    ix[m.epochs := lengths[m.end := ids + [m.id]]]
  }

  function LengthsWithout(lengths: map<nat, seq<Id>>, m: EvaluatedPrefix): map<nat, seq<Id>> {
    if m.end !in lengths then lengths
    else
      var ids := Without(lengths[m.end], m.id);
      if ids == [] then lengths - {m.end} else lengths[m.end := ids]
  }

  /** Takes an id out of its bucket and drops what becomes empty. */
  function WithoutIndexed(ix: Index, m: EvaluatedPrefix): Index {
    if m.epochs !in ix then ix
    else
      var lengths := LengthsWithout(ix[m.epochs], m);
      if lengths == map[] then ix - {m.epochs} else ix[m.epochs := lengths]
  }

  lemma WithIndexedAt(ix: Index, m: EvaluatedPrefix, k: Epochs, n: nat)
    ensures IdsAt(WithIndexed(ix, m), k, n) == IdsAt(ix, k, n) + if k == m.epochs && n == m.end then [m.id] else []
    ensures NoEmptyBucket(ix) ==> NoEmptyBucket(WithIndexed(ix, m))
  {
  }

  lemma WithoutIndexedAt(ix: Index, m: EvaluatedPrefix, k: Epochs, n: nat)
    ensures IdsAt(WithoutIndexed(ix, m), k, n)
            == if k == m.epochs && n == m.end then Without(IdsAt(ix, k, n), m.id) else IdsAt(ix, k, n)
    ensures NoEmptyBucket(ix) ==> NoEmptyBucket(WithoutIndexed(ix, m))
  {
    assert Without([], m.id) == [];
    if m.epochs in ix {
      var lengths := LengthsWithout(ix[m.epochs], m);
      if k == m.epochs {
        assert n in ix[k] && n != m.end ==> n in lengths && lengths[n] == ix[k][n];
        assert lengths == map[] ==> n !in lengths;
      }
    }
  }

  lemma WithIndexedExact(ix: Index, e: Entries, e': Entries, m: EvaluatedPrefix)
    requires Indexed(ix, e)
    requires m.id !in e
    requires e'.Keys == e.Keys + {m.id} && e'[m.id].mapping == m
    requires forall id :: id in e ==> e'[id].mapping == e[id].mapping
    ensures Indexed(WithIndexed(ix, m), e')
  {
    var ix' := WithIndexed(ix, m);
    WithIndexedAt(ix, m, m.epochs, m.end);
    forall k, n
      ensures BucketHolds(ix', e', k, n)
    {
      WithIndexedAt(ix, m, k, n);
      assert BucketHolds(ix, e, k, n);
    }
    forall id | id in e'
      ensures InPlace(ix', e'[id].mapping)
    {
      WithIndexedAt(ix, m, e'[id].mapping.epochs, e'[id].mapping.end);
      assert id in e ==> InPlace(ix, e[id].mapping);
    }
  }

  lemma WithoutIndexedExact(ix: Index, e: Entries, e': Entries, m: EvaluatedPrefix)
    requires Indexed(ix, e)
    requires m.id in e && e[m.id].mapping == m
    requires forall x :: x in e ==> e[x].mapping.id == x
    requires e'.Keys == e.Keys - {m.id}
    requires forall x :: x in e' ==> e'[x].mapping == e[x].mapping
    ensures Indexed(WithoutIndexed(ix, m), e')
  {
    var ix' := WithoutIndexed(ix, m);
    WithoutIndexedAt(ix, m, m.epochs, m.end);
    forall k, n
      ensures BucketHolds(ix', e', k, n)
    {
      WithoutIndexedAt(ix, m, k, n);
      WithoutKeeps(IdsAt(ix, k, n), m.id);
      assert BucketHolds(ix, e, k, n);
    }
    forall x | x in e'
      ensures InPlace(ix', e'[x].mapping)
    {
      WithoutIndexedAt(ix, m, e[x].mapping.epochs, e[x].mapping.end);
      WithoutKeeps(IdsAt(ix, e[x].mapping.epochs, e[x].mapping.end), m.id);
      assert InPlace(ix, e[x].mapping);
    }
  }

  // ---- removing one unreferenced prefix ----

  /** The entries after `id` is removed and its parent has one dependent less. */
  function Dropped(e: Entries, id: Id): Entries
    requires id in e
  {
    var rest := e - {id};
    match e[id].mapping.parent
    case Some(p) =>
      if p in rest then rest[p := LessDependents(rest[p])] else rest
    case None => rest
  }

  function LessDependents(e: Entry): Entry {
    e.(references := e.references.(dependents := if e.references.dependents > 0 then e.references.dependents - 1 else 0))
  }

  lemma DroppedForest(cs: Contexts, e: Entries, id: Id)
    requires Forest(Prefixes(e)) && Counted(cs, e)
    requires id in e && Unreferenced(e[id])
    ensures Forest(Prefixes(Dropped(e, id)))
  {
    var (p, p') := (Prefixes(e), Prefixes(Dropped(e, id)));
    assert CountsHold(cs, e, id);
    CardinalityZero(ChildrenOf(e, id));
    forall x | x in p'
      ensures Fits(p', x)
    {
      assert x in e && x !in ChildrenOf(e, id);
      assert p'[x] == p[x] && Fits(p, x);
    }
  }

  lemma DroppedDependents(e: Entries, id: Id, x: Id)
    requires id in e && x in Dropped(e, id)
    requires e[x].references.dependents == |ChildrenOf(e, x)|
    ensures Dropped(e, id)[x].references.dependents == |ChildrenOf(Dropped(e, id), x)|
  {
    var e' := Dropped(e, id);
    if e[id].mapping.parent == Some(x) {
      assert ChildrenOf(e, x) == ChildrenOf(e', x) + {id};
      CardinalityAdd(ChildrenOf(e', x), ChildrenOf(e, x), id);
    } else {
      assert ChildrenOf(e', x) == ChildrenOf(e, x);
    }
  }

  lemma DroppedBindings(cs: Contexts, e: Entries, id: Id)
    requires Bindings(cs, e) && Counted(cs, e)
    requires id in e && Unreferenced(e[id])
    ensures Bindings(cs, Dropped(e, id))
  {
    assert CountsHold(cs, e, id);
    CardinalityZero(BoundTo(cs, id));
    forall c | c in cs
      ensures BindingHolds(cs, Dropped(e, id), c)
    {
      assert c !in BoundTo(cs, id);
      assert BindingHolds(cs, e, c);
    }
  }

  lemma DroppedCounted(cs: Contexts, e: Entries, id: Id)
    requires Counted(cs, e) && id in e
    ensures Counted(cs, Dropped(e, id))
  {
    forall x | x in Dropped(e, id)
      ensures CountsHold(cs, Dropped(e, id), x)
    {
      assert CountsHold(cs, e, x);
      DroppedDependents(e, id, x);
    }
  }

  lemma DroppedIndexed(e: Entries, ix: Index, id: Id)
    requires Forest(Prefixes(e)) && Indexed(ix, e) && id in e
    ensures Indexed(WithoutIndexed(ix, e[id].mapping), Dropped(e, id))
  {
    forall x | x in e
      ensures e[x].mapping.id == x
    {
      assert Fits(Prefixes(e), x);
    }
    WithoutIndexedExact(ix, e, Dropped(e, id), e[id].mapping);
  }

  lemma DroppedConsistent(cs: Contexts, e: Entries, ix: Index, id: Id)
    requires Consistent(cs, e, ix, Some(id))
    requires id in e && Unreferenced(e[id])
    ensures Consistent(cs, Dropped(e, id), WithoutIndexed(ix, e[id].mapping), e[id].mapping.parent)
  {
    DroppedForest(cs, e, id);
    DroppedBindings(cs, e, id);
    DroppedCounted(cs, e, id);
    DroppedIndexed(e, ix, id);
  }

  /** `e'` came from `e` by dropping prefixes that nothing held directly. */
  ghost predicate Shrunk(cs: Contexts, e: Entries, e': Entries) {
    && (forall id :: id in e' ==>
          && id in e
          && e'[id].mapping == e[id].mapping
          && e'[id].references.catalog == e[id].references.catalog)
    && (forall id :: id in e && id !in e' ==> e[id].references.catalog == 0 && BoundTo(cs, id) == {})
  }

  lemma ShrunkTransitive(cs: Contexts, a: Entries, b: Entries, c: Entries)
    requires Shrunk(cs, a, b) && Shrunk(cs, b, c)
    ensures Shrunk(cs, a, c)
  {
  }

  lemma ReferencedIsHeld(cs: Contexts, e: Entries, id: Id)
    requires Counted(cs, e) && id in e && !Unreferenced(e[id])
    ensures id in Roots(cs, Catalog(e)) || HasChild(Prefixes(e), id)
  {
    assert CountsHold(cs, e, id);
    if e[id].references.catalog > 0 {
      assert id in Catalog(e);
    } else if e[id].references.contexts > 0 {
      var c := Nonempty(BoundTo(cs, id));
      assert cs[c].evaluated.value == id;
    } else {
      var m := Nonempty(ChildrenOf(e, id));
      assert Prefixes(e)[m].parent == Some(id);
    }
  }

  /** Counting down to a consistent store leaves exactly the traced prefixes. */
  lemma SweptIsTraced(cs: Contexts, e: Entries, e': Entries)
    requires Forest(Prefixes(e)) && Forest(Prefixes(e')) && Counted(cs, e')
    requires Shrunk(cs, e, e')
    requires forall id :: id in e' ==> !Unreferenced(e'[id])
    ensures Prefixes(e') == Traced(Prefixes(e), Roots(cs, Catalog(e)))
  {
    var roots := Roots(cs, Catalog(e));
    forall r | r in roots && r in e
      ensures r in e'
    {
      if Catalog(e)[r] == 0 {
        var c :| c in cs && cs[c].evaluated == Some(r);
        assert c in BoundTo(cs, r);
      }
    }
    forall m | m in e'
      ensures m in roots || HasChild(Prefixes(e'), m)
    {
      ReferencedIsHeld(cs, e', m);
      assert m in Catalog(e') ==> Catalog(e')[m] == Catalog(e)[m];
    }
    CountedIsTraced(Prefixes(e), Prefixes(e'), roots);
  }

  // ---- binding and unbinding one context, publishing one prefix ----

  /** `cs'` is `cs` with the binding of `c` gone: `c` removed, or its context replaced by an unbound one. */
  ghost predicate Unbinds(cs: Contexts, cs': Contexts, c: ContextId) {
    && c in cs
    && cs' - {c} == cs - {c}
    && (c in cs' ==> cs'[c].evaluated == None)
  }

  function LessContexts(e: Entry): Entry {
    e.(references := e.references.(contexts := if e.references.contexts > 0 then e.references.contexts - 1 else 0))
  }

  function MoreContexts(e: Entry): Entry {
    e.(references := e.references.(contexts := e.references.contexts + 1))
  }

  function MoreDependents(e: Entry): Entry {
    e.(references := e.references.(dependents := e.references.dependents + 1))
  }

  /** Replacing one entry's counts changes neither what is published nor who depends on whom. */
  lemma Recounted(e: Entries, id: Id, entry: Entry)
    requires id in e && entry.mapping == e[id].mapping
    ensures Prefixes(e[id := entry]) == Prefixes(e)
    ensures forall x :: ChildrenOf(e[id := entry], x) == ChildrenOf(e, x)
    ensures forall ix :: Indexed(ix, e) ==> Indexed(ix, e[id := entry])
    ensures forall cs :: Bindings(cs, e) ==> Bindings(cs, e[id := entry])
  {
    var e' := e[id := entry];
    forall cs | Bindings(cs, e)
      ensures Bindings(cs, e')
    {
      forall c | c in cs
        ensures BindingHolds(cs, e', c)
      {
        assert BindingHolds(cs, e, c);
      }
    }
    forall x
      ensures ChildrenOf(e', x) == ChildrenOf(e, x)
    {
    }
    forall ix | Indexed(ix, e)
      ensures Indexed(ix, e')
    {
      IndexedSame(ix, e, e');
    }
  }

  lemma RecountedCatalog(e: Entries, id: Id, entry: Entry)
    requires id in e
    ensures Catalog(e[id := entry]) == Catalog(e)[id := entry.references.catalog]
    ensures entry.references.catalog == e[id].references.catalog ==> Catalog(e[id := entry]) == Catalog(e)
  {
  }

  lemma IndexedSame(ix: Index, e: Entries, e': Entries)
    requires Indexed(ix, e)
    requires e'.Keys == e.Keys && forall id :: id in e ==> e'[id].mapping == e[id].mapping
    ensures Indexed(ix, e')
  {
    forall k, n
      ensures BucketHolds(ix, e', k, n)
    {
      assert BucketHolds(ix, e, k, n);
    }
    forall id | id in e'
      ensures InPlace(ix, e'[id].mapping)
    {
      assert InPlace(ix, e[id].mapping);
    }
  }

  lemma UnboundCounts(cs: Contexts, cs': Contexts, c: ContextId, id: Id)
    requires Unbinds(cs, cs', c)
    ensures |BoundTo(cs', id)| == |BoundTo(cs, id)| - if cs[c].evaluated == Some(id) then 1 else 0
  {
    forall x | x != c
      ensures x in BoundTo(cs', id) <==> x in BoundTo(cs, id)
    {
      assert x in cs - {c} <==> x in cs;
      assert x in cs' - {c} <==> x in cs';
      if x in cs {
        assert (cs' - {c})[x] == (cs - {c})[x];
      }
    }
    if cs[c].evaluated == Some(id) {
      CardinalityAdd(BoundTo(cs', id), BoundTo(cs, id), c);
    } else {
      assert BoundTo(cs', id) == BoundTo(cs, id);
    }
  }

  lemma UnboundBindings(cs: Contexts, cs': Contexts, c: ContextId, e: Entries)
    requires Unbinds(cs, cs', c) && Bindings(cs, e)
    ensures Bindings(cs', e)
  {
    forall x | x in cs'
      ensures BindingHolds(cs', e, x)
    {
      if x != c {
        assert x in cs' - {c} && (cs' - {c})[x] == (cs - {c})[x];
        assert BindingHolds(cs, e, x);
      }
    }
  }

  /** Dropping a bound context's reference leaves a store that may owe one reclamation. */
  lemma UnboundConsistent(cs: Contexts, cs': Contexts, c: ContextId, e: Entries, ix: Index)
    requires Consistent(cs, e, ix, None) && Unbinds(cs, cs', c) && cs[c].evaluated.Some?
    ensures cs[c].evaluated.value in e
    ensures e[cs[c].evaluated.value].references.contexts > 0
    ensures var id := cs[c].evaluated.value; Consistent(cs', e[id := LessContexts(e[id])], ix, Some(id))
  {
    var id := cs[c].evaluated.value;
    assert BindingHolds(cs, e, c);
    var e' := e[id := LessContexts(e[id])];
    Recounted(e, id, LessContexts(e[id]));
    UnboundBindings(cs, cs', c, e);
    assert CountsHold(cs, e, id);
    UnboundCounts(cs, cs', c, id);
    forall x | x in e'
      ensures CountsHold(cs', e', x)
    {
      assert CountsHold(cs, e, x);
      UnboundCounts(cs, cs', c, x);
    }
  }

  function LessCatalog(e: Entry): Entry {
    e.(references := e.references.(catalog := if e.references.catalog > 0 then e.references.catalog - 1 else 0))
  }

  lemma LessCatalogConsistent(cs: Contexts, e: Entries, ix: Index, id: Id)
    requires Consistent(cs, e, ix, None) && id in e
    ensures Consistent(cs, e[id := LessCatalog(e[id])], ix, Some(id))
  {
    var e' := e[id := LessCatalog(e[id])];
    Recounted(e, id, LessCatalog(e[id]));
    forall x | x in e'
      ensures CountsHold(cs, e', x)
    {
      assert CountsHold(cs, e, x);
    }
  }

  /** Binding an unbound context to a live prefix that serves it. */
  lemma BoundConsistent(cs: Contexts, cs': Contexts, c: ContextId, e: Entries, ix: Index, id: Id)
    requires Consistent(cs, e, ix, None)
    requires c in cs && Unbinds(cs', cs, c) && c in cs' && cs'[c].evaluated == Some(id)
    requires id in e && Matches(e[id].mapping, cs'[c])
    ensures Consistent(cs', e[id := MoreContexts(e[id])], ix, None)
  {
    var e' := e[id := MoreContexts(e[id])];
    Recounted(e, id, MoreContexts(e[id]));
    forall x | x in e'
      ensures CountsHold(cs', e', x)
    {
      assert CountsHold(cs, e, x);
      UnboundCounts(cs', cs, c, x);
    }
    forall x | x in cs'
      ensures BindingHolds(cs', e', x)
    {
      if x != c {
        assert x in cs' - {c} && x in cs - {c};
        assert (cs' - {c})[x] == (cs - {c})[x];
        assert BindingHolds(cs, e, x);
      }
    }
  }

  /** A context that keeps its binding may change in any way its bound prefix still serves. */
  lemma TouchedConsistent(cs: Contexts, cs': Contexts, c: ContextId, e: Entries, ix: Index)
    requires Consistent(cs, e, ix, None)
    requires c in cs' && cs' - {c} == cs - {c}
    requires cs'[c].evaluated == if c in cs then cs[c].evaluated else None
    requires forall id :: id in e && cs'[c].evaluated == Some(id) ==> Matches(e[id].mapping, cs'[c])
    ensures Consistent(cs', e, ix, None)
  {
    forall x | x != c
      ensures x in cs <==> x in cs'
      ensures x in cs ==> cs[x] == cs'[x]
    {
      assert x in cs - {c} <==> x in cs;
      assert x in cs' - {c} <==> x in cs';
      assert x in cs - {c} ==> (cs' - {c})[x] == (cs - {c})[x];
    }
    forall id | id in e
      ensures CountsHold(cs', e, id)
    {
      assert CountsHold(cs, e, id);
      assert BoundTo(cs', id) == BoundTo(cs, id);
    }
    forall x | x in cs'
      ensures BindingHolds(cs', e, x)
    {
      if x in cs {
        assert BindingHolds(cs, e, x);
      }
    }
  }

  /** The entries after a new prefix is published: its parent has one dependent more, it is catalogued. */
  function Inserted(e: Entries, m: EvaluatedPrefix): Entries {
    var e' :=
      if m.parent.Some? && m.parent.value in e
      then e[m.parent.value := MoreDependents(e[m.parent.value])] else e;
    e'[m.id := Entry(m, References(1, 0, 0))]
  }

  lemma InsertedForest(e: Entries, m: EvaluatedPrefix)
    requires Forest(Prefixes(e)) && m.id !in e && WellFormed(m) && ParentFits(Prefixes(e), m)
    ensures Prefixes(Inserted(e, m)) == Prefixes(e)[m.id := m]
    ensures Forest(Prefixes(Inserted(e, m)))
  {
    var (p, p') := (Prefixes(e), Prefixes(Inserted(e, m)));
    assert p' == p[m.id := m];
    forall x | x in p'
      ensures Fits(p', x)
    {
      assert x in p ==> Fits(p, x);
    }
  }

  lemma InsertedDependents(e: Entries, m: EvaluatedPrefix, x: Id)
    requires m.id !in e && x in e
    requires e[x].references.dependents == |ChildrenOf(e, x)|
    ensures Inserted(e, m)[x].references.dependents == |ChildrenOf(Inserted(e, m), x)|
  {
    var e' := Inserted(e, m);
    if m.parent == Some(x) {
      assert ChildrenOf(e', x) == ChildrenOf(e, x) + {m.id};
      CardinalityAdd(ChildrenOf(e, x), ChildrenOf(e', x), m.id);
    } else {
      assert ChildrenOf(e', x) == ChildrenOf(e, x);
    }
  }

  lemma InsertedChildless(e: Entries, m: EvaluatedPrefix)
    requires Forest(Prefixes(e)) && m.id !in e && ParentFits(Prefixes(e), m)
    ensures ChildrenOf(Inserted(e, m), m.id) == {}
  {
    forall y | y in e
      ensures e[y].mapping.parent != Some(m.id)
    {
      assert Fits(Prefixes(e), y);
    }
  }

  lemma InsertedCounted(cs: Contexts, e: Entries, m: EvaluatedPrefix)
    requires Forest(Prefixes(e)) && Counted(cs, e) && Bindings(cs, e)
    requires m.id !in e && ParentFits(Prefixes(e), m)
    ensures Counted(cs, Inserted(e, m))
  {
    InsertedChildless(e, m);
    forall c | c in cs
      ensures cs[c].evaluated != Some(m.id)
    {
      assert BindingHolds(cs, e, c);
    }
    assert BoundTo(cs, m.id) == {};
    forall x | x in Inserted(e, m)
      ensures CountsHold(cs, Inserted(e, m), x)
    {
      if x != m.id {
        assert CountsHold(cs, e, x);
        InsertedDependents(e, m, x);
      }
    }
  }

  lemma InsertedConsistent(cs: Contexts, e: Entries, ix: Index, m: EvaluatedPrefix)
    requires Consistent(cs, e, ix, None)
    requires m.id !in e && WellFormed(m) && ParentFits(Prefixes(e), m)
    ensures Consistent(cs, Inserted(e, m), WithIndexed(ix, m), None)
    ensures Prefixes(Inserted(e, m)) == Prefixes(e)[m.id := m]
  {
    InsertedForest(e, m);
    InsertedCounted(cs, e, m);
    InsertedIndexed(e, ix, m);
    InsertedKeeps(cs, e, m);
  }

  lemma InsertedIndexed(e: Entries, ix: Index, m: EvaluatedPrefix)
    requires Indexed(ix, e) && m.id !in e
    ensures Indexed(WithIndexed(ix, m), Inserted(e, m))
  {
    WithIndexedExact(ix, e, Inserted(e, m), m);
  }

  lemma InsertedKeeps(cs: Contexts, e: Entries, m: EvaluatedPrefix)
    requires Bindings(cs, e) && NoGarbage(e, None) && m.id !in e
    ensures Bindings(cs, Inserted(e, m)) && NoGarbage(Inserted(e, m), None)
  {
    forall c | c in cs
      ensures BindingHolds(cs, Inserted(e, m), c)
    {
      assert BindingHolds(cs, e, c);
    }
  }

  lemma InsertedCatalog(e: Entries, m: EvaluatedPrefix)
    requires m.id !in e
    ensures Catalog(Inserted(e, m)) == Catalog(e)[m.id := 1]
  {
  }

  lemma PublishedAlready(e: Entries, m: EvaluatedPrefix)
    requires m.id in e && e[m.id].mapping == m
    ensures Prefixes(e)[m.id := m] == Prefixes(e)
  {
  }
}
