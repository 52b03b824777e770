/**
 The mapped engine: requests share one executor, one context store and one cache of evaluated blocks.

 Everything a step calls that may fail for reasons outside this model is an input: `Faults` says which calls
 fail. The physical manager's answers are among them, so what is proved holds whatever it answers.
 */
module MappedEngine {
  import opened Options
  import opened TokenSequence
  import opened Snapshot
  import opened PrefixForest
  import opened StoreAccounting
  import opened ContextStore
  import opened Execution
  import opened EngineModel
  import opened HeldExecutor

  datatype Faults = Faults(
    check: bool,     // cancellation is seen before the step does anything
    tokenize: bool,  // the prompt cannot be tokenized
    read: bool,      // the spill file cannot be read
    prepare: bool,   // the physical manager refuses a transition or a transfer
    commit: bool,    // the physical manager refuses the commit
    capacity: bool,  // no device capacity for a completed block
    sampler: bool,   // sampler creation, sampling or rendering fails
    cancel: bool,    // the decode is cancelled
    late: bool)      // cancellation is seen after the decode

  const NO_FAULTS: Faults := Faults(false, false, false, false, false, false, false, false, false)

  // ---- publishing a block ----

  /** The context and the block that ends at `end`, with the prefix the block comes after. */
  ghost predicate NextBlock(cfg: Config, v: StoreView, context: ContextId, end: nat, parent: Option<Id>)
    requires cfg.blockSize > 0
  {
    && context in v.contexts && v.contexts[context].epochs == cfg.epochs
    && cfg.blockSize <= end <= |v.contexts[context].tokens| && end % cfg.blockSize == 0
    && CoversBlocks(cfg, v.published, parent, v.contexts[context].tokens[..end - cfg.blockSize])
  }

  ghost function ParentNode(v: StoreView, parent: Option<Id>): Option<EvaluatedPrefix> {
    if parent.Some? && parent.value in v.published then Some(v.published[parent.value]) else None
  }

  /** What preparing the next block gives. */
  ghost predicate PreparedBlock(cfg: Config, v: StoreView, context: ContextId, end: nat, parent: Option<Id>, p: Prepared)
    requires cfg.blockSize > 0
  {
    && NextBlock(cfg, v, context, end, parent)
    && p == Prepared(context, v.contexts[context].revision, v.contexts[context].evaluated,
                     Node(cfg, v.contexts[context].tokens[..end], ParentNode(v, parent)))
    && WellPrepared(cfg.ids, p.mapping)
    && ParentFits(v.published, p.mapping)
  }

  /** Prepares the next block; this never fails. */
  method PrepareBlock(cfg: Config, store: Store, context: ContextId, end: nat, parent: Option<Id>)
    returns (p: Prepared)
    requires cfg.blockSize > 0 && store.Valid() && store.ids == cfg.ids && StoreHolds(cfg, store.View())
    requires NextBlock(cfg, store.View(), context, end, parent)
    ensures PreparedBlock(cfg, store.View(), context, end, parent, p)
  {
    ghost var v := store.View();
    if parent.Some? {
      ParentServes(cfg, v, store.contexts[context], end, parent.value);
    }
    NodeOfContext(cfg, store.contexts[context], end, ParentNode(v, parent));
    var prepared := store.PreparePublication(context, end, parent, cfg.required, cfg.required, 0);
    return prepared.value;
  }

  /** Validation refuses a prepared block only when two digests collide. */
  lemma BlockRefusal(cfg: Config, v: StoreView, context: ContextId, end: nat, parent: Option<Id>, p: Prepared)
    requires cfg.blockSize > 0 && StoreHolds(cfg, v) && AllNamed(cfg.ids, v.published)
    requires PreparedBlock(cfg, v, context, end, parent, p)
    ensures Refusal(v, p).Some? ==> Refusal(v, p) == Some(IdentityConflict) && !DigestsDiffer(cfg.ids)
  {
    var tokens := v.contexts[context].tokens[..end];
    assert tokens[..end] == tokens;
    assert tokens[..end - cfg.blockSize] == v.contexts[context].tokens[..end - cfg.blockSize];
    if p.mapping.id in v.published && DigestsDiffer(cfg.ids) {
      BlockNamesItself(cfg, v.published, tokens, parent, p.mapping);
    }
  }

  /** `w` is `v` with the block published: everything that was published still is, and only this context
      changed, and of it only the binding. */
  ghost predicate BlockAdded(cfg: Config, v: StoreView, w: StoreView, context: ContextId, end: nat, p: Prepared)
    requires cfg.blockSize > 0
  {
    && context in v.contexts && end <= |v.contexts[context].tokens|
    && StoreHolds(cfg, w)
    && w.published == v.published[p.mapping.id := p.mapping]
    && CoversBlocks(cfg, w.published, Some(p.mapping.id), v.contexts[context].tokens[..end])
    && StoreGrows(v, w, Some(context))
    && context in w.contexts
    && w.contexts[context].tokens == v.contexts[context].tokens
    && w.contexts[context].epochs == v.contexts[context].epochs
    && w.contexts[context].evaluated == Some(p.mapping.id)
  }

  ghost function Bound(v: StoreView, p: Prepared): StoreView
    requires p.context in v.contexts
  {
    if v.contexts[p.context].evaluated == Some(p.mapping.id) then v else WithPublication(v, p)
  }

  lemma BlockBinds(cfg: Config, v: StoreView, context: ContextId, end: nat, parent: Option<Id>, p: Prepared)
    requires cfg.blockSize > 0 && StoreHolds(cfg, v)
    requires PreparedBlock(cfg, v, context, end, parent, p) && Refusal(v, p).None?
    ensures Forest(WithPublication(v, p).published) && !TargetLost(v, p)
    ensures Settled(WithPublication(v, p)) == WithPublication(v, p)
    ensures StoreHolds(cfg, WithPublication(v, p))
    ensures CoversBlocks(cfg, WithPublication(v, p).published, Some(p.mapping.id), v.contexts[context].tokens[..end])
    ensures p.mapping.id in v.published ==> WithPublication(v, p).published == v.published
  {
    var tokens := v.contexts[context].tokens[..end];
    assert tokens[..end - cfg.blockSize] == v.contexts[context].tokens[..end - cfg.blockSize];
    PublicationForest(v, p);
    StoreHoldsAfter(cfg, v, p, tokens, parent);
    CataloguedTarget(v, p);
    CataloguedSettles(WithPublication(v, p));
  }

  lemma BlockIsAdded(cfg: Config, v: StoreView, context: ContextId, end: nat, p: Prepared)
    requires cfg.blockSize > 0 && StoreHolds(cfg, v)
    requires p.context == context && context in v.contexts && end <= |v.contexts[context].tokens|
    requires p.mapping.id in v.published ==> v.published[p.mapping.id] == p.mapping
    requires v.contexts[context].evaluated == Some(p.mapping.id) ==> p.mapping.id in v.published
    requires StoreHolds(cfg, WithPublication(v, p))
    requires CoversBlocks(cfg, WithPublication(v, p).published, Some(p.mapping.id), v.contexts[context].tokens[..end])
    requires p.mapping.id in v.published ==> WithPublication(v, p).published == v.published
    ensures BlockAdded(cfg, v, Bound(v, p), context, end, p)
  {
  }

  /** Commits a prepared, validated block. The commit neither fails nor panics. */
  method CommitBlock(cfg: Config, store: Store, ghost context: ContextId, ghost end: nat, ghost parent: Option<Id>,
                     p: Prepared)
    requires cfg.blockSize > 0 && store.Valid() && store.ids == cfg.ids && StoreHolds(cfg, store.View())
    requires PreparedBlock(cfg, store.View(), context, end, parent, p) && Refusal(store.View(), p).None?
    modifies store
    ensures store.Valid()
    ensures BlockAdded(cfg, old(store.View()), store.View(), context, end, p)
  {
    assert BindingHolds(store.contexts, store.mappings, context);
    BlockBinds(cfg, store.View(), context, end, parent, p);
    BlockIsAdded(cfg, store.View(), context, end, p);
    var outcome := store.CommitPublication(p);
  }

  lemma PublicationForest(v: StoreView, p: Prepared)
    requires Forest(v.published) && p.context in v.contexts
    requires PrefixForest.WellFormed(p.mapping) && ParentFits(v.published, p.mapping)
    requires p.mapping.id in v.published ==> v.published[p.mapping.id] == p.mapping
    ensures Forest(WithPublication(v, p).published)
  {
    var q := WithPublication(v, p).published;
    forall id | id in q
      ensures Fits(q, id)
    {
      assert id in v.published ==> Fits(v.published, id);
    }
  }

  datatype SpillResult = SpillDone | SpillSkipped | SpillFailed

  lemma MovedOnly(a: Shared, b: Shared, context: ContextId)
    requires RequestsKept(a, b, None) && b.store == a.store
    ensures Undisturbed(a, b, None, Some(context))
  {
  }

  lemma StoreStays(a: Shared, b: Shared, d: Shared)
    requires Undisturbed(a, b, None, None) && RequestsKept(b, d, None) && d.store == b.store
    ensures Undisturbed(a, d, None, None)
  {
    UndisturbedFacts(a, b, None, None);
    RequestsKeptTransitive(a, b, d, None);
    StoreGrowsTransitive(a.store, b.store, d.store, None);
  }

  /** Exactly the entries in `gone` have lost their mapping. */
  ghost predicate SpilledOut(before: Residents, after: Residents, gone: set<Id>) {
    && after.Keys == before.Keys
    && forall id {:trigger EntryLeft(before, after, gone, id)} :: id in before ==> EntryLeft(before, after, gone, id)
  }

  ghost predicate EntryLeft(before: Residents, after: Residents, gone: set<Id>, id: Id)
    requires id in before && id in after
  {
    if id in gone then after[id].native.None? else after[id] == before[id]
  }

  lemma OneMoreLeft(before: Residents, between: Residents, after: Residents, gone: set<Id>, id: Id)
    requires SpilledOut(before, between, gone) && id in between && id in after
    requires after - {id} == between - {id}
    ensures after[id].native.None? ==> SpilledOut(before, after, gone + {id})
  {
    assert after.Keys == (after - {id}).Keys + {id} && between.Keys == (between - {id}).Keys + {id};
    forall x | x in before && x != id
      ensures x in gone + {id} <==> x in gone
      ensures EntryLeft(before, after, gone, x)
    {
      assert EntryLeft(before, between, gone, x);
      assert after[x] == (after - {id})[x] == (between - {id})[x] == between[x];
    }
    if after[id].native.None? {
      forall x | x in before
        ensures EntryLeft(before, after, gone + {id}, x)
      {
        assert x != id ==> EntryLeft(before, after, gone, x);
      }
    }
  }

  /** An entry whose mapping is not in the slot. */
  predicate Inactive(rs: Residents, active: Mapping, id: Id) {
    id in rs && rs[id].native.Some? && rs[id].native.value != active
  }

  function Candidates(rs: Residents, active: Mapping): set<Id> {
    set id | id in rs && Inactive(rs, active, id)
  }

  ghost predicate OneSpilling(before: Residents, active: Mapping, gone: set<Id>, left: set<Id>, id: Id) {
    (id in gone ==> Inactive(before, active, id)) && (id in left ==> Inactive(before, active, id) && id !in gone)
  }

  /** `spilled` of what was not in the slot have gone, `left` are still to come. */
  ghost predicate Spilling(before: Residents, active: Mapping, after: Residents, gone: set<Id>, left: set<Id>,
                           spilled: nat)
  {
    && SpilledOut(before, after, gone)
    && (forall n: nat {:trigger Counts(gone, n)} :: n == spilled ==> Counts(gone, n))
    && forall id: Id {:trigger OneSpilling(before, active, gone, left, id)} :: OneSpilling(before, active, gone, left, id)
  }

  predicate Counts(s: set<Id>, n: nat) {
    |s| == n
  }

  lemma SpillingNext(before: Residents, active: Mapping, after: Residents, gone: set<Id>, left: set<Id>, spilled: nat,
                     id: Id)
    requires Spilling(before, active, after, gone, left, spilled) && id in left
    ensures Inactive(after, active, id)
  {
    assert OneSpilling(before, active, gone, left, id) && EntryLeft(before, after, gone, id);
  }

  lemma SpillingStep(before: Residents, active: Mapping, between: Residents, after: Residents, gone: set<Id>,
                     left: set<Id>, spilled: nat, id: Id)
    requires Spilling(before, active, between, gone, left, spilled) && id in left && id in between && id in after
    requires after - {id} == between - {id}
    ensures after[id].native.None? ==> Spilling(before, active, after, gone + {id}, left - {id}, spilled + 1)
    ensures after == between ==> Spilling(before, active, after, gone, left - {id}, spilled)
  {
    assert Counts(gone, spilled) && OneSpilling(before, active, gone, left, id);
    OneMoreLeft(before, between, after, gone, id);
    forall x: Id
      ensures OneSpilling(before, active, gone + {id}, left - {id}, x)
      ensures OneSpilling(before, active, gone, left - {id}, x)
    {
      assert OneSpilling(before, active, gone, left, x);
    }
  }

  lemma SpillingEnds(before: Residents, active: Mapping, after: Residents, gone: set<Id>, left: set<Id>, spilled: nat)
    requires Spilling(before, active, after, gone, left, spilled)
    ensures spilled == |gone| && forall id :: id in gone ==> Inactive(before, active, id)
  {
    assert Counts(gone, spilled);
    forall id | id in gone
      ensures Inactive(before, active, id)
    {
      assert OneSpilling(before, active, gone, left, id);
    }
  }

  /** The tokens of an entry do not fit beside what is spilled already. */
  ghost predicate TooLarge(p: Published, spilled: nat, capacity: nat, id: Id) {
    id in p && spilled + TOKEN_BYTES * |p[id].sequence| > capacity
  }

  /** Of what was not in the slot, all but `left` has gone or does not fit. */
  ghost predicate Decided(before: Residents, active: Mapping, p: Published, gone: set<Id>, left: set<Id>, spilled: nat,
                          capacity: nat)
  {
    forall id {:trigger Inactive(before, active, id)} ::
      Inactive(before, active, id) && id !in gone && id !in left ==> TooLarge(p, spilled, capacity, id)
  }

  lemma OneMoreDecided(before: Residents, active: Mapping, p: Published, gone: set<Id>, left: set<Id>, a: nat, b: nat,
                       capacity: nat, id: Id)
    requires Decided(before, active, p, gone, left, a, capacity) && a <= b && id in left
    ensures Decided(before, active, p, gone + {id}, left - {id}, b, capacity)
    ensures TooLarge(p, a, capacity, id) ==> Decided(before, active, p, gone, left - {id}, b, capacity)
  {
  }

  /** The root always is; a prefix only if the physical manager lets it through, and from a file only if it can be read. */
  predicate Reachable(rs: Residents, prefix: Option<Id>, faults: Faults) {
    prefix.Some? && prefix.value in rs ==>
      !faults.prepare && !faults.commit && (rs[prefix.value].native.Some? || !faults.read)
  }

  class Engine {
    const cfg: Config
    const native: Handles
    const store: Store
    const spillCapacity: Option<nat>
    var resident: Residents
    var files: Files
    var spillBytes: nat

    ghost function State(): Shared
      requires native.Valid()
      reads this, native, native.exec, store
    {
      Shared(native.View(), store.View(), resident, files, native.owners)
    }

    ghost predicate Valid()
      reads this, native, native.exec, store
    {
      && cfg.blockSize > 0
      && native.Valid() && native.exec.model == cfg.model
      && store.ids == cfg.ids && resident.Keys == State().store.published.Keys
      && (forall sh: Shared {:trigger Rest(sh)} :: sh == State() ==> Rest(sh))
    }

    /** The part of `Valid` that only the engine itself looks into. */
    ghost predicate Rest(sh: Shared)
      requires cfg.blockSize > 0
      reads this, native, native.exec, store
    {
      store.Valid() && Sound(cfg, sh) && SpillsCounted(resident, spillCapacity, spillBytes)
    }

    constructor (cfg: Config, spillCapacity: Option<nat>)
      requires cfg.blockSize > 0
      ensures Valid()
      ensures this.cfg == cfg && this.spillCapacity == spillCapacity
      ensures fresh(native) && fresh(native.exec) && fresh(store)
      ensures native.owners == map[0 := Root] && State().store == StoreView(0, map[], map[], map[])
    {
      this.cfg := cfg;
      this.spillCapacity := spillCapacity;
      native := new Handles(cfg.model);
      store := new Store(cfg.ids);
      resident := map[];
      files := map[];
      spillBytes := 0;
      NoneSpilled(spillCapacity);
    }

    // ---- the executor ----

    /** Only executor and owners moved; root and cache keep what they hold, and so do all requests but `mine`. */
    ghost predicate Moved(before: Shared, mine: Option<nat>)
      requires native.Valid()
      reads this, native, native.exec, store
    {
      && State() == before.(exec := State().exec, owners := State().owners)
      && CacheKept(before, State()) && RequestsKept(before, State(), mine)
    }

    /** Where a failed publication and the end of a request go back to: the parent's mapping, else `otherwise`. */
    function Fallback(parent: Option<Id>, otherwise: Mapping): Mapping
      reads this
    {
      if parent.Some? && parent.value in resident && resident[parent.value].native.Some?
      then resident[parent.value].native.value
      else otherwise
    }

    /** The parent's content is in some mapping, not in a file. */
    predicate InTheCache(parent: Option<Id>)
      reads this
    {
      parent.Some? && parent.value in resident && resident[parent.value].native.Some?
    }

    lemma FallbackHeld(parent: Option<Id>, otherwise: Mapping)
      requires Valid()
      ensures Fallback(parent, otherwise) in native.owners || Fallback(parent, otherwise) == otherwise
      ensures 0 in native.owners
      ensures if InTheCache(parent)
              then Fallback(parent, otherwise) in State().exec.mappings
                   && State().exec.mappings[Fallback(parent, otherwise)].content
                      == State().store.published[parent.value].sequence
              else Fallback(parent, otherwise) == otherwise
    {
      assert Rest(State());
      if parent.Some? && parent.value in resident {
        assert ResidentHolds(cfg, State(), parent.value);
      }
    }

    /** Gives up an attempt: the slot goes to `target`, the local handle is dropped. */
    method Abandon(target: Mapping, handle: Mapping)
      requires Valid()
      requires target in native.owners || target == native.exec.activeMapping
      requires handle in native.owners && native.owners[handle] == Local
      modifies native, native.exec
      ensures Valid() && Moved(old(State()), None) && State().exec.active == target
      ensures native.owners == old(native.owners) - {handle}
    {
      assert Rest(State());
      native.Leave(target, handle);
      SoundMoved(cfg, old(State()), State(), {handle}, None);
    }

    // ---- publication ----

    /** Everything that can go wrong with a publication, in the order of the program: no capacity, a refused
        publication, a refusal of the physical manager. `target` is where the slot goes if it does go wrong: only the
        physical manager's refusals send it back to the parent. */
    method DecideBlock(context: ContextId, end: nat, parent: Option<Id>, faults: Faults)
      returns (p: Option<Prepared>, target: Mapping)
      requires Valid() && NextBlock(cfg, State().store, context, end, parent)
      ensures target in native.owners || target == native.exec.activeMapping
      ensures p.Some? ==>
                PreparedBlock(cfg, State().store, context, end, parent, p.value) && Refusal(State().store, p.value).None?
      ensures p.None? ==> faults.capacity || faults.prepare || faults.commit || !DigestsDiffer(cfg.ids)
      ensures p.Some? ==> !faults.capacity && !faults.prepare && !faults.commit
      ensures p.None? && (faults.capacity || DigestsDiffer(cfg.ids)) ==>
                target == GoesBackTo(parent, faults, native.exec.activeMapping)
    {
      assert Rest(State());
      target := native.exec.activeMapping;
      if faults.capacity {
        return None, target;
      }
      var prepared := PrepareBlock(cfg, store, context, end, parent);
      BlockRefusal(cfg, store.View(), context, end, parent, prepared);
      var refused := store.ValidatePublication(prepared);
      if refused.Some? {
        return None, target;
      }
      if faults.prepare || faults.commit {
        FallbackHeld(parent, target);
        return None, Fallback(parent, target);
      }
      return Some(prepared), target;
    }

    /** Where the slot is after a failed publication that was in order. */
    function GoesBackTo(parent: Option<Id>, faults: Faults, active: Mapping): Mapping
      reads this
    {
      if faults.capacity then active else Fallback(parent, active)
    }

    /** Publishes the block that the request has just completed. `fork` is the request's snapshot of itself. The
        engine's own state changes only if everything succeeds; the one refusal that is not a fault is a digest
        collision. */
    method PublishBlock(context: ContextId, end: nat, parent: Option<Id>, fork: Mapping, continuation: Logits,
                        faults: Faults) returns (id: Option<Id>)
      requires Valid() && NextBlock(cfg, State().store, context, end, parent)
      requires fork in native.owners && native.owners[fork] == Local && fork in State().exec.mappings
      requires State().exec.mappings[fork].content == store.contexts[context].tokens[..end]
      requires State().exec.mappings[fork].position == end
      requires continuation == cfg.model(store.contexts[context].tokens[..end])
      modifies this`resident, native, native.exec, store
      ensures Valid()
      ensures Undisturbed(old(State()), State(), None, Some(context))
      ensures id.None? ==> Moved(old(State()), None) && native.owners == old(native.owners) - {fork}
      ensures id.None? ==> faults.capacity || faults.prepare || faults.commit || !DigestsDiffer(cfg.ids)
      ensures id.Some? ==> !faults.capacity && !faults.prepare && !faults.commit
      ensures id.Some? ==> native.exec.activeMapping == old(native.exec.activeMapping)
      ensures id.None? && (faults.capacity || DigestsDiffer(cfg.ids)) ==>
                State().exec.active == old(GoesBackTo(parent, faults, native.exec.activeMapping))
      ensures id.Some? ==>
                && context in State().store.contexts
                && State().store.contexts[context].tokens == old(State()).store.contexts[context].tokens
                && State().store.contexts[context].epochs == cfg.epochs
                && State().store.contexts[context].evaluated == id
                && CoversBlocks(cfg, State().store.published, id, old(State()).store.contexts[context].tokens[..end])
    {
      var p, target := DecideBlock(context, end, parent, faults);
      if p.None? {
        Abandon(target, fork);
        MovedOnly(old(State()), State(), context);
        return None;
      }
      InstallBlock(context, end, parent, p.value, fork, continuation);
      return Some(p.value.mapping.id);
    }

    /** The successful publication: the store commits, which cannot fail any more, and the cache follows. */
    method InstallBlock(ghost context: ContextId, ghost end: nat, ghost parent: Option<Id>, p: Prepared,
                        fork: Mapping, continuation: Logits)
      requires Valid()
      requires PreparedBlock(cfg, State().store, context, end, parent, p) && Refusal(State().store, p).None?
      requires fork in native.owners && native.owners[fork] == Local && fork in State().exec.mappings
      requires State().exec.mappings[fork].content == store.contexts[context].tokens[..end]
      requires State().exec.mappings[fork].position == end
      requires continuation == cfg.model(store.contexts[context].tokens[..end])
      modifies this`resident, native, native.exec, store
      ensures Valid()
      ensures Undisturbed(old(State()), State(), None, Some(context))
      ensures BlockAdded(cfg, old(State()).store, State().store, context, end, p)
      ensures native.exec.activeMapping == old(native.exec.activeMapping)
    {
      assert Rest(State());
      assert store.contexts[context].tokens[..end][..end] == store.contexts[context].tokens[..end];
      CommitBlock(cfg, store, context, end, parent, p);
      AdmitBlock(old(State()), p.mapping, fork, continuation);
    }

    /** The cache's part of a publication: a new block takes the fork, a known one drops it. */
    method AdmitBlock(ghost before: Shared, m: EvaluatedPrefix, fork: Mapping, continuation: Logits)
      requires cfg.blockSize > 0
      requires native.Valid() && native.exec.model == cfg.model && store.Valid() && store.ids == cfg.ids
      requires Sound(cfg, before) && StoreHolds(cfg, store.View())
      requires State() == before.(store := State().store)
      requires State().store.published == before.store.published[m.id := m]
      requires m.id in before.store.published ==> before.store.published[m.id] == m
      requires fork in native.owners && native.owners[fork] == Local && fork in State().exec.mappings
      requires State().exec.mappings[fork].content == m.sequence
      requires State().exec.mappings[fork].position == |m.sequence|
      requires continuation == cfg.model(m.sequence)
      requires SpillsCounted(resident, spillCapacity, spillBytes)
      modifies this`resident, native, native.exec
      ensures Valid() && store.View() == old(store.View())
      ensures RequestsKept(before, State(), None) && native.exec.activeMapping == old(native.exec.activeMapping)
    {
      if m.id in resident {
        native.Drop(fork);
      } else {
        NewNotSpilled(resident, spillCapacity, spillBytes, m.id, Resident(Some(fork), None, continuation));
        resident := resident[m.id := Resident(Some(fork), None, continuation)];
        native.Give(fork, Cached(m.id));
      }
      KeepsOthers(before, State(), {fork}, None);
      SoundPublish(cfg, before, State(), m, fork);
    }

    // ---- activating a prefix ----

    /** Puts the content of `prefix`, or of the root, into the slot; a spilled prefix is restored first. Whatever
        fails, every entry of the cache still has its content. */
    method ActivatePrefix(prefix: Option<Id>, faults: Faults) returns (ok: bool)
      requires Valid() && (prefix.Some? ==> prefix.value in resident)
      modifies this`resident, this`files, this`spillBytes, native, native.exec
      ensures Valid() && store.View() == old(store.View())
      ensures RequestsKept(old(State()), State(), None)
      ensures LocalsKept(old(native.owners), native.owners)
      ensures ok ==> SlotHas(State(), if prefix.Some? then State().store.published[prefix.value].sequence else [])
      ensures !ok ==> native.exec.activeMapping == old(native.exec.activeMapping)
      ensures ok <==> Reachable(old(resident), prefix, faults)
    {
      assert Rest(State());
      if prefix.None? {
        native.Activate(0);
        SoundMoved(cfg, old(State()), State(), {}, None);
        return true;
      }
      assert ResidentHolds(cfg, State(), prefix.value);
      if resident[prefix.value].native.None? {
        ok := Restore(prefix.value, faults);
      } else {
        ok := ActivateResident(prefix.value, faults);
      }
    }

    method ActivateResident(id: Id, faults: Faults) returns (ok: bool)
      requires Valid() && id in resident && resident[id].native.Some?
      modifies native, native.exec
      ensures Valid() && store.View() == old(store.View())
      ensures RequestsKept(old(State()), State(), None) && native.owners == old(native.owners)
      ensures ok ==> SlotHas(State(), State().store.published[id].sequence)
      ensures ok <==> !faults.prepare && !faults.commit
      ensures !ok ==> native.exec.activeMapping == old(native.exec.activeMapping)
    {
      assert Rest(State());
      assert ResidentHolds(cfg, State(), id);
      if faults.prepare {
        NothingMoved(State(), None);
        return false;
      }
      native.Switch(resident[id].native.value, faults.commit);
      SoundMoved(cfg, old(State()), State(), {}, None);
      assert ResidentHolds(cfg, State(), id);
      return !faults.commit;
    }

    /** Reads the spill file, imports it and switches to it. Only a committed switch turns the entry resident and
        removes the file. */
    method Restore(id: Id, faults: Faults) returns (ok: bool)
      requires Valid() && id in resident && resident[id].native.None?
      modifies this`resident, this`files, this`spillBytes, native, native.exec
      ensures Valid() && store.View() == old(store.View())
      ensures RequestsKept(old(State()), State(), None)
      ensures LocalsKept(old(native.owners), native.owners)
      ensures ok ==> SlotHas(State(), State().store.published[id].sequence)
      ensures ok <==> !faults.read && !faults.prepare && !faults.commit
      ensures !ok ==> native.exec.activeMapping == old(native.exec.activeMapping) && resident == old(resident)
      ensures ok ==> id !in files && resident[id].spill.None? && resident[id].native.Some?
    {
      assert Rest(State());
      assert ResidentHolds(cfg, State(), id);
      if faults.read {
        NothingMoved(State(), None);
        return false;
      }
      var entry := resident[id];
      SnapshotRoundTrip(State().store.published[id].sequence);
      var imported := native.ImportAndSwitch(files[id], entry.spill.value.position, faults.prepare, faults.commit);
      if imported.None? {
        SoundMoved(cfg, old(State()), State(), {}, None);
        return false;
      }
      Adopt(old(State()), id, imported.value);
      return true;
    }

    /** The entry `id` takes the imported mapping. */
    method Adopt(ghost before: Shared, id: Id, m: Mapping)
      requires cfg.blockSize > 0 && Sound(cfg, before)
      requires native.Valid() && native.exec.model == cfg.model && store.Valid() && store.ids == cfg.ids
      requires State() == before.(exec := State().exec, owners := State().owners)
      requires Keeps(before.exec, before.owners, State().exec, State().owners, {})
      requires m !in before.owners && native.owners == before.owners[m := Local]
      requires id in resident && resident[id].native.None? && resident[id].spill.Some? && id in files
      requires SlotHas(State(), before.store.published[id].sequence) && State().exec.active == m
      requires SpillsCounted(resident, spillCapacity, spillBytes)
      modifies this`resident, this`files, this`spillBytes, native
      ensures Valid() && store.View() == old(store.View())
      ensures native.owners == before.owners[m := Cached(id)]
      ensures RequestsKept(before, State(), None)
      ensures SlotHas(State(), before.store.published[id].sequence)
      ensures id !in files && id in resident && resident[id].spill.None? && resident[id].native.Some?
    {
      TakeIn(id, m);
      files := files - {id};
      KeepsGiven(before.exec, before.owners, State().exec, m, Cached(id));
      native.Give(m, Cached(id));
      assert native.owners == before.owners[m := Cached(id)];
      SoundRestore(cfg, before, State(), id, m);
    }

    /** A spilled entry with a mapping again; its file no longer counts. */
    method TakeIn(id: Id, m: Mapping)
      requires SpillsCounted(resident, spillCapacity, spillBytes) && id in resident && resident[id].spill.Some?
      modifies this`resident, this`spillBytes
      ensures resident == old(resident)[id := Resident(Some(m), None, old(resident)[id].continuation)]
      ensures SpillsCounted(resident, spillCapacity, spillBytes)
      ensures spillBytes + old(resident)[id].spill.value.bytes == old(spillBytes)
    {
      var r := resident[id];
      OneMoreSpilled(resident, spillCapacity, spillBytes, id, Resident(Some(m), None, r.continuation));
      resident := resident[id := Resident(Some(m), None, r.continuation)];
      spillBytes := spillBytes - r.spill.value.bytes;
    }

    /** An entry without its mapping; its file counts from now on. */
    method PutOut(id: Id, size: nat, position: nat)
      requires SpillsCounted(resident, spillCapacity, spillBytes) && id in resident && resident[id].spill.None?
      requires spillCapacity.Some? && spillBytes + size <= spillCapacity.value
      modifies this`resident, this`spillBytes
      ensures resident == old(resident)[id := Resident(None, Some(Spilled(size, position)), old(resident)[id].continuation)]
      ensures SpillsCounted(resident, spillCapacity, spillBytes)
      ensures spillBytes == old(spillBytes) + size
    {
      var r := Resident(None, Some(Spilled(size, position)), resident[id].continuation);
      OneMoreSpilled(resident, spillCapacity, spillBytes, id, r);
      resident := resident[id := r];
      spillBytes := spillBytes + size;
    }

    // ---- spilling ----

    /** Spills one entry whose mapping is not in the slot: exports it, writes the file, and only when the physical
        manager has followed does the entry lose its mapping. An entry over the spill capacity stays. */
    method SpillEntry(id: Id, capacity: nat, writes: bool, demotes: bool) returns (result: SpillResult)
      requires Valid() && spillCapacity == Some(capacity) && Inactive(resident, native.exec.activeMapping, id)
      modifies this`resident, this`files, this`spillBytes, native, native.exec
      ensures Valid() && store.View() == old(store.View())
      ensures RequestsKept(old(State()), State(), None)
      ensures LocalsKept(old(native.owners), native.owners)
      ensures native.exec.activeMapping == old(native.exec.activeMapping)
      ensures resident - {id} == old(resident) - {id} && id in resident
      ensures result == SpillDone ==> resident[id].native.None?
      ensures result != SpillDone ==> resident == old(resident)
      ensures id in State().store.published
      ensures result == SpillSkipped <==>
                old(spillBytes) + TOKEN_BYTES * |State().store.published[id].sequence| > capacity
      ensures result == if TooLarge(State().store.published, old(spillBytes), capacity, id) then SpillSkipped
                        else if writes && demotes then SpillDone else SpillFailed
      ensures spillBytes >= old(spillBytes)
    {
      assert Rest(State());
      assert ResidentHolds(cfg, State(), id);
      var m := resident[id].native.value;
      var bytes, position := native.Export(m);
      if spillBytes + |bytes| > capacity {
        NothingMoved(State(), None);
        return SpillSkipped;
      }
      result := SpillOut(id, m, bytes, position, writes, demotes);
    }

    /** Writes the file of an entry and lets its mapping go, if nothing fails. */
    method SpillOut(id: Id, m: Mapping, bytes: seq<Byte>, position: nat, writes: bool, demotes: bool)
      returns (result: SpillResult)
      requires Valid() && id in resident && resident[id].native == Some(m)
      requires m in State().exec.mappings && bytes == Encode(State().exec.mappings[m].content)
      requires position == State().exec.mappings[m].position
      requires spillCapacity.Some? && spillBytes + |bytes| <= spillCapacity.value
      modifies this`resident, this`files, this`spillBytes, native, native.exec
      ensures Valid() && store.View() == old(store.View())
      ensures RequestsKept(old(State()), State(), None)
      ensures native.owners == if result == SpillDone then old(native.owners) - {m} else old(native.owners)
      ensures native.exec.activeMapping == old(native.exec.activeMapping)
      ensures resident - {id} == old(resident) - {id} && id in resident && spillBytes >= old(spillBytes)
      ensures if result == SpillDone then resident[id].native.None? else resident == old(resident)
      ensures result == if writes && demotes then SpillDone else SpillFailed
    {
      NothingMoved(State(), None);
      if !writes {
        return SpillFailed;
      }
      WriteSpill(id, bytes);
      if !demotes {
        return SpillFailed;
      }
      LoseMapping(id, m, |bytes|, position);
      return SpillDone;
    }

    /** The file of an entry that still has its mapping is nobody's truth. */
    method WriteSpill(id: Id, bytes: seq<Byte>)
      requires Valid() && id in resident && resident[id].native.Some?
      modifies this`files
      ensures Valid() && files == old(files)[id := bytes]
      ensures State() == old(State()).(files := files)
    {
      assert Rest(State());
      files := files[id := bytes];
      assert ResidentHolds(cfg, old(State()), id);
      KeepsSame(State().exec, native.owners, {});
      assert KeptAt(State().exec, native.owners, State().exec, native.owners, 0);
      SoundMove(cfg, old(State()), State(), id);
    }

    method LoseMapping(id: Id, m: Mapping, size: nat, position: nat)
      requires Valid() && id in resident && resident[id].native == Some(m)
      requires id in files && |files[id]| == size
      requires m in State().exec.mappings && files[id] == Encode(State().exec.mappings[m].content)
      requires position == State().exec.mappings[m].position
      requires spillCapacity.Some? && spillBytes + size <= spillCapacity.value
      modifies this`resident, this`spillBytes, native, native.exec
      ensures Valid() && store.View() == old(store.View())
      ensures RequestsKept(old(State()), State(), None)
      ensures native.owners == old(native.owners) - {m}
      ensures native.exec.activeMapping == old(native.exec.activeMapping)
      ensures id in resident && resident[id].native.None? && resident - {id} == old(resident) - {id}
      ensures spillBytes == old(spillBytes) + size
    {
      assert Rest(State());
      assert ResidentHolds(cfg, State(), id);
      PutOut(id, size, position);
      native.Drop(m);
      SoundLose(cfg, old(State()), State(), id, m);
    }

    /** Spills every entry that is not in the slot, in any order, until a write or a demotion fails. `gone` are those
        that lost their mapping; nothing else of the cache changes. If nothing fails, what is not in the slot and has
        kept its mapping does not fit any more. */
    method SpillInactive(writeFails: set<Id>, demoteFails: set<Id>)
      returns (spilled: nat, failed: bool, ghost gone: set<Id>)
      requires Valid()
      modifies this`resident, this`files, this`spillBytes, native, native.exec
      ensures Valid() && store.View() == old(store.View())
      ensures RequestsKept(old(State()), State(), None)
      ensures LocalsKept(old(native.owners), native.owners)
      ensures spillCapacity.None? ==> spilled == 0 && !failed && State() == old(State())
      ensures spilled == |gone| && forall id :: id in gone ==> Inactive(old(resident), old(native.exec.activeMapping), id)
      ensures SpilledOut(old(resident), resident, gone)
      ensures gone !! writeFails + demoteFails
      ensures failed ==> exists id :: id in writeFails + demoteFails && Inactive(old(resident), old(native.exec.activeMapping), id)
      ensures spillCapacity.Some? && !failed ==>
                forall id {:trigger Inactive(old(resident), old(native.exec.activeMapping), id)} ::
                  Inactive(old(resident), old(native.exec.activeMapping), id) && id !in gone ==>
                    && id in State().store.published
                    && spillBytes + TOKEN_BYTES * |State().store.published[id].sequence| > spillCapacity.value
    {
      spilled, failed, gone := 0, false, {};
      NothingMoved(State(), None);
      if spillCapacity.None? {
        return;
      }
      ghost var (entries, active, published) := (resident, native.exec.activeMapping, State().store.published);
      var candidates := Candidates(resident, native.exec.activeMapping);
      while candidates != {} && !failed
        invariant Valid() && store.View() == old(store.View())
        invariant RequestsKept(old(State()), State(), None)
        invariant LocalsKept(old(native.owners), native.owners)
        invariant native.exec.activeMapping == active
        invariant Spilling(entries, active, resident, gone, candidates, spilled)
        invariant gone !! writeFails + demoteFails
        invariant candidates <= Candidates(entries, active)
        invariant failed ==> exists id :: id in writeFails + demoteFails && Inactive(entries, active, id)
        invariant !failed ==> Decided(entries, active, published, gone, candidates, spillBytes, spillCapacity.value)
        decreases candidates
      {
        var id :| id in candidates;
        ghost var before := State();
        var result := SpillNext(entries, active, gone, candidates, spilled, id, id !in writeFails, id !in demoteFails);
        RequestsKeptTransitive(old(State()), before, State(), None);
        candidates := candidates - {id};
        if result == SpillDone {
          spilled := spilled + 1;
          gone := gone + {id};
        }
        failed := result == SpillFailed;
      }
      SpillingEnds(entries, active, resident, gone, candidates, spilled);
    }

    /** One of those that are left. */
    method SpillNext(ghost entries: Residents, ghost active: Mapping, ghost gone: set<Id>, ghost left: set<Id>,
                     ghost spilled: nat, id: Id, writes: bool, demotes: bool) returns (result: SpillResult)
      requires Valid() && spillCapacity.Some? && native.exec.activeMapping == active
      requires Spilling(entries, active, resident, gone, left, spilled) && id in left
      requires Decided(entries, active, State().store.published, gone, left, spillBytes, spillCapacity.value)
      modifies this`resident, this`files, this`spillBytes, native, native.exec
      ensures Valid() && store.View() == old(store.View())
      ensures RequestsKept(old(State()), State(), None)
      ensures LocalsKept(old(native.owners), native.owners) && native.exec.activeMapping == active
      ensures result == SpillDone ==> writes && demotes
      ensures result == SpillFailed ==> !writes || !demotes
      ensures var now := if result == SpillDone then gone + {id} else gone;
              && Spilling(entries, active, resident, now, left - {id}, if result == SpillDone then spilled + 1 else spilled)
              && (result != SpillFailed ==>
                    Decided(entries, active, State().store.published, now, left - {id}, spillBytes, spillCapacity.value))
    {
      ghost var (before, bytes) := (resident, spillBytes);
      SpillingNext(entries, active, resident, gone, left, spilled, id);
      result := SpillEntry(id, spillCapacity.value, writes, demotes);
      SpillingStep(entries, active, before, resident, gone, left, spilled, id);
      OneMoreDecided(entries, active, State().store.published, gone, left, bytes, spillBytes, spillCapacity.value, id);
    }

    // ---- what a request asks of the engine ----

    /** A logical context for the request's tokens, and the longest published prefix of them. */
    method OpenContext(tokens: seq<Token>) returns (c: ContextId, prefix: Option<EvaluatedPrefix>)
      requires Valid()
      modifies store
      ensures Valid()
      ensures State() == old(State()).(store := State().store)
      ensures Undisturbed(old(State()), State(), None, None)
      ensures c == old(State()).store.next && State().store.next == c + 1
      ensures c in State().store.contexts && State().store.contexts[c] == Context(tokens, cfg.epochs, None, 0)
      ensures State().store.published == old(State()).store.published
      ensures IsLongest(State().store.published, State().store.contexts[c], prefix)
      ensures prefix.Some? ==> prefix.value.id in resident
    {
      assert Rest(State());
      c := store.Create(tokens, cfg.epochs);
      SoundContexts(cfg, old(State()), State(), None);
      var found := store.LongestValidPrefix(c);
      prefix := found.value;
    }

    /** A branch of the slot for a request: forked, handed over and activated. */
    method BranchOff(ticket: nat) returns (m: Mapping)
      requires Valid() && SlotHas(State(), State().exec.mappings[State().exec.active].content)
      modifies native, native.exec
      ensures Valid() && store.View() == old(store.View())
      ensures RequestsKept(old(State()), State(), None)
      ensures m !in old(native.owners) && native.owners == old(native.owners)[m := Request(ticket)]
      ensures State().exec.active == m
      ensures SlotHas(State(), old(State()).exec.mappings[old(State()).exec.active].content)
    {
      assert Rest(State());
      m := native.Branch(Request(ticket));
      SoundMoved(cfg, old(State()), State(), {}, None);
    }

    /** Evaluates tokens on top of what the request's mapping holds. */
    method Evaluate(ticket: nat, m: Mapping, tokens: seq<Token>, cancelled: bool) returns (logits: Option<Logits>)
      requires Valid() && tokens != []
      requires m in native.owners && native.owners[m] == Request(ticket) && m in State().exec.mappings
      modifies native.exec
      ensures Valid() && store.View() == old(store.View())
      ensures RequestsKept(old(State()), State(), Some(ticket))
      ensures logits.None? <==> cancelled
      ensures logits.Some? ==>
                var content := old(State()).exec.mappings[m].content + tokens;
                && m in State().exec.mappings
                && State().exec.mappings[m].content == content
                && State().exec.mappings[m].position == |content|
                && logits == Some(cfg.model(content))
    {
      assert Rest(State());
      logits := native.DecodeOn(m, tokens, cancelled);
      SoundMoved(cfg, old(State()), State(), {m}, Some(ticket));
    }

    /** Makes the slot the request's own again. */
    method Resume(m: Mapping)
      requires Valid() && m in native.owners
      modifies native.exec
      ensures Valid() && store.View() == old(store.View())
      ensures RequestsKept(old(State()), State(), None)
    {
      assert Rest(State());
      native.Activate(m);
      SoundMoved(cfg, old(State()), State(), {}, None);
    }

    /** Records a sampled token in the request's context. */
    method AppendToken(c: ContextId, token: Token)
      requires Valid() && c in State().store.contexts
      modifies store
      ensures Valid()
      ensures State() == old(State()).(store := State().store)
      ensures Undisturbed(old(State()), State(), None, Some(c))
      ensures State().store.published == old(State()).store.published
      ensures c in State().store.contexts
      ensures State().store.contexts[c].tokens == old(State()).store.contexts[c].tokens + [token]
      ensures State().store.contexts[c].epochs == old(State()).store.contexts[c].epochs
    {
      assert Rest(State());
      var r := store.Append(c, [token]);
      SoundContexts(cfg, old(State()), State(), Some(c));
    }

    /** A completed block: snapshot of the request's mapping, then publication. */
    method CompleteBlock(m: Mapping, context: ContextId, end: nat, parent: Option<Id>, continuation: Logits,
                         faults: Faults) returns (id: Option<Id>)
      requires Valid() && NextBlock(cfg, State().store, context, end, parent)
      requires m in native.owners && m in State().exec.mappings
      requires State().exec.mappings[m].content == store.contexts[context].tokens[..end]
      requires State().exec.mappings[m].position == end
      requires continuation == cfg.model(store.contexts[context].tokens[..end])
      modifies this`resident, native, native.exec, store
      ensures Valid()
      ensures Undisturbed(old(State()), State(), None, Some(context))
      ensures id.None? ==> faults.capacity || faults.prepare || faults.commit || !DigestsDiffer(cfg.ids)
      ensures id.Some? ==> !faults.capacity && !faults.prepare && !faults.commit
      ensures id.Some? ==> native.exec.activeMapping == old(native.exec.activeMapping)
      ensures id.Some? ==>
                && context in State().store.contexts
                && State().store.contexts[context].tokens == old(State()).store.contexts[context].tokens
                && State().store.contexts[context].epochs == cfg.epochs
                && State().store.contexts[context].evaluated == id
                && CoversBlocks(cfg, State().store.published, id, old(State()).store.contexts[context].tokens[..end])
    {
      var fork := Snapshot(m);
      ghost var between := State();
      UndisturbedByNone(old(State()), between, None, Some(context));
      id := PublishBlock(context, end, parent, fork, continuation, faults);
      UndisturbedTransitive(old(State()), between, State(), None, Some(context));
    }

    method Snapshot(m: Mapping) returns (fork: Mapping)
      requires Valid() && m in native.owners && m in State().exec.mappings
      modifies native, native.exec
      ensures Valid() && store.View() == old(store.View())
      ensures Undisturbed(old(State()), State(), None, None)
      ensures native.exec.activeMapping == old(native.exec.activeMapping)
      ensures fork in native.owners && native.owners[fork] == Local && fork in State().exec.mappings
      ensures State().exec.mappings[fork].content == old(State()).exec.mappings[m].content
      ensures State().exec.mappings[fork].position == old(State()).exec.mappings[m].position
    {
      assert Rest(State());
      fork := native.Fork(m);
      SoundMoved(cfg, old(State()), State(), {}, None);
    }

    /** The end of a request: the slot goes to the parent's mapping if it has one, else to the root, or stays with what
        is active; the request's mapping is dropped. */
    method Retire(ticket: nat, m: Mapping, parent: Option<Id>, toRoot: bool)
      requires Valid() && m in native.owners && native.owners[m] == Request(ticket)
      modifies native, native.exec
      ensures Valid() && store.View() == old(store.View())
      ensures RequestsKept(old(State()), State(), Some(ticket))
      ensures native.owners == old(native.owners) - {m}
      ensures native.exec.activeMapping == Fallback(parent, if toRoot then 0 else old(native.exec.activeMapping))
      ensures !InTheCache(parent) ==> native.exec.activeMapping == if toRoot then 0 else old(native.exec.activeMapping)
      ensures InTheCache(parent) ==> SlotHas(State(), State().store.published[parent.value].sequence)
    {
      assert Rest(State());
      var target := Fallback(parent, if toRoot then 0 else native.exec.activeMapping);
      FallbackHeld(parent, if toRoot then 0 else native.exec.activeMapping);
      native.Leave(target, m);
      SoundMoved(cfg, old(State()), State(), {m}, Some(ticket));
      if InTheCache(parent) {
        CachedInSlot(cfg, State(), parent.value);
      }
    }

    /** What a request starts from: a context for its tokens, and a branch that holds its longest published
        prefix, of which `parent`, `cached` and `next` are id, length and saved logits. */
    method Begin(ticket: nat, tokens: seq<Token>, faults: Faults)
      returns (c: ContextId, m: Option<Mapping>, parent: Option<Id>, cached: nat, next: Option<Logits>)
      requires Valid()
      modifies this`resident, this`files, this`spillBytes, native, native.exec, store
      ensures Valid()
      ensures c == old(State()).store.next && c < State().store.next
      ensures Undisturbed(old(State()), State(), None, None)
      ensures cached <= |tokens|
      ensures m.Some? ==> BranchHolds(State(), ticket, m.value, tokens[..cached])
      ensures m.Some? <==> Reachable(old(resident), parent, faults)
      ensures c in State().store.contexts && State().store.contexts[c] == Context(tokens, cfg.epochs, None, 0)
      ensures CoversBlocks(cfg, State().store.published, parent, tokens[..cached])
      ensures IsLongestLength(State().store.published, State().store.contexts[c], cached)
      ensures next == if cached > 0 then Some(cfg.model(tokens[..cached])) else None
    {
      var prefix: Option<EvaluatedPrefix>;
      c, prefix := OpenContext(tokens);
      parent, cached, next := StartFrom(c, prefix);
      ghost var between := State();
      m := BranchFrom(ticket, parent, faults);
      StoreStays(old(State()), between, State());
    }

    /** Id, length and saved logits of the prefix that was found. */
    method StartFrom(ghost c: ContextId, prefix: Option<EvaluatedPrefix>)
      returns (parent: Option<Id>, cached: nat, next: Option<Logits>)
      requires Valid() && c in State().store.contexts
      requires IsLongest(State().store.published, State().store.contexts[c], prefix)
      ensures parent.Some? ==> parent.value in resident
      ensures cached <= |State().store.contexts[c].tokens|
      ensures cached == if parent.Some? then State().store.published[parent.value].end else 0
      ensures var tokens := State().store.contexts[c].tokens;
              && CoversBlocks(cfg, State().store.published, parent, tokens[..cached])
              && IsLongestLength(State().store.published, State().store.contexts[c], cached)
              && next == (if cached > 0 then Some(cfg.model(tokens[..cached])) else None)
              && (parent.Some? ==> State().store.published[parent.value].sequence == tokens[..cached])
    {
      assert Rest(State());
      parent, cached, next := None, 0, None;
      if prefix.Some? {
        LookupCovers(cfg, State().store.published, State().store.contexts[c], prefix.value);
        assert ResidentHolds(cfg, State(), prefix.value.id);
        parent, cached, next := Some(prefix.value.id), prefix.value.end, Some(resident[prefix.value.id].continuation);
      }
    }

    /** Activates a prefix and branches off it. */
    method BranchFrom(ticket: nat, prefix: Option<Id>, faults: Faults) returns (m: Option<Mapping>)
      requires Valid() && (prefix.Some? ==> prefix.value in resident)
      modifies this`resident, this`files, this`spillBytes, native, native.exec
      ensures Valid() && store.View() == old(store.View())
      ensures RequestsKept(old(State()), State(), None)
      ensures m.Some? ==>
                BranchHolds(State(), ticket, m.value,
                  if prefix.Some? then State().store.published[prefix.value].sequence else [])
      ensures m.Some? <==> Reachable(old(resident), prefix, faults)
    {
      var ok := ActivatePrefix(prefix, faults);
      if !ok {
        return None;
      }
      ghost var activated := State();
      var branch := BranchOff(ticket);
      RequestsKeptTransitive(old(State()), activated, State(), None);
      return Some(branch);
    }
  }
}
