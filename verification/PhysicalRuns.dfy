/**
 Runs of the physical manager: any operations in any order.

 Whatever happens to other transitions, a transition keeps what it is ready for until it is committed or aborted. And
 what is guarded stays within the device capacity as long as no transition ends; ending one may go beyond it.
 */
module PhysicalRuns {
  import opened Options
  import opened PrefixForest
  import opened Totals
  import opened PhysicalModel
  import opened Eviction
  import opened Readiness
  import opened PhysicalTransitions
  import opened Physical
  import opened PhysicalRecords

  datatype Op =
    | OpRegister(mapping: Id, component: Component, end: nat, bytes: nat, tier: Tier, reuseValue: nat)
    | OpReleaseReference(representation: RepId)
    | OpEvict(representation: RepId, tier: Tier)
    | OpDemoteToHost(representation: RepId)
    | OpDemoteToStorage(representation: RepId)
    | OpReserveGrowth(bytes: nat)
    | OpReleaseGrowth(growth: GrowthId)
    | OpReleaseBinding(context: ContextId)
    | OpPublishTable(context: ContextId, binding: BindingId, executorMapping: nat)
    | OpPrepare(context: ContextId, revision: nat, mapping: Id, end: nat, required: Mask, list: seq<RepId>,
                allowRecompute: bool)
    | OpCompleteTransfer(transfer: TransferId, success: bool)
    | OpCompleteRecompute(transition: TransitionId, representation: RepId)
    | OpCommit(transition: TransitionId, revision: nat)
    | OpCommitMapped(transition: TransitionId, revision: nat, executorMapping: nat)
    | OpAbort(transition: TransitionId)

  /** The transition that an operation ends, if it goes through. */
  function Ending(op: Op): set<TransitionId> {
    match op
    case OpCommit(t, _) => {t}
    case OpCommitMapped(t, _, _) => {t}
    case OpAbort(t) => {t}
    case _ => {}
  }

  /** The transfer that an operation completes, if it goes through. */
  function Completing(op: Op): set<TransferId> {
    match op
    case OpCompleteTransfer(x, _) => {x}
    case _ => {}
  }

  /** All transfers there were are there as before. */
  ghost predicate TransfersStay(a: map<TransferId, Transfer>, b: map<TransferId, Transfer>) {
    forall x :: x in a ==> x in b && b[x] == a[x]
  }

  ghost predicate FlightKept(a: World, b: World, t: TransitionId, x: TransferId) {
    t in a.transitions && x in a.transitions[t].transfers && x in a.transfers ==>
      x in b.transfers && b.transfers[x] == a.transfers[x]
  }

  /** The transfers of all transitions that do not end are as before, but for those that are completed. */
  ghost predicate FlightsKept(a: World, b: World, ended: set<TransitionId>, done: set<TransferId>) {
    forall t: TransitionId, x: TransferId {:trigger FlightKept(a, b, t, x)} ::
      t !in ended && x !in done ==> FlightKept(a, b, t, x)
  }

  /** What an operation does to transfers: it completes the one it is for, if it is accepted, and no other. */
  ghost predicate Carried(a: World, b: World, op: Op, accepted: bool) {
    && FlightsKept(a, b, Ending(op), Completing(op))
    && (op.OpCompleteTransfer? && op.transfer in a.transfers ==>
          if accepted && !a.transfers[op.transfer].completed
          then Recorded(a.transfers, b.transfers, op.transfer, op.success)
          else b.transfers == a.transfers)
  }

  lemma StayKept(a: World, b: World)
    requires TransfersStay(a.transfers, b.transfers)
    ensures FlightsKept(a, b, {}, {})
  {
  }

  /** Any operation keeps every transition that it does not end. */
  method Perform(m: PhysicalManager, op: Op) returns (accepted: bool)
    requires m.Valid()
    modifies m
    ensures m.Valid() && TransitionsKept(old(m.View()), m.View(), Ending(op))
    ensures Carried(old(m.View()), m.View(), op, accepted)
    ensures Ending(op) == {} && old(m.Guarded()) <= m.capacity.device ==> m.Guarded() <= m.capacity.device
  {
    if op.OpCompleteTransfer? {
      accepted := PerformTransfer(m, op);
    } else if Ending(op) == {} {
      PerformOpen(m, op);
      StayKept(old(m.View()), m.View());
      accepted := true;
    } else {
      PerformEnd(m, op);
      accepted := true;
    }
  }

  method PerformEnd(m: PhysicalManager, op: Op)
    requires m.Valid() && Ending(op) != {}
    modifies m
    ensures m.Valid() && TransitionsKept(old(m.View()), m.View(), Ending(op))
    ensures FlightsKept(old(m.View()), m.View(), Ending(op), {})
  {
    match op
    case OpCommit(_, _) => PerformCommit(m, op);
    case OpCommitMapped(_, _, _) => PerformCommitMapped(m, op);
    case OpAbort(_) => PerformAbort(m, op);
  }

  /** Operations that end no transition and no transfer. What is guarded fits the device if it did. */
  method PerformOpen(m: PhysicalManager, op: Op)
    requires m.Valid() && Ending(op) == {} && !op.OpCompleteTransfer?
    modifies m
    ensures m.Valid() && TransitionsKept(old(m.View()), m.View(), {})
    ensures TransfersStay(old(m.transfers), m.transfers)
    ensures old(m.Guarded()) <= m.capacity.device ==> m.Guarded() <= m.capacity.device
  {
    match op
    case OpRegister(_, _, _, _, _, _) => PerformRegister(m, op);
    case OpReserveGrowth(_) => PerformReserveGrowth(m, op);
    case OpReleaseGrowth(_) => PerformReleaseGrowth(m, op);
    case OpReleaseBinding(_) => PerformOnBinding(m, op);
    case OpPublishTable(_, _, _) => PerformOnBinding(m, op);
    case OpPrepare(_, _, _, _, _, _, _) => PerformPrepare(m, op);
    case OpCompleteRecompute(_, _) => PerformRecompute(m, op);
    case OpReleaseReference(_) => PerformOnRepresentation(m, op);
    case OpEvict(_, _) => PerformOnRepresentation(m, op);
    case OpDemoteToHost(_) => PerformOnRepresentation(m, op);
    case OpDemoteToStorage(_) => PerformOnRepresentation(m, op);
  }

  method PerformRegister(m: PhysicalManager, op: Op)
    requires m.Valid() && op.OpRegister?
    modifies m
    ensures m.Valid() && TransitionsKept(old(m.View()), m.View(), {})
    ensures m.transfers == old(m.transfers)
    ensures m.Guarded() == old(m.Guarded())
  {
    ghost var before := m.View();
    var r, victims := m.Register(op.mapping, op.component, op.end, op.bytes, op.tier, op.reuseValue);
    WithoutGuards(before, victims);
    if r.Success? {
      RegisteredGuards(before, victims, m.View(), m.representations[r.value]);
    }
  }

  method PerformOnRepresentation(m: PhysicalManager, op: Op)
    requires m.Valid() && (op.OpReleaseReference? || op.OpEvict? || op.OpDemoteToHost? || op.OpDemoteToStorage?)
    modifies m
    ensures m.Valid() && TransitionsKept(old(m.View()), m.View(), {})
    ensures m.transfers == old(m.transfers)
    ensures m.Guarded() == old(m.Guarded())
  {
    ghost var before := m.View();
    match op
    case OpReleaseReference(id) =>
      var refused := m.ReleaseLogicalReference(id);
      LessLogicalGuards(before, id);
    case OpEvict(id, tier) =>
      var refused := m.Evict(id, tier);
      MovedGuards(before, m.View(), id, refused);
    case OpDemoteToHost(id) =>
      var refused := m.DemoteToHost(id);
      MovedGuards(before, m.View(), id, refused);
    case OpDemoteToStorage(id) =>
      var refused := m.DemoteToStorage(id);
      MovedGuards(before, m.View(), id, refused);
  }

  method PerformReserveGrowth(m: PhysicalManager, op: Op)
    requires m.Valid() && op.OpReserveGrowth?
    modifies m
    ensures m.Valid() && TransitionsKept(old(m.View()), m.View(), {})
    ensures m.transfers == old(m.transfers)
    ensures old(m.Guarded()) <= m.capacity.device ==> m.Guarded() <= m.capacity.device
  {
    ghost var before := m.View();
    ghost var ok, victims := Grow(m, before, op.bytes);
    WithoutGuards(before, victims);
    if ok {
      GrownGuards(before, victims, m.View(), op.bytes);
    }
  }

  method Grow(m: PhysicalManager, ghost before: World, bytes: nat) returns (ghost ok: bool, ghost victims: set<RepId>)
    requires m.Valid() && m.View() == before
    modifies m
    ensures m.Valid() && TransitionsKept(before, m.View(), {})
    ensures RoomMade(before.representations, Guards(before), bytes, m.capacity.device, ok, victims)
    ensures m.View() ==
              if ok then before.(next := before.next + 1, growth := before.growth[before.next := bytes],
                                 representations := Without(before.representations, victims))
              else before.(representations := Without(before.representations, victims))
  {
    var r;
    r, victims := m.ReserveGrowth(bytes);
    ok := r.Success?;
  }

  method PerformReleaseGrowth(m: PhysicalManager, op: Op)
    requires m.Valid() && op.OpReleaseGrowth?
    modifies m
    ensures m.Valid() && TransitionsKept(old(m.View()), m.View(), {})
    ensures m.transfers == old(m.transfers)
    ensures m.Guarded() <= old(m.Guarded())
  {
    var refused := m.ReleaseGrowth(op.growth);
    ShrunkGuards(old(m.View()), op.growth);
  }

  method PerformOnBinding(m: PhysicalManager, op: Op)
    requires m.Valid() && (op.OpReleaseBinding? || op.OpPublishTable?)
    modifies m
    ensures m.Valid() && TransitionsKept(old(m.View()), m.View(), {})
    ensures m.transfers == old(m.transfers)
    ensures m.Guarded() <= old(m.Guarded())
  {
    ghost var before := m.View();
    match op
    case OpReleaseBinding(context) =>
      var refused := m.ReleaseBinding(context);
      ReleasedGuards(before, context);
    case OpPublishTable(context, binding, executorMapping) =>
      var r := m.PublishDeviceBlockTable(context, binding, executorMapping);
  }

  method PerformPrepare(m: PhysicalManager, op: Op)
    requires m.Valid() && op.OpPrepare?
    modifies m
    ensures m.Valid() && TransitionsKept(old(m.View()), m.View(), {})
    ensures TransfersStay(old(m.transfers), m.transfers)
    ensures old(m.Guarded()) <= m.capacity.device ==> m.Guarded() <= m.capacity.device
  {
    ghost var before := m.View();
    ghost var asked := Asked(m.representations, op.mapping, op.end, op.required, op.list, op.allowRecompute);
    var r, victims := m.PrepareTransition(op.context, op.revision, op.mapping, op.end, op.required, op.list,
                                          op.allowRecompute);
    WithoutGuards(before, victims);
    if r.Success? {
      CompositeWhole(before.representations, op.mapping, op.end, op.required, op.list);
      ReservingGuards(before, m.View(), victims, op.context, op.revision, op.mapping, op.list, asked.value, r.value);
      ReservingStays(before, m.View(), victims, op.context, op.revision, op.mapping, op.list, asked.value, r.value);
    }
  }

  method PerformTransfer(m: PhysicalManager, op: Op) returns (accepted: bool)
    requires m.Valid() && op.OpCompleteTransfer?
    modifies m
    ensures m.Valid() && TransitionsKept(old(m.View()), m.View(), {})
    ensures Carried(old(m.View()), m.View(), op, accepted)
    ensures m.Guarded() <= old(m.Guarded())
  {
    ghost var before := m.View();
    var (id, success) := (op.transfer, op.success);
    var refused, victims := m.CompleteTransfer(id, success);
    accepted := refused.None?;
    if id in before.transfers && !before.transfers[id].completed {
      ghost var moved := before.transfers[id].representation;
      PromotedGuards(before, moved, success && refused.None?, victims);
      if refused.None? {
        EndedGuards(before.(representations := Promoted(before.representations, moved, success, victims)), id, success);
      }
    }
    OneCarried(before, m.View(), op, accepted);
  }

  lemma OneCarried(a: World, b: World, op: Op, accepted: bool)
    requires op.OpCompleteTransfer?
    requires if op.transfer in a.transfers && accepted && !a.transfers[op.transfer].completed
             then Recorded(a.transfers, b.transfers, op.transfer, op.success)
             else b.transfers == a.transfers
    ensures Carried(a, b, op, accepted)
  {
    forall t: TransitionId, x: TransferId | x != op.transfer
      ensures FlightKept(a, b, t, x)
    {
      assert x in a.transfers ==> x in a.transfers - {op.transfer};
      assert x in b.transfers - {op.transfer} ==> (b.transfers - {op.transfer})[x] == b.transfers[x];
    }
  }

  method PerformRecompute(m: PhysicalManager, op: Op)
    requires m.Valid() && op.OpCompleteRecompute?
    modifies m
    ensures m.Valid() && TransitionsKept(old(m.View()), m.View(), {})
    ensures m.transfers == old(m.transfers)
    ensures m.Guarded() <= old(m.Guarded())
  {
    ghost var before := m.View();
    var (t, id) := (op.transition, op.representation);
    var refused, victims := m.CompleteRecompute(t, id);
    if t in before.transitions && before.transitions[t].kind == Recompute && id in before.transitions[t].representations {
      PromotedGuards(before, id, refused.None?, victims);
    }
  }

  method PerformCommit(m: PhysicalManager, op: Op)
    requires m.Valid() && op.OpCommit?
    modifies m
    ensures m.Valid() && TransitionsKept(old(m.View()), m.View(), {op.transition})
    ensures FlightsKept(old(m.View()), m.View(), {op.transition}, {})
  {
    ghost var before := m.View();
    SoundComplete(before, op.transition);
    RefusalExact(before, op.transition, op.revision);
    var r := m.CommitTransition(op.transition, op.revision);
    if CommitRefusal(before, op.transition, op.revision).None? {
      CommittedFlights(before, op.transition, m.clock);
    }
  }

  method PerformCommitMapped(m: PhysicalManager, op: Op)
    requires m.Valid() && op.OpCommitMapped?
    modifies m
    ensures m.Valid() && TransitionsKept(old(m.View()), m.View(), {op.transition})
    ensures FlightsKept(old(m.View()), m.View(), {op.transition}, {})
  {
    ghost var before := m.View();
    SoundComplete(before, op.transition);
    var r := m.CommitMappedTransition(op.transition, op.revision, op.executorMapping);
    if CommitRefusal(before, op.transition, op.revision).None? {
      MappedFlights(before, op.transition, m.clock, op.executorMapping);
    }
  }

  method PerformAbort(m: PhysicalManager, op: Op)
    requires m.Valid() && op.OpAbort?
    modifies m
    ensures m.Valid() && TransitionsKept(old(m.View()), m.View(), {op.transition})
    ensures FlightsKept(old(m.View()), m.View(), {op.transition}, {})
  {
    ghost var before := m.View();
    var refused := m.AbortTransition(op.transition);
    if op.transition in before.transitions {
      ClosedFlights(before, op.transition);
    }
  }

  lemma ClosedFlights(w: World, u: TransitionId)
    requires Sound(w) && u in w.transitions
    ensures FlightsKept(w, Closed(w, u), {u}, {})
  {
    assert TransitionHolds(w, u);
    forall t: TransitionId, x: TransferId | t != u
      ensures FlightKept(w, Closed(w, u), t, x)
    {
      assert TransitionHolds(w, t);
    }
  }

  lemma CommittedFlights(w: World, u: TransitionId, clock: nat)
    requires Sound(w) && Committable(w, u)
    ensures FlightsKept(w, Committed(w, u, clock), {u}, {})
  {
    ClosedFlights(w, u);
    SameFlights(w, Closed(w, u), Committed(w, u, clock), {u});
  }

  lemma MappedFlights(w: World, u: TransitionId, clock: nat, executorMapping: nat)
    requires Sound(w) && Committable(w, u)
    ensures FlightsKept(w, MappedCommit(w, u, clock, executorMapping), {u}, {})
  {
    ClosedFlights(w, u);
    LaterSound(w, u);
    CommittedSound(Later(w), u, clock);
    SameFlights(w, Closed(w, u), MappedCommit(w, u, clock, executorMapping), {u});
  }

  lemma SameFlights(a: World, b: World, c: World, ended: set<TransitionId>)
    requires FlightsKept(a, b, ended, {}) && c.transfers == b.transfers
    ensures FlightsKept(a, c, ended, {})
  {
    forall t: TransitionId, x: TransferId | t !in ended
      ensures FlightKept(a, c, t, x)
    {
      assert FlightKept(a, b, t, x);
    }
  }

  lemma {:induction false} TakenOnStays(w: World, t: TransitionId, list: seq<RepId>)
    requires Sound(w) && t in w.transitions
    requires w.transitions[t].representations == [] && w.transitions[t].transfers == []
    requires Composite(w.representations, w.transitions[t].mapping, list)
    ensures TransfersStay(w.transfers, TakenOnAll(w, t, list).transfers)
  {
    if list != [] {
      var most, last := list[..|list| - 1], list[|list| - 1];
      assert most + [last] == list;
      NotYet(w.representations, w.transitions[t].mapping, most, last);
      TakenOnStays(w, t, most);
      TookOnAll(w, t, most);
      var u := TakenOnAll(w, t, most);
      assert TransferHolds(u, u.next);
    }
  }

  lemma ReservingStays(a: World, b: World, victims: set<RepId>, context: ContextId, revision: nat, mapping: Id,
                       list: seq<RepId>, demand: Demand, p: PreparedTransition)
    requires Sound(a) && forall v :: v in victims ==> Evictable(a.representations, v)
    requires Composite(a.representations, mapping, list)
    requires Reserving(a, b, victims, context, revision, mapping, list, demand, p)
    ensures TransfersStay(a.transfers, b.transfers)
  {
    var w := a.(representations := Without(a.representations, victims));
    var transition := Transition(context, revision, mapping, [], [], demand.bytes, p.kind);
    LeftSound(a, victims);
    WithoutComposite(a.representations, victims, mapping, list);
    OpenedSound(w, transition);
    TakenOnStays(Opened(w, transition), w.next, list);
  }

  /** Progress over runs: through any operations that do not end it, a transition that could be committed still can be,
      at its revision, and one that is provided for still is. */
  method Run(m: PhysicalManager, ops: seq<Op>, ghost t: TransitionId)
    requires m.Valid() && forall op :: op in ops ==> t !in Ending(op)
    modifies m
    ensures m.Valid()
    ensures old(Committable(m.View(), t)) ==> Committable(m.View(), t)
    ensures old(Committable(m.View(), t)) ==>
              && m.transitions[t] == old(m.transitions[t])
              && Complete(m.View(), t) && CommitRefusal(m.View(), t, m.transitions[t].revision).None?
    ensures old(Provided(m.View(), t)) ==> Provided(m.View(), t)
  {
    KeptItself(m.View(), t);
    for i := 0 to |ops|
      invariant m.Valid() && TransitionKept(old(m.View()), m.View(), t)
    {
      ghost var between := m.View();
      var accepted := Perform(m, ops[i]);
      KeptFurther(old(m.View()), between, m.View(), Ending(ops[i]), t);
    }
    RunKeeps(old(m.View()), m.View(), t);
  }

  predicate NeverFails(ops: seq<Op>, x: TransferId) {
    forall i :: 0 <= i < |ops| ==> ops[i] != OpCompleteTransfer(x, false)
  }

  /** Among the operations so far, one completed `x` with success and was accepted. */
  predicate Landed(ops: seq<Op>, accepted: seq<bool>, x: TransferId) {
    exists i :: 0 <= i < |accepted| && i < |ops| && ops[i] == OpCompleteTransfer(x, true) && accepted[i]
  }

  /** Never failed, and completed if it was before or has landed since. */
  predicate OnItsWay(a: map<TransferId, Transfer>, b: map<TransferId, Transfer>, ops: seq<Op>, accepted: seq<bool>,
                     x: TransferId)
  {
    x in a ==>
      && x in b && !b[x].detached && (b[x].completed ==> b[x].success)
      && (a[x].completed || Landed(ops, accepted, x) ==> b[x].completed)
  }

  ghost predicate AllOnTheirWay(a: map<TransferId, Transfer>, b: map<TransferId, Transfer>, ops: seq<Op>,
                                accepted: seq<bool>, list: seq<TransferId>)
  {
    forall x {:trigger OnItsWay(a, b, ops, accepted, x)} :: x in list ==> OnItsWay(a, b, ops, accepted, x)
  }

  lemma OneFurther(a: World, u: World, v: World, ops: seq<Op>, accepted: seq<bool>, ok: bool, t: TransitionId)
    requires t in a.transitions && TransitionKept(a, u, t)
    requires |accepted| < |ops| && t !in Ending(ops[|accepted|]) && Carried(u, v, ops[|accepted|], ok)
    requires forall x :: x in a.transitions[t].transfers ==> NeverFails(ops, x)
    requires AllOnTheirWay(a.transfers, u.transfers, ops, accepted, a.transitions[t].transfers)
    ensures AllOnTheirWay(a.transfers, v.transfers, ops, accepted + [ok], a.transitions[t].transfers)
  {
    var op := ops[|accepted|];
    forall x | x in a.transitions[t].transfers
      ensures OnItsWay(a.transfers, v.transfers, ops, accepted + [ok], x)
    {
      assert OnItsWay(a.transfers, u.transfers, ops, accepted, x);
      LandedMore(ops, accepted, ok, x);
      assert op != OpCompleteTransfer(x, false);
      if x !in Completing(op) {
        assert FlightKept(u, v, t, x);
      }
    }
  }

  lemma LandedMore(ops: seq<Op>, accepted: seq<bool>, ok: bool, x: TransferId)
    requires |accepted| < |ops|
    ensures Landed(ops, accepted + [ok], x) <==>
              Landed(ops, accepted, x) || (ops[|accepted|] == OpCompleteTransfer(x, true) && ok)
  {
    var n := |accepted|;
    if Landed(ops, accepted, x) {
      var i :| 0 <= i < |accepted| && i < |ops| && ops[i] == OpCompleteTransfer(x, true) && accepted[i];
      assert (accepted + [ok])[i];
    }
    if ops[n] == OpCompleteTransfer(x, true) && ok {
      assert (accepted + [ok])[n];
    }
  }

  lemma StartOnTheirWay(w: World, t: TransitionId, ops: seq<Op>)
    requires Sound(w) && t in w.transitions
    requires forall x :: x in w.transitions[t].transfers && x in w.transfers && w.transfers[x].completed ==>
               w.transfers[x].success
    ensures AllOnTheirWay(w.transfers, w.transfers, ops, [], w.transitions[t].transfers)
  {
    assert TransitionHolds(w, t);
    forall x | x in w.transitions[t].transfers
      ensures OnItsWay(w.transfers, w.transfers, ops, [], x)
    {
      assert TransferHolds(w, x);
    }
  }

  lemma AllLanded(a: World, b: World, ops: seq<Op>, accepted: seq<bool>, t: TransitionId)
    requires Sound(a) && Sound(b) && Provided(a, t) && TransitionKept(a, b, t)
    requires AllOnTheirWay(a.transfers, b.transfers, ops, accepted, a.transitions[t].transfers)
    requires forall x :: x in a.transitions[t].transfers && x in a.transfers ==>
               a.transfers[x].completed || Landed(ops, accepted, x)
    ensures Committable(b, t) && b.transitions[t] == a.transitions[t]
  {
    StaysProvided(a, b, t);
    NothingDangles(a);
    forall x | x in b.transitions[t].transfers && x in b.transfers
      ensures b.transfers[x].completed && b.transfers[x].success
    {
      assert OnItsWay(a.transfers, b.transfers, ops, accepted, x);
    }
    ProvidedCommits(b, t);
  }

  /** Any operations that do not end the transition `t`, and which of them were accepted. */
  method RunFor(m: PhysicalManager, ops: seq<Op>, ghost t: TransitionId) returns (accepted: seq<bool>)
    requires m.Valid() && t in m.transitions
    requires forall i :: 0 <= i < |ops| ==> t !in Ending(ops[i])
    requires forall x :: x in m.transitions[t].transfers ==> NeverFails(ops, x)
    requires forall x :: x in m.transitions[t].transfers && x in m.transfers && m.transfers[x].completed ==>
               m.transfers[x].success
    modifies m
    ensures m.Valid() && |accepted| == |ops| && TransitionKept(old(m.View()), m.View(), t)
    ensures AllOnTheirWay(old(m.transfers), m.transfers, ops, accepted, old(m.transitions[t]).transfers)
  {
    accepted := [];
    KeptItself(m.View(), t);
    StartOnTheirWay(m.View(), t, ops);
    while |accepted| < |ops|
      invariant m.Valid() && |accepted| <= |ops| && TransitionKept(old(m.View()), m.View(), t)
      invariant AllOnTheirWay(old(m.transfers), m.transfers, ops, accepted, old(m.transitions[t]).transfers)
    {
      ghost var between := m.View();
      var op := ops[|accepted|];
      var ok := Perform(m, op);
      KeptFurther(old(m.View()), between, m.View(), Ending(op), t);
      OneFurther(old(m.View()), between, m.View(), ops, accepted, ok, t);
      accepted := accepted + [ok];
    }
  }

  /** A transition that is provided for is fulfilled: whatever else happens, once each of its transfers has been completed
      with success and that was accepted, its commit at its revision goes through and binds its context to its parts. */
  method Fulfil(m: PhysicalManager, ops: seq<Op>, t: TransitionId) returns (r: Result<BindingId>, accepted: seq<bool>)
    requires m.Valid() && Provided(m.View(), t)
    requires forall i :: 0 <= i < |ops| ==> t !in Ending(ops[i])
    requires forall x :: x in m.transitions[t].transfers ==> NeverFails(ops, x)
    requires forall x :: x in m.transitions[t].transfers && x in m.transfers && m.transfers[x].completed ==>
               m.transfers[x].success
    modifies m
    ensures m.Valid() && |accepted| == |ops|
    ensures (forall x :: x in old(m.transitions[t]).transfers && x in old(m.transfers) ==>
               old(m.transfers)[x].completed || Landed(ops, accepted, x)) ==>
              var p := old(m.transitions[t]);
              && r.Success? && p.context in m.bindings
              && m.bindings[p.context] == Binding(r.value, p.mapping, p.representations)
  {
    var revision := m.transitions[t].revision;
    accepted := RunFor(m, ops, t);
    ghost var before := m.View();
    SoundComplete(before, t);
    RefusalExact(before, t, revision);
    r := m.CommitTransition(t, revision);
    if forall x :: x in old(m.transitions[t]).transfers && x in old(m.transfers) ==>
         old(m.transfers)[x].completed || Landed(ops, accepted, x)
    {
      AllLanded(old(m.View()), before, ops, accepted, t);
      CommittedRecords(before, t, m.clock);
    }
  }

  lemma KeptItself(w: World, t: TransitionId)
    ensures TransitionKept(w, w, t)
  {
  }

  lemma KeptFurther(a: World, b: World, c: World, except: set<TransitionId>, t: TransitionId)
    requires TransitionKept(a, b, t) && TransitionsKept(b, c, except) && t !in except
    ensures TransitionKept(a, c, t)
  {
    assert TransitionKept(b, c, t);
  }

  lemma RunKeeps(a: World, b: World, t: TransitionId)
    requires TransitionKept(a, b, t) && Sound(b)
    ensures Complete(b, t)
    ensures Committable(a, t) ==>
              && Committable(b, t) && b.transitions[t] == a.transitions[t]
              && CommitRefusal(b, t, b.transitions[t].revision).None?
    ensures Provided(a, t) ==> Provided(b, t)
  {
    SoundComplete(b, t);
    if Committable(a, t) {
      StaysCommittable(a, b, t);
      RefusalExact(b, t, b.transitions[t].revision);
    }
    if Provided(a, t) {
      StaysProvided(a, b, t);
    }
  }

  // ---- what is guarded ----

  lemma WithoutGuards(w: World, victims: set<RepId>)
    requires forall v :: v in victims ==> Evictable(w.representations, v)
    ensures Guards(w.(representations := Without(w.representations, victims))) == Guards(w)
  {
    assert ActiveBytes(Without(w.representations, victims)) == ActiveBytes(w.representations);
  }

  lemma RegisteredGuards(w: World, victims: set<RepId>, b: World, r: Representation)
    requires Sound(w) && forall v :: v in victims ==> Evictable(w.representations, v)
    requires r.active == 0 && b == WithNew(w.(representations := Without(w.representations, victims)), r)
    ensures Guards(b) == Guards(w)
  {
    WithoutGuards(w, victims);
    assert IdHolds(w, w.next);
    AddedActive(Without(w.representations, victims), w.next, r);
  }

  lemma AddedActive(reps: Representations, id: RepId, r: Representation)
    requires id !in reps && r.active == 0
    ensures Total(ActiveBytes(reps[id := r])) == Total(ActiveBytes(reps))
  {
    assert ActiveBytes(reps[id := r]) == ActiveBytes(reps)[id := 0];
    TotalAdd(ActiveBytes(reps), id, 0);
  }

  lemma MovedGuards(a: World, b: World, id: RepId, refused: Option<Error>)
    requires refused.Some? ==> b == a
    requires refused.None? ==>
               && id in a.representations && !Protected(a.representations[id]) && id in b.representations
               && b == a.(representations := a.representations[id := b.representations[id]])
               && b.representations[id].active == a.representations[id].active
    ensures Guards(b) == Guards(a)
  {
    assert ActiveBytes(b.representations) == ActiveBytes(a.representations);
  }

  lemma LessLogicalGuards(w: World, id: RepId)
    ensures Guards(w.(representations := LessLogical(w.representations, id))) == Guards(w)
  {
    var bytes: map<RepId, nat> := ActiveBytes(w.representations);
    var less: map<RepId, nat> := ActiveBytes(LessLogical(w.representations, id));
    if id in w.representations && id !in LessLogical(w.representations, id) {
      assert less == bytes - {id} && bytes[id] == 0;
      TotalWithout(bytes, id);
    } else {
      assert less == bytes;
    }
  }

  lemma GrownGuards(w: World, victims: set<RepId>, b: World, bytes: nat)
    requires Sound(w) && forall v :: v in victims ==> Evictable(w.representations, v)
    requires b == w.(next := w.next + 1, growth := w.growth[w.next := bytes],
                     representations := Without(w.representations, victims))
    ensures Guards(b) == Guards(w) + bytes
  {
    WithoutGuards(w, victims);
    assert IdHolds(w, w.next);
    TotalAdd(w.growth, w.next, bytes);
  }

  lemma ShrunkGuards(w: World, id: GrowthId)
    ensures Guards(w.(growth := w.growth - {id})) <= Guards(w)
  {
    if id in w.growth {
      TotalWithout(w.growth, id);
    } else {
      assert w.growth - {id} == w.growth;
    }
  }

  lemma ReleasedGuards(w: World, c: ContextId)
    requires Sound(w)
    ensures Guards(Released(w, c)) <= Guards(w)
  {
    forall r | r in w.representations
      ensures ActiveBytes(Released(w, c).representations)[r] <= ActiveBytes(w.representations)[r]
    {
      UnprotectedIsFree(w, r);
    }
    TotalLess(ActiveBytes(Released(w, c).representations), ActiveBytes(w.representations));
  }

  /** What is promoted is on the device already if it is bound. */
  lemma PromotedGuards(w: World, id: RepId, ok: bool, victims: set<RepId>)
    requires Sound(w) && id in w.representations && forall v :: v in victims ==> Evictable(w.representations, v)
    ensures Guards(w.(representations := Promoted(w.representations, id, ok, victims))) == Guards(w)
  {
    if w.representations[id].active != 0 {
      ActiveOnDevice(w, id);
    }
    PromotedActive(w.representations, id, ok, victims);
  }

  lemma PromotedActive(reps: Representations, id: RepId, ok: bool, victims: set<RepId>)
    requires id in reps && (reps[id].active != 0 ==> reps[id].device)
    requires forall v :: v in victims ==> Evictable(reps, v)
    ensures ActiveBytes(Promoted(reps, id, ok, victims)) == ActiveBytes(reps)
  {
  }

  lemma ActiveOnDevice(w: World, r: RepId)
    requires Sound(w) && r in w.representations && w.representations[r].active != 0
    ensures w.representations[r].device
  {
    assert RefsHold(w, r);
    assert BoundBy(w.bindings, r) != {};
    var c :| c in BoundBy(w.bindings, r);
    assert BindingHolds(w, c);
  }

  lemma EndedGuards(w: World, x: TransferId, success: bool)
    requires x in w.transfers && w.transfers[x].representation in w.representations
    ensures Guards(Ended(w, x, success)) <= Guards(w)
  {
    var v := Ended(w, x, success);
    var before: map<TransferId, nat> := DetachedBytes(w.transfers);
    var after: map<TransferId, nat> := DetachedBytes(v.transfers);
    assert ActiveBytes(v.representations) == ActiveBytes(w.representations);
    if w.transfers[x].detached {
      assert after == before - {x};
      TotalWithout(before, x);
    } else {
      assert after == before[x := 0];
      TotalUpdate(before, x, 0);
    }
  }

  lemma {:induction false} TakenOnGuards(w: World, t: TransitionId, list: seq<RepId>)
    requires Sound(w) && t in w.transitions
    requires w.transitions[t].representations == [] && w.transitions[t].transfers == []
    requires Composite(w.representations, w.transitions[t].mapping, list)
    ensures Guards(TakenOnAll(w, t, list)) == Guards(w)
  {
    if list != [] {
      var most, last := list[..|list| - 1], list[|list| - 1];
      assert most + [last] == list;
      NotYet(w.representations, w.transitions[t].mapping, most, last);
      TakenOnGuards(w, t, most);
      TookOnAll(w, t, most);
      OneMoreGuards(TakenOnAll(w, t, most), t, last);
    }
  }

  lemma OneMoreGuards(w: World, t: TransitionId, r: RepId)
    requires Sound(w) && t in w.transitions && r in w.representations
    ensures Guards(TakenOn(w, t, r)) == Guards(w)
  {
    ReservedGuards(w, t, r);
    if NeedsTransfer(w.representations[r]) {
      assert TransferHolds(w, w.next);
      TransferringGuards(Reserved(w, t, r), t, r);
    }
  }

  lemma ReservedGuards(w: World, t: TransitionId, r: RepId)
    requires t in w.transitions && r in w.representations
    ensures Guards(Reserved(w, t, r)) == Guards(w)
  {
    var v := Reserved(w, t, r);
    assert ActiveBytes(v.representations) == ActiveBytes(w.representations);
    assert ReservedBytes(v.transitions) == ReservedBytes(w.transitions);
  }

  lemma TransferringGuards(w: World, t: TransitionId, r: RepId)
    requires t in w.transitions && r in w.representations && w.next !in w.transfers
    ensures Guards(Transferring(w, t, r)) == Guards(w)
  {
    var v := Transferring(w, t, r);
    assert ActiveBytes(v.representations) == ActiveBytes(w.representations);
    assert ReservedBytes(v.transitions) == ReservedBytes(w.transitions);
    assert DetachedBytes(v.transfers) == DetachedBytes(w.transfers)[w.next := 0];
    TotalAdd(DetachedBytes(w.transfers), w.next, 0);
  }

  lemma ReservingGuards(a: World, b: World, victims: set<RepId>, context: ContextId, revision: nat, mapping: Id,
                        list: seq<RepId>, demand: Demand, p: PreparedTransition)
    requires Sound(a) && forall v :: v in victims ==> Evictable(a.representations, v)
    requires Composite(a.representations, mapping, list)
    requires Reserving(a, b, victims, context, revision, mapping, list, demand, p)
    ensures Guards(b) == Guards(a) + demand.bytes
  {
    LeftSound(a, victims);
    WithoutGuards(a, victims);
    WithoutComposite(a.representations, victims, mapping, list);
    PreparedGuards(a.(representations := Without(a.representations, victims)),
                   Transition(context, revision, mapping, [], [], demand.bytes, p.kind), list);
  }

  lemma PreparedGuards(w: World, transition: Transition, list: seq<RepId>)
    requires Sound(w) && transition.representations == [] && transition.transfers == []
    requires Composite(w.representations, transition.mapping, list)
    ensures Guards(PreparedWith(w, transition, list)) == Guards(w) + transition.reserved
  {
    var u := Opened(w, transition);
    OpenedSound(w, transition);
    assert ReservedBytes(u.transitions) == ReservedBytes(w.transitions)[w.next := transition.reserved];
    TotalAdd(ReservedBytes(w.transitions), w.next, transition.reserved);
    TakenOnGuards(u, w.next, list);
  }

  // ---- what ending a transition does to it ----

  function FlyingBytes(transfers: map<TransferId, Transfer>, list: seq<TransferId>): map<TransferId, nat> {
    map x | x in transfers :: if x in list && !transfers[x].completed then transfers[x].bytes else 0
  }

  /** The end of a transition gives up what it asked for, and what it still has in flight is guarded instead. */
  lemma ClosedGuards(w: World, t: TransitionId)
    requires Sound(w) && t in w.transitions
    ensures Guards(Closed(w, t)) + w.transitions[t].reserved
            == Guards(w) + Total(FlyingBytes(w.transfers, w.transitions[t].transfers))
  {
    var list := w.transitions[t].transfers;
    var v := Closed(w, t);
    assert ActiveBytes(v.representations) == ActiveBytes(w.representations);
    assert ReservedBytes(v.transitions) == ReservedBytes(w.transitions) - {t};
    TotalWithout(ReservedBytes(w.transitions), t);
    assert TransitionHolds(w, t);
    forall x | x in list && x in w.transfers
      ensures !w.transfers[x].detached
    {
      assert TransferHolds(w, x);
    }
    DetachedTotal(w.transfers, list);
  }

  lemma DetachedTotal(transfers: map<TransferId, Transfer>, list: seq<TransferId>)
    requires forall x :: x in list && x in transfers ==> !transfers[x].detached
    ensures Total(DetachedBytes(Detached(transfers, list)))
            == Total(DetachedBytes(transfers)) + Total(FlyingBytes(transfers, list))
  {
    var before: map<TransferId, nat> := DetachedBytes(transfers);
    var flying: map<TransferId, nat> := FlyingBytes(transfers, list);
    var sums: map<TransferId, nat> := map x | x in transfers :: before[x] + flying[x];
    TotalOfSums(before, flying, sums);
    TotalOfPart(DetachedBytes(Detached(transfers, list)), sums);
  }

  /** The bytes of what is listed and bound by nobody. */
  function IdleBytes(reps: Representations, list: seq<RepId>): nat
    requires forall r :: r in list ==> r in reps
  {
    if list == [] then 0
    else
      var last := list[|list| - 1];
      IdleBytes(reps, list[..|list| - 1]) + if reps[last].active == 0 then reps[last].bytes else 0
  }

  lemma {:induction false} RaisedTotal(reps: Representations, list: seq<RepId>, clock: nat)
    requires forall r :: r in list ==> r in reps && reps[r].device && reps[r].active >= 0
    requires forall i, j :: 0 <= i < j < |list| ==> list[i] != list[j]
    ensures Total(ActiveBytes(ActiveRaised(reps, list, clock))) == Total(ActiveBytes(reps)) + IdleBytes(reps, list)
  {
    if list == [] {
      assert ActiveRaised(reps, list, clock) == reps;
    } else {
      var n, last := |list| - 1, list[|list| - 1];
      RaisedTotal(reps, list[..n], clock);
      assert list[..n + 1] == list;
      RaiseOne(reps, list, n, clock);
      assert ActiveRaised(reps, list[..n], clock)[last] == reps[last];
      OneBound(ActiveRaised(reps, list[..n], clock), last, clock);
    }
  }

  lemma OneBound(reps: Representations, r: RepId, clock: nat)
    requires r in reps && reps[r].device && reps[r].active >= 0
    ensures var raised := reps[r := reps[r].(active := reps[r].active + 1, lastUsed := clock)];
            Total(ActiveBytes(raised)) == Total(ActiveBytes(reps)) + if reps[r].active == 0 then reps[r].bytes else 0
  {
    var raised := reps[r := reps[r].(active := reps[r].active + 1, lastUsed := clock)];
    assert ActiveBytes(raised) == ActiveBytes(reps)[r := reps[r].bytes];
    TotalUpdate(ActiveBytes(reps), r, reps[r].bytes);
  }

  /** Exactly what a commit does: what it asked for is given up, the old binding's share goes, and of the new binding
      those parts count that nobody binds yet. It goes beyond the device exactly if this sum does. */
  lemma CommittedGuards(w: World, t: TransitionId, clock: nat)
    requires Sound(w) && Committable(w, t)
    ensures forall r :: r in w.transitions[t].representations ==>
              r in Released(Closed(w, t), w.transitions[t].context).representations
    ensures var released := Released(Closed(w, t), w.transitions[t].context);
            && Guards(Closed(w, t)) + w.transitions[t].reserved == Guards(w)
            && Guards(Committed(w, t, clock))
               == Guards(released) + IdleBytes(released.representations, w.transitions[t].representations)
  {
    var transition := w.transitions[t];
    var released := Released(Closed(w, t), transition.context);
    ClosedGuards(w, t);
    NothingFlies(w.transfers, transition.transfers);
    SwitchSteps(w, t);
    forall r | r in transition.representations
      ensures released.representations[r].active >= 0
    {
      UnprotectedIsFree(released, r);
    }
    RaisedTotal(released.representations, transition.representations, clock);
  }

  lemma NothingFlies(transfers: map<TransferId, Transfer>, list: seq<TransferId>)
    requires forall x :: x in list && x in transfers ==> transfers[x].completed
    ensures Total(FlyingBytes(transfers, list)) == 0
  {
    var none: map<TransferId, nat> := map[];
    TotalOfPart(none, FlyingBytes(transfers, list));
  }

  // ---- a run that goes beyond the device ----

  const ON_DEVICE: Representation := Registered(7, GlobalKv, 1, 6, Device, 1, 0)

  /** The six bytes on the device, unbound, beside what is reserved. */
  function Beside(next: nat, growth: map<GrowthId, nat>): World {
    World(next, map[1 := ON_DEVICE], map[], map[], map[], growth, map[], map[])
  }

  lemma BesideUse(next: nat, growth: map<GrowthId, nat>)
    ensures DeviceUsed(Beside(next, growth).representations) == 6
    ensures Guards(Beside(next, growth)) == Total(growth)
  {
    var w := Beside(next, growth);
    var empty: map<nat, nat> := map[];
    assert DeviceBytes(w.representations) == empty[1 := 6] && ActiveBytes(w.representations) == empty[1 := 0];
    assert ReservedBytes(w.transitions) == empty && DetachedBytes(w.transfers) == empty;
    TotalAdd(empty, 1, 6);
    TotalAdd(empty, 1, 0);
  }

  /** Six bytes on a device of ten. */
  method Six() returns (m: PhysicalManager)
    ensures fresh(m) && m.Valid() && m.capacity == Capacity(10, 0)
    ensures m.View() == Beside(2, map[])
  {
    m := new PhysicalManager(Capacity(10, 0));
    PutSix(m);
  }

  method PutSix(m: PhysicalManager)
    requires m.Valid() && m.capacity == Capacity(10, 0) && m.clock == 0
    requires m.View() == World(1, map[], map[], map[], map[], map[], map[], map[])
    modifies m
    ensures m.Valid() && m.View() == Beside(2, map[])
  {
    ghost var before := m.View();
    var ok, victims := Put(m, before, 1);
    FitsEmpty(before, m.View(), ok, victims);
  }

  method Put(m: PhysicalManager, ghost before: World, ghost now: nat) returns (ok: bool, ghost victims: set<RepId>)
    requires m.Valid() && m.View() == before && m.clock + 1 == now
    modifies m
    ensures m.Valid()
    ensures RoomMade(before.representations, Guards(before), 6, m.capacity.device, ok, victims)
    ensures ok ==>
              m.View() == WithNew(before.(representations := Without(before.representations, victims)),
                                  Registered(7, GlobalKv, 1, 6, Device, now, 0))
  {
    var r;
    r, victims := m.Register(7, GlobalKv, 1, 6, Device, 0);
    ok := r.Success?;
  }

  lemma FitsEmpty(w: World, v: World, ok: bool, victims: set<RepId>)
    requires w == World(1, map[], map[], map[], map[], map[], map[], map[])
    requires ok ==>
               v == WithNew(w.(representations := Without(w.representations, victims)), Registered(7, GlobalKv, 1, 6, Device, 1, 0))
    requires RoomMade(w.representations, Guards(w), 6, 10, ok, victims)
    ensures v == Beside(2, map[])
  {
    assert DeviceBytes(w.representations) == map[] && ActiveBytes(w.representations) == map[];
    assert ReservedBytes(w.transitions) == map[] && DetachedBytes(w.transfers) == map[];
    assert DeviceBytes(Without(w.representations, victims)) == map[];
  }

  /** Four more are reserved; the six are not in the way. */
  method Four(m: PhysicalManager, ghost growth: map<GrowthId, nat>)
    requires m.Valid() && m.capacity == Capacity(10, 0) && Total(growth) <= 4 && m.nextId !in growth
    requires m.View() == Beside(m.nextId, growth)
    modifies m
    ensures m.Valid() && m.View() == Beside(old(m.nextId) + 1, growth[old(m.nextId) := 4])
    ensures Total(m.growth) == Total(growth) + 4
  {
    ghost var before := m.View();
    var r, victims := m.ReserveGrowth(4);
    FitsBeside(before, growth, 4, r.Success?, victims);
    TotalAdd(growth, before.next, 4);
  }

  lemma FitsBeside(w: World, growth: map<GrowthId, nat>, additional: nat, ok: bool, victims: set<RepId>)
    requires w == Beside(w.next, growth) && Total(growth) + additional <= 10 && additional <= 4
    requires RoomMade(w.representations, Guards(w), additional, 10, ok, victims)
    ensures ok && victims == {} && Without(w.representations, victims) == w.representations
  {
    BesideUse(w.next, growth);
    NobodyLeaves(w.representations, additional, 10, victims);
    WithoutNone(w.representations);
  }

  /** What is on the device can be bound without asking for room. */
  method BindSix(m: PhysicalManager)
    requires m.Valid() && m.capacity == Capacity(10, 0) && Total(m.growth) == 8
    requires m.View() == Beside(m.nextId, m.growth)
    modifies m
    ensures m.Valid() && m.growth == old(m.growth)
    ensures 0 in m.bindings && m.bindings[0].representations == [1]
    ensures 1 in m.representations && m.representations[1].bytes == 6
  {
    ghost var before := m.View();
    OneAsked(before.representations);
    var prepared, victims := m.PrepareTransition(0, 0, 7, 1, {GlobalKv}, [1], false);
    FitsBeside(before, before.growth, 0, prepared.Success?, victims);
    ghost var transition := Transition(0, 0, 7, [], [], 0, KindOf(Demand(0, false), false));
    OneStands(before, transition, m.View());
    ghost var between := m.View();
    var t := prepared.value.id;
    RefusalExact(between, t, 0);
    CommittedSound(between, t, m.clock);
    var committed := m.CommitTransition(t, 0);
  }

  lemma OneAsked(reps: Representations)
    requires reps == map[1 := ON_DEVICE]
    ensures Asked(reps, 7, 1, {GlobalKv}, [1], false) == Success(Demand(0, false))
  {
    assert [1][1..] == [] && {} + {GlobalKv} == {GlobalKv};
    assert CompositeRefusal(reps, 7, 1, {GlobalKv}, [], {GlobalKv}) == None;
    assert CompositeRefusal(reps, 7, 1, {GlobalKv}, [1], {}) == None;
    assert Missing(reps, [], false, Demand(0, false)) == Success(Demand(0, false));
  }

  lemma OneStands(w: World, transition: Transition, v: World)
    requires Sound(w) && w.representations == map[1 := ON_DEVICE]
    requires transition.mapping == 7 && transition.representations == [] && transition.transfers == []
    requires v == PreparedWith(w, transition, [1])
    ensures Sound(v) && Committable(v, w.next) && v.growth == w.growth
    ensures v.transitions[w.next].context == transition.context && v.transitions[w.next].revision == transition.revision
    ensures v.transitions[w.next].representations == [1]
    ensures 1 in v.representations && v.representations[1].bytes == 6
  {
    PreparedSound(w, transition, [1]);
    PreparedStands(w, transition, [1]);
    PreparedTook(w, transition, [1]);
  }

  method Fourteen() returns (m: PhysicalManager)
    ensures fresh(m) && m.Valid() && m.capacity == Capacity(10, 0)
    ensures m.View() == Beside(m.nextId, m.growth) && Total(m.growth) == 8
  {
    m := Six();
    ghost var none: map<GrowthId, nat> := map[];
    Four(m, none);
    Four(m, none[2 := 4]);
  }

  /** Six bytes bound beside eight reserved, on a device of ten: binding what is on the device already adds bytes that no
      request for room has counted. */
  method CommitMayExceed() returns (m: PhysicalManager)
    ensures m.Valid() && m.Guarded() > m.capacity.device
  {
    m := Fourteen();
    BindSix(m);
    BoundCounts(m.View(), 0, 1);
  }

  lemma BoundCounts(w: World, c: ContextId, r: RepId)
    requires Sound(w) && c in w.bindings && r in w.bindings[c].representations && r in w.representations
    ensures Guards(w) >= w.representations[r].bytes + Total(w.growth)
  {
    assert BindingHolds(w, c);
    UnprotectedIsFree(w, r);
    TotalWithout(ActiveBytes(w.representations), r);
  }
}
