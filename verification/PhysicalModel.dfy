/**
 Physical state as a value: which representations of cached prefixes are where, and who refers to them.

 `Sound` is the bookkeeping invariant: the three reference counts that protect a representation are always the
 true ones, what is bound is on the device, and every transfer belongs to one transition or is detached.
 */
module PhysicalModel {
  import opened Options
  import opened PrefixForest
  import opened Totals

  type RepId = nat
  type BindingId = nat
  type TransitionId = nat
  type TransferId = nat
  type GrowthId = nat
  type TableId = nat

  datatype Tier = Device | Host | Storage

  datatype Kind = ReferenceOnly | NonDestructive | Quiesced | Recompute

  /** One component of one cached prefix. The last four counts are its references. */
  datatype Representation = Representation(
    mapping: Id, component: Component, end: nat, bytes: nat,
    device: bool, host: bool, storage: bool, lastUsed: nat, reuseValue: nat,
    logical: nat, active: int, reservations: int, transfers: int)

  type Representations = map<RepId, Representation>

  datatype Binding = Binding(id: BindingId, mapping: Id, representations: seq<RepId>)

  datatype Transition = Transition(
    context: ContextId, revision: nat, mapping: Id, representations: seq<RepId>, transfers: seq<TransferId>,
    reserved: nat, kind: Kind)

  datatype Transfer = Transfer(representation: RepId, bytes: nat, completed: bool, success: bool, detached: bool)

  datatype Block = Block(representation: RepId, component: Component, bytes: nat)

  datatype Table = Table(id: TableId, binding: BindingId, mapping: Id, executorMapping: nat, blocks: seq<Block>)

  /** `owner` says to which transition a transfer belongs; a detached one belongs to none. */
  datatype World = World(
    next: nat, representations: Representations, bindings: map<ContextId, Binding>,
    transitions: map<TransitionId, Transition>, transfers: map<TransferId, Transfer>, growth: map<GrowthId, nat>,
    tables: map<ContextId, Table>, owner: map<TransferId, TransitionId>)

  function Leave(r: Representation, tier: Tier): Representation {
    match tier
    case Device => r.(device := false)
    case Host => r.(host := false)
    case Storage => r.(storage := false)
  }

  predicate Protected(r: Representation) {
    r.active != 0 || r.reservations != 0 || r.transfers != 0
  }

  // ---- the true counts ----

  ghost function BoundBy(bindings: map<ContextId, Binding>, r: RepId): set<ContextId> {
    set c | c in bindings && r in bindings[c].representations
  }

  ghost function ReservedBy(transitions: map<TransitionId, Transition>, r: RepId): set<TransitionId> {
    set t | t in transitions && r in transitions[t].representations
  }

  ghost function InFlight(transfers: map<TransferId, Transfer>, r: RepId): set<TransferId> {
    set x | x in transfers && transfers[x].representation == r && !transfers[x].completed
  }

  ghost predicate RefsHold(w: World, r: RepId) {
    r in w.representations ==>
      && w.representations[r].active == |BoundBy(w.bindings, r)|
      && w.representations[r].reservations == |ReservedBy(w.transitions, r)|
      && w.representations[r].transfers == |InFlight(w.transfers, r)|
  }

  /** Live representations of one mapping with one end, each of another component. */
  ghost predicate Composite(reps: Representations, mapping: Id, list: seq<RepId>) {
    && (forall i :: 0 <= i < |list| ==> list[i] in reps && reps[list[i]].mapping == mapping)
    && (forall i, j :: 0 <= i < j < |list| ==>
          && reps[list[i]].component != reps[list[j]].component
          && reps[list[i]].end == reps[list[j]].end)
  }

  ghost predicate OnDevice(reps: Representations, list: seq<RepId>) {
    forall r :: r in list ==> r in reps && reps[r].device
  }

  /** What is bound is on the device, whole and consistent. */
  ghost predicate BindingHolds(w: World, c: ContextId) {
    c in w.bindings ==>
      && w.bindings[c].id < w.next
      && Composite(w.representations, w.bindings[c].mapping, w.bindings[c].representations)
      && OnDevice(w.representations, w.bindings[c].representations)
  }

  ghost predicate TransitionHolds(w: World, t: TransitionId) {
    t in w.transitions ==>
      && t < w.next
      && Composite(w.representations, w.transitions[t].mapping, w.transitions[t].representations)
      && forall x :: x in w.transitions[t].transfers ==> x in w.owner && w.owner[x] == t
  }

  /** A transfer is detached, and then still in flight, or belongs to the transition that reserved what it moves. What
      a transition's successful transfer moved stays on the device. */
  ghost predicate TransferHolds(w: World, x: TransferId) {
    && (x in w.owner ==> x in w.transfers)
    && (x in w.transfers ==>
          var transfer := w.transfers[x];
          && x < w.next
          && (transfer.detached <==> x !in w.owner)
          && (transfer.detached ==> !transfer.completed)
          && (!transfer.completed ==>
                && transfer.representation in w.representations
                && transfer.bytes == w.representations[transfer.representation].bytes)
          && (x in w.owner ==>
                && w.owner[x] in w.transitions
                && x in w.transitions[w.owner[x]].transfers
                && transfer.representation in w.transitions[w.owner[x]].representations
                && (transfer.completed && transfer.success ==>
                      && transfer.representation in w.representations
                      && w.representations[transfer.representation].device)))
  }

  function BlockOf(reps: Representations, r: RepId): Block
    requires r in reps
  {
    Block(r, reps[r].component, reps[r].bytes)
  }

  /** A visible table is that of the current binding, block for block. */
  ghost predicate TableHolds(w: World, c: ContextId) {
    c in w.tables ==>
      var table := w.tables[c];
      && table.id < w.next
      && c in w.bindings
      && table.binding == w.bindings[c].id && table.mapping == w.bindings[c].mapping
      && |table.blocks| == |w.bindings[c].representations|
      && forall i :: 0 <= i < |table.blocks| ==>
           && w.bindings[c].representations[i] in w.representations
           && table.blocks[i] == BlockOf(w.representations, w.bindings[c].representations[i])
  }

  ghost predicate IdHolds(w: World, k: nat) {
    k in w.representations || k in w.growth ==> k < w.next
  }

  ghost predicate Sound(w: World) {
    && (forall r: RepId {:trigger RefsHold(w, r)} :: RefsHold(w, r))
    && (forall c: ContextId {:trigger BindingHolds(w, c)} :: BindingHolds(w, c))
    && (forall t: TransitionId {:trigger TransitionHolds(w, t)} :: TransitionHolds(w, t))
    && (forall x: TransferId {:trigger TransferHolds(w, x)} :: TransferHolds(w, x))
    && (forall c: ContextId {:trigger TableHolds(w, c)} :: TableHolds(w, c))
    && (forall k: nat {:trigger IdHolds(w, k)} :: IdHolds(w, k))
  }

  // ---- what protection means ----

  /** What nothing protects is bound, reserved and transferred by nobody; what is protected is so by somebody. */
  lemma UnprotectedIsFree(w: World, r: RepId)
    requires Sound(w) && r in w.representations
    ensures w.representations[r].active >= 0 && w.representations[r].reservations >= 0
    ensures w.representations[r].transfers >= 0
    ensures w.representations[r].active == 0 <==> forall c :: c in w.bindings ==> r !in w.bindings[c].representations
    ensures w.representations[r].reservations == 0 <==>
              forall t :: t in w.transitions ==> r !in w.transitions[t].representations
    ensures w.representations[r].transfers == 0 <==>
              forall x :: x in w.transfers && !w.transfers[x].completed ==> w.transfers[x].representation != r
  {
    assert RefsHold(w, r);
    EmptyCard(BoundBy(w.bindings, r));
    EmptyCard(ReservedBy(w.transitions, r));
    EmptyCard(InFlight(w.transfers, r));
    if w.representations[r].active == 0 {
      assert forall c :: c in w.bindings ==> c !in BoundBy(w.bindings, r);
    } else {
      var c :| c in BoundBy(w.bindings, r);
    }
    if w.representations[r].reservations == 0 {
      assert forall t :: t in w.transitions ==> t !in ReservedBy(w.transitions, r);
    } else {
      var t :| t in ReservedBy(w.transitions, r);
    }
    if w.representations[r].transfers == 0 {
      assert forall x :: x in w.transfers ==> x !in InFlight(w.transfers, r);
    } else {
      var x :| x in InFlight(w.transfers, r);
    }
  }

  lemma EmptyCard<T>(s: set<T>)
    ensures |s| == 0 <==> s == {}
  {
  }

  /** Nothing anybody refers to is missing. */
  lemma NothingDangles(w: World)
    requires Sound(w)
    ensures forall c, r :: c in w.bindings && r in w.bindings[c].representations ==> r in w.representations
    ensures forall t, r :: t in w.transitions && r in w.transitions[t].representations ==> r in w.representations
    ensures forall t, x :: t in w.transitions && x in w.transitions[t].transfers ==> x in w.transfers
    ensures forall x :: x in w.transfers && !w.transfers[x].completed ==>
              w.transfers[x].representation in w.representations
  {
    forall c, r | c in w.bindings && r in w.bindings[c].representations
      ensures r in w.representations
    {
      assert BindingHolds(w, c);
    }
    forall t, r | t in w.transitions && r in w.transitions[t].representations
      ensures r in w.representations
    {
      assert TransitionHolds(w, t);
    }
    forall t, x | t in w.transitions && x in w.transitions[t].transfers
      ensures x in w.transfers
    {
      assert TransitionHolds(w, t) && TransferHolds(w, x);
    }
    forall x | x in w.transfers && !w.transfers[x].completed
      ensures w.transfers[x].representation in w.representations
    {
      assert TransferHolds(w, x);
    }
  }

  // ---- one representation changes ----

  /** Same identity and references; what is protected does not leave the device. */
  predicate SameRole(r: Representation, s: Representation) {
    && s.mapping == r.mapping && s.component == r.component && s.end == r.end && s.bytes == r.bytes
    && s.active == r.active && s.reservations == r.reservations && s.transfers == r.transfers
    && (Protected(r) && r.device ==> s.device)
  }

  lemma Touched(w: World, r: RepId, s: Representation)
    requires Sound(w) && r in w.representations && SameRole(w.representations[r], s)
    ensures Sound(w.(representations := w.representations[r := s]))
  {
    var v := w.(representations := w.representations[r := s]);
    UnprotectedIsFree(w, r);
    forall k: nat
      ensures RefsHold(v, k) && BindingHolds(v, k) && TransitionHolds(v, k) && TransferHolds(v, k)
      ensures TableHolds(v, k) && IdHolds(v, k)
    {
      assert RefsHold(w, k) && BindingHolds(w, k) && TransitionHolds(w, k) && TransferHolds(w, k);
      assert TableHolds(w, k) && IdHolds(w, k);
    }
  }

  lemma Added(w: World, s: Representation)
    requires Sound(w) && s.active == 0 && s.reservations == 0 && s.transfers == 0
    ensures w.next !in w.representations
    ensures Sound(w.(next := w.next + 1, representations := w.representations[w.next := s]))
  {
    var v := w.(next := w.next + 1, representations := w.representations[w.next := s]);
    assert IdHolds(w, w.next);
    NothingDangles(w);
    assert BoundBy(w.bindings, w.next) == {} && ReservedBy(w.transitions, w.next) == {};
    assert InFlight(w.transfers, w.next) == {};
    forall k: nat
      ensures RefsHold(v, k) && BindingHolds(v, k) && TransitionHolds(v, k) && TransferHolds(v, k)
      ensures TableHolds(v, k) && IdHolds(v, k)
    {
      assert RefsHold(w, k) && BindingHolds(w, k) && TransitionHolds(w, k) && TransferHolds(w, k);
      assert TableHolds(w, k) && IdHolds(w, k);
    }
  }

  lemma Removed(w: World, r: RepId)
    requires Sound(w) && r in w.representations && !Protected(w.representations[r])
    ensures Sound(w.(representations := w.representations - {r}))
  {
    var v := w.(representations := w.representations - {r});
    UnprotectedIsFree(w, r);
    forall k: nat
      ensures RefsHold(v, k) && BindingHolds(v, k) && TransitionHolds(v, k) && TransferHolds(v, k)
      ensures TableHolds(v, k) && IdHolds(v, k)
    {
      assert RefsHold(w, k) && BindingHolds(w, k) && TransitionHolds(w, k) && TransferHolds(w, k);
      assert TableHolds(w, k) && IdHolds(w, k);
    }
  }

  lemma Grown(w: World, growth: map<GrowthId, nat>, next: nat)
    requires Sound(w) && w.next <= next && forall k :: k in growth ==> k < next
    ensures Sound(w.(growth := growth, next := next))
  {
    var v := w.(growth := growth, next := next);
    forall k: nat
      ensures RefsHold(v, k) && BindingHolds(v, k) && TransitionHolds(v, k) && TransferHolds(v, k)
      ensures TableHolds(v, k) && IdHolds(v, k)
    {
      assert RefsHold(w, k) && BindingHolds(w, k) && TransitionHolds(w, k) && TransferHolds(w, k);
      assert TableHolds(w, k) && IdHolds(w, k);
    }
  }

  // ---- bindings and tables ----

  function ActiveLowered(reps: Representations, list: seq<RepId>): Representations {
    map r | r in reps :: if r in list then reps[r].(active := reps[r].active - 1) else reps[r]
  }

  function ActiveRaised(reps: Representations, list: seq<RepId>, clock: nat): Representations {
    map r | r in reps :: if r in list then reps[r].(active := reps[r].active + 1, lastUsed := clock) else reps[r]
  }

  function ReservationsLowered(reps: Representations, list: seq<RepId>): Representations {
    map r | r in reps :: if r in list then reps[r].(reservations := reps[r].reservations - 1) else reps[r]
  }

  lemma OneMore<T>(s: set<T>, t: set<T>, x: T)
    requires x !in s && t == s + {x}
    ensures |t| == |s| + 1
  {
  }

  /** Without its binding, and without the table of that binding. */
  function Unbound(w: World, c: ContextId): World
    requires c in w.bindings
  {
    w.(bindings := w.bindings - {c}, tables := w.tables - {c},
            representations := ActiveLowered(w.representations, w.bindings[c].representations))
  }

  lemma UnboundSound(w: World, c: ContextId)
    requires Sound(w) && c in w.bindings
    ensures Sound(Unbound(w, c))
  {
    var v := Unbound(w, c);
    assert BindingHolds(w, c);
    forall k: nat
      ensures RefsHold(v, k)
    {
      assert RefsHold(w, k);
      UnboundRefs(w, c, k);
    }
    forall k: nat
      ensures BindingHolds(v, k) && TableHolds(v, k)
    {
      assert BindingHolds(w, k) && TableHolds(w, k);
    }
    forall k: nat
      ensures TransitionHolds(v, k) && TransferHolds(v, k) && IdHolds(v, k)
    {
      assert TransitionHolds(w, k) && TransferHolds(w, k) && IdHolds(w, k);
    }
  }

  lemma UnboundRefs(w: World, c: ContextId, r: RepId)
    requires RefsHold(w, r) && c in w.bindings
    ensures RefsHold(Unbound(w, c), r)
  {
    BoundLess(w.bindings, c, r);
    if r in w.bindings[c].representations {
      OneMore(BoundBy(w.bindings - {c}, r), BoundBy(w.bindings, r), c);
    }
  }

  lemma BoundLess(bindings: map<ContextId, Binding>, c: ContextId, r: RepId)
    requires c in bindings
    ensures c !in BoundBy(bindings - {c}, r)
    ensures BoundBy(bindings, r)
            == BoundBy(bindings - {c}, r) + if r in bindings[c].representations then {c} else {}
  {
  }

  lemma BoundMore(bindings: map<ContextId, Binding>, c: ContextId, b: Binding, r: RepId)
    requires c !in bindings
    ensures c !in BoundBy(bindings, r)
    ensures BoundBy(bindings[c := b], r) == BoundBy(bindings, r) + if r in b.representations then {c} else {}
  {
  }

  /** A new binding of an unbound context, to what is on the device. */
  function Bound(w: World, c: ContextId, mapping: Id, list: seq<RepId>, clock: nat): World {
    w.(next := w.next + 1, bindings := w.bindings[c := Binding(w.next, mapping, list)],
       representations := ActiveRaised(w.representations, list, clock))
  }

  lemma BoundSound(w: World, c: ContextId, mapping: Id, list: seq<RepId>, clock: nat)
    requires Sound(w) && c !in w.bindings
    requires Composite(w.representations, mapping, list) && OnDevice(w.representations, list)
    ensures Sound(Bound(w, c, mapping, list, clock))
  {
    var v := Bound(w, c, mapping, list, clock);
    forall k: nat
      ensures RefsHold(v, k)
    {
      assert RefsHold(w, k);
      BoundRefs(w, c, mapping, list, clock, k);
    }
    forall k: nat
      ensures BindingHolds(v, k) && TransitionHolds(v, k) && TransferHolds(v, k) && TableHolds(v, k) && IdHolds(v, k)
    {
      assert BindingHolds(w, k) && TransitionHolds(w, k) && TransferHolds(w, k);
      assert TableHolds(w, k) && IdHolds(w, k);
      assert TableHolds(w, c);
    }
  }

  lemma BoundRefs(w: World, c: ContextId, mapping: Id, list: seq<RepId>, clock: nat, r: RepId)
    requires RefsHold(w, r) && c !in w.bindings
    ensures RefsHold(Bound(w, c, mapping, list, clock), r)
  {
    var b := Binding(w.next, mapping, list);
    BoundMore(w.bindings, c, b, r);
    if r in list {
      OneMore(BoundBy(w.bindings, r), BoundBy(w.bindings[c := b], r), c);
    }
  }

  function Blocks(reps: Representations, list: seq<RepId>): (blocks: seq<Block>)
    requires forall r :: r in list ==> r in reps
    ensures |blocks| == |list|
    ensures forall i :: 0 <= i < |list| ==> blocks[i] == BlockOf(reps, list[i])
  {
    seq(|list|, i requires 0 <= i < |list| => BlockOf(reps, list[i]))
  }

  lemma TabledSound(w: World, c: ContextId, table: Table)
    requires Sound(w) && c in w.bindings
    requires forall r :: r in w.bindings[c].representations ==> r in w.representations
    requires table.id < w.next && table.binding == w.bindings[c].id && table.mapping == w.bindings[c].mapping
    requires table.blocks == Blocks(w.representations, w.bindings[c].representations)
    ensures Sound(w.(tables := w.tables[c := table]))
  {
    var v := w.(tables := w.tables[c := table]);
    forall k: nat
      ensures RefsHold(v, k) && BindingHolds(v, k) && TransitionHolds(v, k) && TransferHolds(v, k)
      ensures TableHolds(v, k) && IdHolds(v, k)
    {
      assert RefsHold(w, k) && BindingHolds(w, k) && TransitionHolds(w, k) && TransferHolds(w, k);
      assert TableHolds(w, k) && IdHolds(w, k);
    }
  }

  // ---- transitions and transfers ----

  /** A transition that has not reserved anything yet. */
  lemma OpenedSound(w: World, transition: Transition)
    requires Sound(w) && transition.representations == [] && transition.transfers == []
    ensures w.next !in w.transitions
    ensures Sound(w.(next := w.next + 1, transitions := w.transitions[w.next := transition]))
  {
    var v := w.(next := w.next + 1, transitions := w.transitions[w.next := transition]);
    assert TransitionHolds(w, w.next);
    forall k: nat
      ensures RefsHold(v, k) && BindingHolds(v, k) && TransitionHolds(v, k) && TransferHolds(v, k)
      ensures TableHolds(v, k) && IdHolds(v, k)
    {
      assert RefsHold(w, k) && BindingHolds(w, k) && TransitionHolds(w, k) && TransferHolds(w, k);
      assert TableHolds(w, k) && IdHolds(w, k);
      assert ReservedBy(v.transitions, k) == ReservedBy(w.transitions, k);
    }
  }

  /** The transition `t` reserves one more representation. */
  function Reserved(w: World, t: TransitionId, r: RepId): World
    requires t in w.transitions && r in w.representations
  {
    w.(transitions := w.transitions[t := w.transitions[t].(representations := w.transitions[t].representations + [r])],
       representations := w.representations[r := w.representations[r].(reservations := w.representations[r].reservations + 1)])
  }

  lemma ReservedSound(w: World, t: TransitionId, r: RepId)
    requires Sound(w) && t in w.transitions && r in w.representations
    requires Composite(w.representations, w.transitions[t].mapping, w.transitions[t].representations + [r])
    ensures Sound(Reserved(w, t, r))
  {
    var v := Reserved(w, t, r);
    var list := w.transitions[t].representations;
    NotYet(w.representations, w.transitions[t].mapping, list, r);
    forall k: nat
      ensures RefsHold(v, k)
    {
      assert RefsHold(w, k);
      ReservedRefs(w, t, r, k);
    }
    forall k: nat
      ensures BindingHolds(v, k) && TransitionHolds(v, k) && TransferHolds(v, k) && TableHolds(v, k) && IdHolds(v, k)
    {
      assert BindingHolds(w, k) && TransitionHolds(w, k) && TransferHolds(w, k);
      assert TableHolds(w, k) && IdHolds(w, k);
    }
  }

  lemma NotYet(reps: Representations, mapping: Id, list: seq<RepId>, r: RepId)
    requires Composite(reps, mapping, list + [r])
    ensures r !in list && Composite(reps, mapping, list)
  {
    assert (list + [r])[|list|] == r;
    assert forall i :: 0 <= i < |list| ==> (list + [r])[i] == list[i];
  }

  lemma ReservedRefs(w: World, t: TransitionId, r: RepId, k: RepId)
    requires RefsHold(w, k) && t in w.transitions && r in w.representations
    requires r !in w.transitions[t].representations
    ensures RefsHold(Reserved(w, t, r), k)
  {
    var after := Reserved(w, t, r).transitions;
    ReservedMore(w.transitions, t, after[t], r, k);
    if k == r {
      OneMore(ReservedBy(w.transitions, r), ReservedBy(after, r), t);
    }
  }

  lemma ReservedMore(transitions: map<TransitionId, Transition>, t: TransitionId, more: Transition, r: RepId, k: RepId)
    requires t in transitions && r !in transitions[t].representations
    requires more.representations == transitions[t].representations + [r]
    ensures k == r ==> t !in ReservedBy(transitions, k)
    ensures ReservedBy(transitions[t := more], k) == ReservedBy(transitions, k) + if k == r then {t} else {}
  {
  }

  lemma ReservedLess(transitions: map<TransitionId, Transition>, t: TransitionId, r: RepId)
    requires t in transitions
    ensures t !in ReservedBy(transitions - {t}, r)
    ensures ReservedBy(transitions, r)
            == ReservedBy(transitions - {t}, r) + if r in transitions[t].representations then {t} else {}
  {
  }

  /** The transition `t` starts to transfer what it has reserved. */
  function Transferring(w: World, t: TransitionId, r: RepId): World
    requires t in w.transitions && r in w.representations
  {
    w.(next := w.next + 1,
       transitions := w.transitions[t := w.transitions[t].(transfers := w.transitions[t].transfers + [w.next])],
       transfers := w.transfers[w.next := Transfer(r, w.representations[r].bytes, false, false, false)],
       owner := w.owner[w.next := t],
       representations := w.representations[r := w.representations[r].(transfers := w.representations[r].transfers + 1)])
  }

  lemma TransferringSound(w: World, t: TransitionId, r: RepId)
    requires Sound(w) && t in w.transitions && r in w.representations && r in w.transitions[t].representations
    ensures w.next !in w.transfers && w.next !in w.owner
    ensures Sound(Transferring(w, t, r))
  {
    var v := Transferring(w, t, r);
    assert TransferHolds(w, w.next);
    forall k: nat
      ensures RefsHold(v, k)
    {
      assert RefsHold(w, k);
      TransferringRefs(w, t, r, k);
    }
    forall k: nat
      ensures BindingHolds(v, k) && TransitionHolds(v, k) && TransferHolds(v, k) && TableHolds(v, k) && IdHolds(v, k)
    {
      assert BindingHolds(w, k) && TransitionHolds(w, k) && TransferHolds(w, k);
      assert TableHolds(w, k) && IdHolds(w, k);
    }
  }

  lemma TransferringRefs(w: World, t: TransitionId, r: RepId, k: RepId)
    requires RefsHold(w, k) && t in w.transitions && r in w.representations && w.next !in w.transfers
    ensures RefsHold(Transferring(w, t, r), k)
  {
    var v := Transferring(w, t, r);
    assert ReservedBy(v.transitions, k) == ReservedBy(w.transitions, k);
    FlightStarts(w.transfers, w.next, v.transfers[w.next], k);
    if k == r {
      OneMore(InFlight(w.transfers, r), InFlight(v.transfers, r), w.next);
    }
  }

  lemma FlightStarts(transfers: map<TransferId, Transfer>, x: TransferId, transfer: Transfer, k: RepId)
    requires x !in transfers && !transfer.completed
    ensures x !in InFlight(transfers, k)
    ensures InFlight(transfers[x := transfer], k)
            == if transfer.representation == k then InFlight(transfers, k) + {x} else InFlight(transfers, k)
  {
  }

  /** A transfer in flight ends; a detached one is forgotten. */
  function Ended(w: World, x: TransferId, success: bool): World
    requires x in w.transfers && w.transfers[x].representation in w.representations
  {
    var r := w.transfers[x].representation;
    w.(transfers := if w.transfers[x].detached then w.transfers - {x}
                    else w.transfers[x := w.transfers[x].(completed := true, success := success)],
       representations := w.representations[r := w.representations[r].(transfers := w.representations[r].transfers - 1)])
  }

  /** A transfer that ends is completed, with the success it was told; a detached one is forgotten. */
  lemma EndedRecords(w: World, x: TransferId, success: bool)
    requires x in w.transfers && w.transfers[x].representation in w.representations
    ensures var v := Ended(w, x, success);
            && (if w.transfers[x].detached then x !in v.transfers
                else
                  && x in v.transfers && v.transfers[x].completed && v.transfers[x].success == success
                  && v.transfers[x].representation == w.transfers[x].representation
                  && v.transfers[x].bytes == w.transfers[x].bytes && !v.transfers[x].detached)
            && v.transfers - {x} == w.transfers - {x}
            && v.transitions == w.transitions && v.bindings == w.bindings && v.growth == w.growth && v.tables == w.tables
            && forall r :: r in w.representations ==>
                 && r in v.representations
                 && v.representations[r] == w.representations[r].(transfers := v.representations[r].transfers)
  {
  }

  lemma EndedSound(w: World, x: TransferId, success: bool)
    requires Sound(w) && x in w.transfers && !w.transfers[x].completed
    requires w.transfers[x].representation in w.representations
    requires success ==> w.representations[w.transfers[x].representation].device
    ensures Sound(Ended(w, x, success))
  {
    var v := Ended(w, x, success);
    var r := w.transfers[x].representation;
    assert TransferHolds(w, x);
    forall k: nat
      ensures RefsHold(v, k)
    {
      assert RefsHold(w, k);
      EndedRefs(w, x, success, k);
    }
    forall k: nat
      ensures BindingHolds(v, k) && TransitionHolds(v, k) && TransferHolds(v, k) && TableHolds(v, k) && IdHolds(v, k)
    {
      assert BindingHolds(w, k) && TransitionHolds(w, k) && TransferHolds(w, k);
      assert TableHolds(w, k) && IdHolds(w, k);
    }
  }

  lemma EndedRefs(w: World, x: TransferId, success: bool, k: RepId)
    requires RefsHold(w, k) && x in w.transfers && !w.transfers[x].completed
    requires w.transfers[x].representation in w.representations
    ensures RefsHold(Ended(w, x, success), k)
  {
    var after := Ended(w, x, success).transfers;
    FlightEnds(w.transfers, after, x, k);
    if k == w.transfers[x].representation {
      OneMore(InFlight(after, k), InFlight(w.transfers, k), x);
    }
  }

  lemma FlightEnds(before: map<TransferId, Transfer>, after: map<TransferId, Transfer>, x: TransferId, k: RepId)
    requires x in before && !before[x].completed && (x in after ==> after[x].completed)
    requires after - {x} == before - {x}
    ensures x !in InFlight(after, k)
    ensures if k == before[x].representation then InFlight(before, k) == InFlight(after, k) + {x}
            else InFlight(after, k) == InFlight(before, k)
  {
    forall y | y != x
      ensures y in before <==> y in after
      ensures y in before ==> after[y] == before[y]
    {
      assert y in before <==> y in before - {x};
      assert y in after <==> y in after - {x};
    }
  }

  /** What a transition leaves of its transfers: those still in flight, detached. */
  function Detached(transfers: map<TransferId, Transfer>, list: seq<TransferId>): map<TransferId, Transfer> {
    map x | x in transfers && !(x in list && transfers[x].completed) ::
      if x in list then transfers[x].(detached := true) else transfers[x]
  }

  lemma DetachedFlight(transfers: map<TransferId, Transfer>, list: seq<TransferId>, r: RepId)
    ensures InFlight(Detached(transfers, list), r) == InFlight(transfers, r)
  {
  }

  function Disowned(owner: map<TransferId, TransitionId>, list: seq<TransferId>): map<TransferId, TransitionId> {
    map x | x in owner && x !in list :: owner[x]
  }

  /** Without the transition `t`. */
  function Closed(w: World, t: TransitionId): World
    requires t in w.transitions
  {
    w.(transitions := w.transitions - {t},
       transfers := Detached(w.transfers, w.transitions[t].transfers),
       owner := Disowned(w.owner, w.transitions[t].transfers),
       representations := ReservationsLowered(w.representations, w.transitions[t].representations))
  }

  lemma ClosedSound(w: World, t: TransitionId)
    requires Sound(w) && t in w.transitions
    ensures Sound(Closed(w, t))
  {
    var v := Closed(w, t);
    assert TransitionHolds(w, t);
    forall k: nat
      ensures RefsHold(v, k)
    {
      assert RefsHold(w, k);
      ClosedRefs(w, t, k);
    }
    forall k: nat
      ensures BindingHolds(v, k) && TransitionHolds(v, k) && TransferHolds(v, k) && TableHolds(v, k) && IdHolds(v, k)
    {
      assert BindingHolds(w, k) && TransitionHolds(w, k) && TransferHolds(w, k);
      assert TableHolds(w, k) && IdHolds(w, k);
      if k != t && k in w.transitions {
        assert forall x :: x in w.transitions[k].transfers ==> x !in w.transitions[t].transfers;
      }
    }
  }

  lemma ClosedRefs(w: World, t: TransitionId, r: RepId)
    requires RefsHold(w, r) && t in w.transitions
    ensures RefsHold(Closed(w, t), r)
  {
    DetachedFlight(w.transfers, w.transitions[t].transfers, r);
    ReservedLess(w.transitions, t, r);
    if r in w.transitions[t].representations {
      OneMore(ReservedBy(w.transitions - {t}, r), ReservedBy(w.transitions, r), t);
    }
  }
}

/** Device capacity and the order in which unprotected representations leave the device. */
module Eviction {
  import opened Options
  import opened Totals
  import opened PhysicalModel

  datatype Capacity = Capacity(device: nat, host: nat)

  function DeviceBytes(reps: Representations): map<RepId, nat> {
    map r | r in reps :: if reps[r].device then reps[r].bytes else 0
  }

  function HostBytes(reps: Representations): map<RepId, nat> {
    map r | r in reps :: if reps[r].host then reps[r].bytes else 0
  }

  /** What `protected_device_bytes` sums: bound, not merely protected. */
  function ActiveBytes(reps: Representations): map<RepId, nat> {
    map r | r in reps :: if reps[r].device && reps[r].active != 0 then reps[r].bytes else 0
  }

  function WarmBytes(reps: Representations): map<RepId, nat> {
    map r | r in reps :: if reps[r].device && !Protected(reps[r]) then reps[r].bytes else 0
  }

  function ReservedBytes(transitions: map<TransitionId, Transition>): map<TransitionId, nat> {
    map t | t in transitions :: transitions[t].reserved
  }

  function DetachedBytes(transfers: map<TransferId, Transfer>): map<TransferId, nat> {
    map x | x in transfers :: if transfers[x].detached && !transfers[x].completed then transfers[x].bytes else 0
  }

  /** What is guarded against newcomers: what is bound, and every reservation. */
  ghost function Guards(w: World): nat {
    Total(ActiveBytes(w.representations)) + Total(w.growth) + Total(ReservedBytes(w.transitions))
    + Total(DetachedBytes(w.transfers))
  }

  ghost function DeviceUsed(reps: Representations): nat {
    Total(DeviceBytes(reps))
  }

  ghost function HostUsed(reps: Representations): nat {
    Total(HostBytes(reps))
  }

  ghost predicate WithinCapacity(capacity: Capacity, reps: Representations) {
    DeviceUsed(reps) <= capacity.device && HostUsed(reps) <= capacity.host
  }

  ghost predicate RoomFor(reps: Representations, additional: nat, limit: nat) {
    DeviceUsed(reps) + additional <= limit
  }

  /** One representation enters or leaves tiers. */
  lemma UsedAfter(reps: Representations, r: RepId, s: Representation)
    requires r in reps && s.bytes == reps[r].bytes
    ensures DeviceUsed(reps[r := s]) + (if reps[r].device then s.bytes else 0)
            == DeviceUsed(reps) + (if s.device then s.bytes else 0)
    ensures HostUsed(reps[r := s]) + (if reps[r].host then s.bytes else 0)
            == HostUsed(reps) + (if s.host then s.bytes else 0)
  {
    var (d, h) := (if s.device then s.bytes else 0, if s.host then s.bytes else 0);
    assert DeviceBytes(reps[r := s]) == DeviceBytes(reps)[r := d];
    assert HostBytes(reps[r := s]) == HostBytes(reps)[r := h];
    TotalUpdate(DeviceBytes(reps), r, d);
    TotalUpdate(HostBytes(reps), r, h);
  }

  lemma UsedWith(reps: Representations, r: RepId, s: Representation)
    requires r !in reps
    ensures DeviceUsed(reps[r := s]) == DeviceUsed(reps) + (if s.device then s.bytes else 0)
    ensures HostUsed(reps[r := s]) == HostUsed(reps) + (if s.host then s.bytes else 0)
  {
    var (d, h) := (if s.device then s.bytes else 0, if s.host then s.bytes else 0);
    assert DeviceBytes(reps[r := s]) == DeviceBytes(reps)[r := d];
    assert HostBytes(reps[r := s]) == HostBytes(reps)[r := h];
    TotalAdd(DeviceBytes(reps), r, d);
    TotalAdd(HostBytes(reps), r, h);
  }

  lemma UsedWithout(reps: Representations, r: RepId)
    requires r in reps
    ensures DeviceUsed(reps - {r}) <= DeviceUsed(reps) && HostUsed(reps - {r}) <= HostUsed(reps)
  {
    assert DeviceBytes(reps - {r}) == DeviceBytes(reps) - {r};
    assert HostBytes(reps - {r}) == HostBytes(reps) - {r};
    TotalWithout(DeviceBytes(reps), r);
    TotalWithout(HostBytes(reps), r);
  }

  /** Same tiers and sizes, same use. */
  predicate SameTiers(a: Representations, b: Representations) {
    && a.Keys == b.Keys
    && forall r :: r in a ==> b[r].device == a[r].device && b[r].host == a[r].host && b[r].bytes == a[r].bytes
  }

  lemma SameUse(a: Representations, b: Representations)
    requires SameTiers(a, b)
    ensures DeviceUsed(b) == DeviceUsed(a) && HostUsed(b) == HostUsed(a)
  {
    assert DeviceBytes(b) == DeviceBytes(a) && HostBytes(b) == HostBytes(a);
  }

  // ---- who leaves first ----

  predicate Evictable(reps: Representations, r: RepId) {
    r in reps && reps[r].device && !Protected(reps[r])
  }

  /** Less reuse value, then longer unused, then the smaller id. */
  predicate Sooner(reps: Representations, a: RepId, b: RepId) {
    && a in reps && b in reps
    && (|| reps[a].reuseValue < reps[b].reuseValue
        || (reps[a].reuseValue == reps[b].reuseValue
            && (reps[a].lastUsed < reps[b].lastUsed || (reps[a].lastUsed == reps[b].lastUsed && a < b))))
  }

  function Without(reps: Representations, victims: set<RepId>): Representations {
    map r | r in reps :: if r in victims then reps[r].(device := false) else reps[r]
  }

  predicate IsLast(reps: Representations, victims: set<RepId>, v: RepId) {
    v in victims && forall u :: u in victims && u != v ==> Sooner(reps, u, v)
  }

  /** The victims are evictable, all others leave later, and without the last of them it would not have fitted. */
  ghost predicate ShortestPrefix(reps: Representations, additional: nat, limit: nat, victims: set<RepId>) {
    && (forall v :: v in victims ==> Evictable(reps, v))
    && (forall v, u :: v in victims && u !in victims && Evictable(reps, u) ==> Sooner(reps, v, u))
    && (forall v :: IsLast(reps, victims, v) ==> !RoomFor(Without(reps, victims - {v}), additional, limit))
  }

  /** It fits, or nothing is left to evict. */
  ghost predicate Enough(reps: Representations, additional: nat, limit: nat, victims: set<RepId>) {
    RoomFor(Without(reps, victims), additional, limit) || forall r :: Evictable(reps, r) ==> r in victims
  }

  /** What asking for guarded capacity does: nothing if the request does not fit beside what is guarded, else it
      evicts until the request fits or nothing evictable is left. */
  ghost predicate RoomMade(reps: Representations, guarded: nat, additional: nat, limit: nat, ok: bool,
                           victims: set<RepId>)
  {
    if guarded + additional > limit then !ok && victims == {}
    else
      && ShortestPrefix(reps, additional, limit, victims)
      && (ok <==> RoomFor(Without(reps, victims), additional, limit))
      && (!ok ==> forall r :: Evictable(reps, r) ==> r in victims)
  }

  lemma WithoutNone(reps: Representations)
    ensures Without(reps, {}) == reps
  {
  }

  lemma WithoutMore(reps: Representations, victims: set<RepId>, v: RepId)
    requires v in reps && v !in victims
    ensures v in Without(reps, victims)
    ensures Without(reps, victims + {v}) == Without(reps, victims)[v := Without(reps, victims)[v].(device := false)]
  {
  }

  lemma WithoutUses(reps: Representations, few: set<RepId>, many: set<RepId>)
    requires few <= many
    ensures DeviceUsed(Without(reps, many)) <= DeviceUsed(Without(reps, few))
  {
    TotalLess(DeviceBytes(Without(reps, many)), DeviceBytes(Without(reps, few)));
  }

  lemma {:induction false} LastExists(reps: Representations, victims: set<RepId>) returns (last: RepId)
    requires victims != {} && forall v :: v in victims ==> v in reps
    ensures IsLast(reps, victims, last)
    decreases |victims|
  {
    var v :| v in victims;
    if victims == {v} {
      last := v;
    } else {
      var other := LastExists(reps, victims - {v});
      last := if Sooner(reps, v, other) then other else v;
      assert forall u :: u in victims && u != v && u != other ==> u in victims - {v} && Sooner(reps, u, other);
      assert last == v ==> Sooner(reps, other, v);
    }
  }

  /** One more victim, the first of those left. */
  lemma PrefixGrows(reps: Representations, additional: nat, limit: nat, victims: set<RepId>, v: RepId)
    requires ShortestPrefix(reps, additional, limit, victims)
    requires !RoomFor(Without(reps, victims), additional, limit)
    requires Evictable(reps, v) && v !in victims
    requires forall u :: Evictable(reps, u) && u !in victims && u != v ==> Sooner(reps, v, u)
    ensures ShortestPrefix(reps, additional, limit, victims + {v})
  {
    forall l | IsLast(reps, victims + {v}, l)
      ensures !RoomFor(Without(reps, victims + {v} - {l}), additional, limit)
    {
      assert l in victims ==> Sooner(reps, l, v) && Sooner(reps, v, l);
      assert victims + {v} - {v} == victims;
    }
  }

  /** Eviction takes the first of those still there. */
  lemma NextVictim(reps: Representations, additional: nat, limit: nat, victims: set<RepId>, v: RepId)
    requires ShortestPrefix(reps, additional, limit, victims)
    requires !RoomFor(Without(reps, victims), additional, limit)
    requires Evictable(Without(reps, victims), v)
    requires forall u :: Evictable(Without(reps, victims), u) && u != v ==> Sooner(Without(reps, victims), v, u)
    ensures v in reps && v !in victims
    ensures ShortestPrefix(reps, additional, limit, victims + {v})
    ensures Without(reps, victims + {v}) == Without(reps, victims)[v := Leave(Without(reps, victims)[v], Device)]
  {
    forall u | Evictable(reps, u) && u !in victims && u != v
      ensures Sooner(reps, v, u)
    {
      assert Evictable(Without(reps, victims), u);
    }
    PrefixGrows(reps, additional, limit, victims, v);
    WithoutMore(reps, victims, v);
  }

  lemma NoneLeft(reps: Representations, victims: set<RepId>)
    requires forall r :: !Evictable(Without(reps, victims), r)
    ensures forall r :: Evictable(reps, r) ==> r in victims
  {
    forall r | Evictable(reps, r)
      ensures r in victims
    {
      assert !Evictable(Without(reps, victims), r);
    }
  }

  /** The order and the request alone decide who is evicted. */
  lemma VictimsUnique(reps: Representations, additional: nat, limit: nat, a: set<RepId>, b: set<RepId>)
    requires ShortestPrefix(reps, additional, limit, a) && Enough(reps, additional, limit, a)
    requires ShortestPrefix(reps, additional, limit, b) && Enough(reps, additional, limit, b)
    ensures a == b
  {
    NoProperPrefix(reps, additional, limit, a, b);
    NoProperPrefix(reps, additional, limit, b, a);
    assert forall x, y :: x in a - b && y in b - a ==> Sooner(reps, x, y) && Sooner(reps, y, x);
    assert a - b == {} || b - a == {};
  }

  /** All that is evictable and leaves sooner than `r`. */
  function Ahead(reps: Representations, r: RepId): set<RepId> {
    set u | u in reps && Evictable(reps, u) && Sooner(reps, u, r)
  }

  /** Who is evicted can be told before: exactly those for whom it does not suffice that all ahead of them leave. */
  lemma VictimExact(reps: Representations, additional: nat, limit: nat, victims: set<RepId>, r: RepId)
    requires ShortestPrefix(reps, additional, limit, victims) && Enough(reps, additional, limit, victims)
    requires Evictable(reps, r)
    ensures r in victims <==> !RoomFor(Without(reps, Ahead(reps, r)), additional, limit)
  {
    var ahead := Ahead(reps, r);
    if r in victims {
      var last := LastExists(reps, victims);
      forall u | u in ahead
        ensures u in victims - {last}
      {
        assert u !in victims ==> Sooner(reps, r, u);
        assert u == last ==> Sooner(reps, r, u);
      }
      WithoutUses(reps, ahead, victims - {last});
    } else {
      assert forall v :: v in victims ==> Sooner(reps, v, r);
      WithoutUses(reps, victims, ahead);
    }
  }

  lemma NoProperPrefix(reps: Representations, additional: nat, limit: nat, a: set<RepId>, b: set<RepId>)
    requires ShortestPrefix(reps, additional, limit, a) && Enough(reps, additional, limit, a)
    requires ShortestPrefix(reps, additional, limit, b)
    ensures !(a < b)
  {
    if a < b {
      var last := LastExists(reps, b);
      var x :| x in b && x !in a;
      assert last in a ==> Sooner(reps, last, x) && Sooner(reps, x, last);
      WithoutUses(reps, a, b - {last});
    }
  }
}

/** When a transition can be committed, and that nothing but its own end takes that away. */
module Readiness {
  import opened Options
  import opened PhysicalModel

  datatype Error =
    | RepresentationNotFound
    | BindingNotFound
    | TransitionNotFound
    | TransferNotFound
    | GrowthReservationNotFound
    | DeviceCapacity
    | HostCapacity
    | InvalidComposite
    | NoPromotionSource
    | TransferPending
    | TransferFailed
    | StaleRevision
    | ProtectedByOwner

  datatype Result<+T> = Success(value: T) | Failure(error: Error)

  /** The first transfer in order that has not succeeded decides. */
  function TransferRefusal(transfers: map<TransferId, Transfer>, list: seq<TransferId>): Option<Error>
    requires forall x :: x in list ==> x in transfers
  {
    if list == [] then None
    else if !transfers[list[0]].completed then Some(TransferPending)
    else if !transfers[list[0]].success then Some(TransferFailed)
    else TransferRefusal(transfers, list[1..])
  }

  predicate AllOnDevice(reps: Representations, list: seq<RepId>)
    requires forall r :: r in list ==> r in reps
  {
    forall r :: r in list ==> reps[r].device
  }

  predicate Complete(w: World, t: TransitionId) {
    t in w.transitions ==>
      && (forall x :: x in w.transitions[t].transfers ==> x in w.transfers)
      && (forall r :: r in w.transitions[t].representations ==> r in w.representations)
  }

  /** Why a commit is refused; none if it is not. */
  function CommitRefusal(w: World, t: TransitionId, revision: nat): Option<Error>
    requires Complete(w, t)
  {
    if t !in w.transitions then Some(TransitionNotFound)
    else if w.transitions[t].revision != revision then Some(StaleRevision)
    else
      match TransferRefusal(w.transfers, w.transitions[t].transfers)
      case Some(error) => Some(error)
      case None =>
        if AllOnDevice(w.representations, w.transitions[t].representations) then None else Some(TransferPending)
  }

  /** Every transfer has succeeded, everything is on the device. */
  predicate Committable(w: World, t: TransitionId) {
    && t in w.transitions
    && (forall x :: x in w.transitions[t].transfers ==>
          x in w.transfers && w.transfers[x].completed && w.transfers[x].success)
    && (forall r :: r in w.transitions[t].representations ==>
          r in w.representations && w.representations[r].device)
  }

  lemma {:induction false} TransfersDone(transfers: map<TransferId, Transfer>, list: seq<TransferId>)
    requires forall x :: x in list ==> x in transfers
    ensures TransferRefusal(transfers, list).None? <==>
              forall x :: x in list ==> transfers[x].completed && transfers[x].success
  {
    if list != [] {
      TransfersDone(transfers, list[1..]);
      assert forall x :: x in list <==> x == list[0] || x in list[1..];
    }
  }

  /** The first that has not succeeded. */
  predicate FirstUndone(transfers: map<TransferId, Transfer>, list: seq<TransferId>, i: nat)
    requires forall x :: x in list ==> x in transfers
  {
    && i < |list| && !(transfers[list[i]].completed && transfers[list[i]].success)
    && forall j :: 0 <= j < i ==> transfers[list[j]].completed && transfers[list[j]].success
  }

  lemma {:induction false} UndoneRefused(transfers: map<TransferId, Transfer>, list: seq<TransferId>, i: nat)
    requires forall x :: x in list ==> x in transfers
    requires FirstUndone(transfers, list, i)
    ensures TransferRefusal(transfers, list) == Some(if transfers[list[i]].completed then TransferFailed else TransferPending)
  {
    if i > 0 {
      UndoneRefused(transfers, list[1..], i - 1);
    }
  }

  /** Why a commit is refused: no such transition, another revision, the first transfer that has not succeeded, or a part
      that is not on the device. */
  lemma RefusedBecause(w: World, t: TransitionId, revision: nat)
    requires Complete(w, t)
    ensures t !in w.transitions ==> CommitRefusal(w, t, revision) == Some(TransitionNotFound)
    ensures t in w.transitions && w.transitions[t].revision != revision ==>
              CommitRefusal(w, t, revision) == Some(StaleRevision)
    ensures t in w.transitions && w.transitions[t].revision == revision ==>
              && (forall i: nat :: FirstUndone(w.transfers, w.transitions[t].transfers, i) ==>
                    CommitRefusal(w, t, revision)
                    == Some(if w.transfers[w.transitions[t].transfers[i]].completed then TransferFailed else TransferPending))
              && ((forall x :: x in w.transitions[t].transfers ==> w.transfers[x].completed && w.transfers[x].success) ==>
                    CommitRefusal(w, t, revision)
                    == if forall r :: r in w.transitions[t].representations ==> w.representations[r].device
                       then None else Some(TransferPending))
  {
    if t in w.transitions {
      TransfersDone(w.transfers, w.transitions[t].transfers);
      forall i: nat | FirstUndone(w.transfers, w.transitions[t].transfers, i)
        ensures TransferRefusal(w.transfers, w.transitions[t].transfers)
                == Some(if w.transfers[w.transitions[t].transfers[i]].completed then TransferFailed else TransferPending)
      {
        UndoneRefused(w.transfers, w.transitions[t].transfers, i);
      }
    }
  }

  /** A commit goes through exactly at the prepared revision of a committable transition. */
  lemma RefusalExact(w: World, t: TransitionId, revision: nat)
    requires Complete(w, t)
    ensures CommitRefusal(w, t, revision).None? <==> Committable(w, t) && w.transitions[t].revision == revision
  {
    if t in w.transitions {
      TransfersDone(w.transfers, w.transitions[t].transfers);
    }
  }

  lemma SoundComplete(w: World, t: TransitionId)
    requires Sound(w)
    ensures Complete(w, t)
  {
    NothingDangles(w);
  }

  // ---- what other operations leave to a transition ----

  ghost predicate TransitionKept(a: World, b: World, t: TransitionId) {
    t in a.transitions ==>
      && t in b.transitions && b.transitions[t] == a.transitions[t]
      && (forall r :: r in a.transitions[t].representations && r in a.representations && a.representations[r].device ==>
            r in b.representations && b.representations[r].device)
      && (forall x :: x in a.transitions[t].transfers && x in a.transfers ==>
            && x in b.transfers && b.transfers[x].representation == a.transfers[x].representation
            && (a.transfers[x].completed ==> b.transfers[x] == a.transfers[x]))
  }

  /** Every transition but those in `except` is as ready as before. */
  ghost predicate TransitionsKept(a: World, b: World, except: set<TransitionId>) {
    forall t: TransitionId {:trigger TransitionKept(a, b, t)} :: t !in except ==> TransitionKept(a, b, t)
  }

  lemma StaysCommittable(a: World, b: World, t: TransitionId)
    requires Committable(a, t) && TransitionKept(a, b, t)
    ensures Committable(b, t)
  {
  }

  lemma KeptTransitive(a: World, b: World, c: World, except: set<TransitionId>)
    requires TransitionsKept(a, b, except) && TransitionsKept(b, c, except)
    ensures TransitionsKept(a, c, except)
  {
    forall t: TransitionId | t !in except
      ensures TransitionKept(a, c, t)
    {
      assert TransitionKept(a, b, t) && TransitionKept(b, c, t);
    }
  }

  /** Everything a transition needs is on the device or on its way. */
  ghost predicate Provided(w: World, t: TransitionId) {
    && t in w.transitions
    && forall r :: r in w.transitions[t].representations ==>
         r in w.representations
         && (w.representations[r].device
             || exists x :: x in w.transitions[t].transfers && x in w.transfers && w.transfers[x].representation == r)
  }

  /** Progress: a provided transition can be committed as soon as its transfers have succeeded. */
  lemma ProvidedCommits(w: World, t: TransitionId)
    requires Sound(w) && Provided(w, t)
    requires forall x :: x in w.transitions[t].transfers && x in w.transfers ==>
               w.transfers[x].completed && w.transfers[x].success
    ensures Committable(w, t)
  {
    assert TransitionHolds(w, t);
    forall x | x in w.transitions[t].transfers
      ensures x in w.transfers && w.transfers[x].representation in w.representations
      ensures w.representations[w.transfers[x].representation].device
    {
      assert TransferHolds(w, x);
    }
  }

  lemma StaysProvided(a: World, b: World, t: TransitionId)
    requires Sound(b) && Provided(a, t) && TransitionKept(a, b, t)
    ensures Provided(b, t)
  {
    NothingDangles(b);
    forall r | r in b.transitions[t].representations
      ensures r in b.representations
      ensures b.representations[r].device
              || exists x :: x in b.transitions[t].transfers && x in b.transfers && b.transfers[x].representation == r
    {
      if !a.representations[r].device {
        var x :| x in a.transitions[t].transfers && x in a.transfers && a.transfers[x].representation == r;
        assert x in b.transitions[t].transfers && x in b.transfers && b.transfers[x].representation == r;
      }
    }
  }

  // ---- the operations, one by one ----

  lemma TouchedKeeps(w: World, r: RepId, s: Representation)
    requires Sound(w) && r in w.representations && SameRole(w.representations[r], s)
    ensures TransitionsKept(w, w.(representations := w.representations[r := s]), {})
  {
    UnprotectedIsFree(w, r);
  }

  lemma RemovedKeeps(w: World, r: RepId)
    requires Sound(w) && r in w.representations && !Protected(w.representations[r])
    ensures TransitionsKept(w, w.(representations := w.representations - {r}), {})
  {
    UnprotectedIsFree(w, r);
  }

  /** Nothing leaves the device, no transfer changes. */
  lemma RestKept(a: World, b: World, except: set<TransitionId>)
    requires forall t :: t in a.transitions && t !in except ==> t in b.transitions && b.transitions[t] == a.transitions[t]
    requires forall r :: r in a.representations && a.representations[r].device ==>
               r in b.representations && b.representations[r].device
    requires forall x :: x in a.transfers ==> x in b.transfers && b.transfers[x] == a.transfers[x]
    ensures TransitionsKept(a, b, except)
  {
  }

  lemma EndedKeeps(w: World, x: TransferId, success: bool)
    requires Sound(w) && x in w.transfers && !w.transfers[x].completed
    requires w.transfers[x].representation in w.representations
    ensures TransitionsKept(w, Ended(w, x, success), {})
  {
    assert TransferHolds(w, x);
    forall t: TransitionId
      ensures TransitionKept(w, Ended(w, x, success), t)
    {
      assert TransitionHolds(w, t);
    }
  }

  lemma ClosedKeeps(w: World, t: TransitionId)
    requires Sound(w) && t in w.transitions
    ensures TransitionsKept(w, Closed(w, t), {t})
  {
    assert TransitionHolds(w, t);
    forall u: TransitionId | u != t
      ensures TransitionKept(w, Closed(w, t), u)
    {
      assert TransitionHolds(w, u);
      assert u in w.transitions ==>
          forall x :: x in w.transitions[u].transfers ==> x !in w.transitions[t].transfers;
    }
  }
}

/** Preparing, committing and aborting a transition, as functions on the whole state. */
module PhysicalTransitions {
  import opened Options
  import opened PrefixForest
  import opened Totals
  import opened PhysicalModel
  import opened Eviction
  import opened Readiness

  const USIZE_MAX: nat := 0xFFFF_FFFF_FFFF_FFFF

  // ---- what may be prepared ----

  /** The first representation in order that does not fit decides; at last the components must be the required ones. */
  function CompositeRefusal(reps: Representations, mapping: Id, end: nat, required: Mask, list: seq<RepId>,
                            present: Mask): Option<Error>
  {
    if list == [] then (if present == required then None else Some(InvalidComposite))
    else if list[0] !in reps then Some(RepresentationNotFound)
    else
      var r := reps[list[0]];
      if r.mapping != mapping || r.end != end || r.component in present then Some(InvalidComposite)
      else CompositeRefusal(reps, mapping, end, required, list[1..], present + {r.component})
  }

  /** Live, of this mapping and end, and of each required component exactly one. */
  ghost predicate Whole(reps: Representations, mapping: Id, end: nat, required: Mask, list: seq<RepId>) {
    && Composite(reps, mapping, list)
    && (forall r :: r in list ==> reps[r].end == end)
    && (set r | r in list :: reps[r].component) == required
  }

  lemma {:induction false} CompositeExact(reps: Representations, mapping: Id, end: nat, required: Mask, list: seq<RepId>,
                                          present: Mask)
    ensures CompositeRefusal(reps, mapping, end, required, list, present).None? <==>
            && Composite(reps, mapping, list)
            && (forall r :: r in list ==> reps[r].end == end && reps[r].component !in present)
            && present + (set r | r in list :: reps[r].component) == required
  {
    if list != [] && list[0] in reps {
      var first := reps[list[0]];
      CompositeExact(reps, mapping, end, required, list[1..], present + {first.component});
      CompositeSplits(reps, mapping, list);
      if forall r :: r in list[1..] ==> r in reps {
        ComponentsSplit(reps, list);
      }
    }
  }

  lemma CompositeSplits(reps: Representations, mapping: Id, list: seq<RepId>)
    requires list != [] && list[0] in reps
    ensures forall r :: r in list <==> r == list[0] || r in list[1..]
    ensures Composite(reps, mapping, list) <==>
            && reps[list[0]].mapping == mapping && Composite(reps, mapping, list[1..])
            && forall r :: r in list[1..] ==>
                 reps[r].component != reps[list[0]].component && reps[r].end == reps[list[0]].end
  {
    var tail := list[1..];
    if Composite(reps, mapping, tail) {
      assert forall i :: 0 <= i < |tail| ==> tail[i] == list[i + 1];
    }
  }

  lemma ComponentsSplit(reps: Representations, list: seq<RepId>)
    requires list != [] && forall r :: r in list ==> r in reps
    ensures (set r | r in list :: reps[r].component)
            == {reps[list[0]].component} + (set r | r in list[1..] :: reps[r].component)
  {
    assert forall r :: r in list <==> r == list[0] || r in list[1..];
  }

  /** Live, of this mapping and end, and of a component that is not there yet. */
  predicate PartFits(reps: Representations, mapping: Id, end: nat, list: seq<RepId>, present: Mask, i: nat)
    requires i < |list|
  {
    && list[i] in reps && reps[list[i]].mapping == mapping && reps[list[i]].end == end
    && reps[list[i]].component !in present
    && forall j :: 0 <= j < i ==> list[j] in reps ==> reps[list[j]].component != reps[list[i]].component
  }

  /** Why a list of parts is refused: the first that does not fit says whether it is missing or misplaced. */
  lemma {:induction false} UnfitRefused(reps: Representations, mapping: Id, end: nat, required: Mask, list: seq<RepId>,
                                        present: Mask, i: nat)
    requires i < |list| && !PartFits(reps, mapping, end, list, present, i)
    requires forall j :: 0 <= j < i ==> PartFits(reps, mapping, end, list, present, j)
    ensures CompositeRefusal(reps, mapping, end, required, list, present)
            == Some(if list[i] in reps then InvalidComposite else RepresentationNotFound)
  {
    if i > 0 {
      assert PartFits(reps, mapping, end, list, present, 0);
      var (more, rest) := (present + {reps[list[0]].component}, list[1..]);
      forall k | 0 <= k < |rest|
        ensures PartFits(reps, mapping, end, rest, more, k) <==> PartFits(reps, mapping, end, list, present, k + 1)
      {
        assert rest[k] == list[k + 1];
        assert forall j :: 0 < j < k + 1 ==> list[j] == rest[j - 1];
        assert forall j :: 0 <= j < k ==> rest[j] == list[j + 1];
      }
      UnfitRefused(reps, mapping, end, required, rest, more, i - 1);
    }
  }

  lemma CompositeWhole(reps: Representations, mapping: Id, end: nat, required: Mask, list: seq<RepId>)
    ensures CompositeRefusal(reps, mapping, end, required, list, {}).None? <==>
              Whole(reps, mapping, end, required, list)
  {
    CompositeExact(reps, mapping, end, required, list, {});
  }

  datatype Demand = Demand(bytes: nat, recompute: bool)

  predicate HasCopy(r: Representation) {
    r.host || r.storage
  }

  /** The bytes to bring onto the device, and whether some have to be computed again. */
  function Missing(reps: Representations, list: seq<RepId>, allowRecompute: bool, sofar: Demand): Result<Demand>
    requires forall r :: r in list ==> r in reps
  {
    if list == [] then Success(sofar)
    else
      var r := reps[list[0]];
      if r.device then Missing(reps, list[1..], allowRecompute, sofar)
      else if !HasCopy(r) && !allowRecompute then Failure(NoPromotionSource)
      else if sofar.bytes + r.bytes > USIZE_MAX then Failure(DeviceCapacity)
      else Missing(reps, list[1..], allowRecompute, Demand(sofar.bytes + r.bytes, sofar.recompute || !HasCopy(r)))
  }

  lemma {:induction false} MissingExact(reps: Representations, list: seq<RepId>, allowRecompute: bool, sofar: Demand)
    requires forall r :: r in list ==> r in reps
    ensures Missing(reps, list, allowRecompute, sofar).Success? ==>
              var demand := Missing(reps, list, allowRecompute, sofar).value;
              && (demand.bytes == 0 <==> sofar.bytes == 0 && forall r :: r in list ==> reps[r].device || reps[r].bytes == 0)
              && (demand.recompute <==>
                    sofar.recompute || exists r :: r in list && !reps[r].device && !HasCopy(reps[r]))
  {
    if list != [] {
      var r := reps[list[0]];
      var more := if r.device then sofar else Demand(sofar.bytes + r.bytes, sofar.recompute || !HasCopy(r));
      MissingExact(reps, list[1..], allowRecompute, more);
      assert forall x :: x in list <==> x == list[0] || x in list[1..];
    }
  }

  /** The bytes of all that is listed and off the device. */
  ghost function OffDevice(reps: Representations, list: seq<RepId>): nat
    requires forall r :: r in list ==> r in reps
  {
    Total(OffBytes(reps, list))
  }

  function OffBytes(reps: Representations, list: seq<RepId>): map<RepId, nat>
    requires forall r :: r in list ==> r in reps
  {
    map r | r in list :: if reps[r].device then 0 else reps[r].bytes
  }

  lemma OffDeviceFirst(reps: Representations, list: seq<RepId>)
    requires list != [] && list[0] !in list[1..] && forall r :: r in list ==> r in reps
    ensures OffDevice(reps, list)
            == OffDevice(reps, list[1..]) + if reps[list[0]].device then 0 else reps[list[0]].bytes
  {
    var first := list[0];
    assert forall r :: r in list <==> r == first || r in list[1..];
    assert OffBytes(reps, list) == OffBytes(reps, list[1..])[first := if reps[first].device then 0 else reps[first].bytes];
    TotalAdd(OffBytes(reps, list[1..]), first, if reps[first].device then 0 else reps[first].bytes);
  }

  predicate Different(list: seq<RepId>) {
    forall i, j :: 0 <= i < j < |list| ==> list[i] != list[j]
  }

  predicate CanReach(reps: Representations, r: RepId) {
    r in reps && (reps[r].device || HasCopy(reps[r]))
  }

  /** What is asked for are all bytes that are off the device. It is refused exactly if something cannot be brought there,
      or if that sum overflows. */
  lemma {:induction false} MissingTotal(reps: Representations, list: seq<RepId>, allowRecompute: bool, sofar: Demand)
    requires (forall r :: r in list ==> r in reps) && Different(list) && sofar.bytes <= USIZE_MAX
    ensures var asked := Missing(reps, list, allowRecompute, sofar);
            && (asked.Success? ==> asked.value.bytes == sofar.bytes + OffDevice(reps, list))
            && (asked.Success? <==>
                  && (allowRecompute || forall r {:trigger CanReach(reps, r)} :: r in list ==> CanReach(reps, r))
                  && sofar.bytes + OffDevice(reps, list) <= USIZE_MAX)
  {
    if list == [] {
      assert OffBytes(reps, list) == map[];
    } else {
      var r := reps[list[0]];
      var more := if r.device then sofar else Demand(sofar.bytes + r.bytes, sofar.recompute || !HasCopy(r));
      OffDeviceFirst(reps, list);
      ReachFirst(reps, list);
      if more.bytes <= USIZE_MAX {
        MissingTotal(reps, list[1..], allowRecompute, more);
      }
    }
  }

  lemma ReachFirst(reps: Representations, list: seq<RepId>)
    requires list != []
    ensures (forall r {:trigger CanReach(reps, r)} :: r in list ==> CanReach(reps, r))
            <==> CanReach(reps, list[0]) && forall r {:trigger CanReach(reps, r)} :: r in list[1..] ==> CanReach(reps, r)
  {
    assert forall x :: x in list <==> x == list[0] || x in list[1..];
  }

  /** The error names the first thing that is in the way. */
  lemma {:induction false} MissingFails(reps: Representations, list: seq<RepId>, allowRecompute: bool, sofar: Demand)
    requires (forall r :: r in list ==> r in reps) && Different(list) && sofar.bytes <= USIZE_MAX
    ensures var asked := Missing(reps, list, allowRecompute, sofar);
            && (asked.Failure? ==> asked.error == NoPromotionSource || asked.error == DeviceCapacity)
            && (asked == Failure(NoPromotionSource) ==>
                  !allowRecompute && exists r :: r in list && !reps[r].device && !HasCopy(reps[r]))
            && (asked == Failure(DeviceCapacity) ==> sofar.bytes + OffDevice(reps, list) > USIZE_MAX)
  {
    if list != [] {
      var r := reps[list[0]];
      var more := if r.device then sofar else Demand(sofar.bytes + r.bytes, sofar.recompute || !HasCopy(r));
      OffDeviceFirst(reps, list);
      if more.bytes <= USIZE_MAX {
        MissingFails(reps, list[1..], allowRecompute, more);
      }
    }
  }

  // ---- preparing ----

  /** The transition as it is when it has reserved nothing yet. */
  function Opened(w: World, transition: Transition): World {
    w.(next := w.next + 1, transitions := w.transitions[w.next := transition])
  }

  predicate NeedsTransfer(r: Representation) {
    !r.device && HasCopy(r)
  }

  /** The transition `t` takes on one more representation. */
  function TakenOn(w: World, t: TransitionId, r: RepId): World
    requires t in w.transitions && r in w.representations
  {
    if NeedsTransfer(w.representations[r]) then Transferring(Reserved(w, t, r), t, r) else Reserved(w, t, r)
  }

  lemma TakenOnSound(w: World, t: TransitionId, r: RepId)
    requires Sound(w) && t in w.transitions && r in w.representations
    requires Composite(w.representations, w.transitions[t].mapping, w.transitions[t].representations + [r])
    ensures Sound(TakenOn(w, t, r))
    ensures w.next !in w.transfers && w.next !in w.owner
    ensures TransitionsKept(w, TakenOn(w, t, r), {t})
  {
    assert TransferHolds(w, w.next);
    ReservedSound(w, t, r);
    if NeedsTransfer(w.representations[r]) {
      TransferringSound(Reserved(w, t, r), t, r);
    }
    RestKept(w, TakenOn(w, t, r), {t});
  }

  /** Nothing but reference counts differs. */
  predicate SameButCounts(a: Representations, b: Representations) {
    && a.Keys == b.Keys
    && forall r :: r in a ==>
         b[r] == a[r].(active := b[r].active, reservations := b[r].reservations, transfers := b[r].transfers,
                       lastUsed := b[r].lastUsed)
  }

  lemma SameComposite(a: Representations, b: Representations, mapping: Id, list: seq<RepId>)
    requires SameButCounts(a, b) && Composite(a, mapping, list)
    ensures Composite(b, mapping, list)
  {
  }

  /** The transition `t` has taken on all of `list`. */
  function TakenOnAll(w: World, t: TransitionId, list: seq<RepId>): (v: World)
    requires t in w.transitions && forall r :: r in list ==> r in w.representations
    ensures t in v.transitions && v.representations.Keys == w.representations.Keys
    ensures v.growth == w.growth && v.bindings == w.bindings && v.tables == w.tables
  {
    if list == [] then w
    else TakenOn(TakenOnAll(w, t, list[..|list| - 1]), t, list[|list| - 1])
  }

  ghost predicate Reserves(w: World, v: World, t: TransitionId, list: seq<RepId>)
    requires t in w.transitions
  {
    && t in v.transitions
    && v.transitions[t] == w.transitions[t].(representations := list, transfers := v.transitions[t].transfers)
    && v.transitions.Keys == w.transitions.Keys
    && SameButCounts(w.representations, v.representations)
  }

  lemma ReservesMore(w: World, u: World, t: TransitionId, most: seq<RepId>, last: RepId)
    requires t in w.transitions && Reserves(w, u, t, most) && last in w.representations
    ensures last in u.representations && Reserves(w, TakenOn(u, t, last), t, most + [last])
  {
    TakenOnTransition(u, t, last);
    TakenOnCounts(w.representations, u, t, last);
  }

  lemma TakenOnTransition(u: World, t: TransitionId, r: RepId)
    requires t in u.transitions && r in u.representations
    ensures t in TakenOn(u, t, r).transitions
    ensures var transition := TakenOn(u, t, r).transitions[t];
            && transition == u.transitions[t].(representations := u.transitions[t].representations + [r],
                                               transfers := transition.transfers)
            && TakenOn(u, t, r).transitions == u.transitions[t := transition]
  {
  }

  lemma TakenOnCounts(a: Representations, u: World, t: TransitionId, r: RepId)
    requires t in u.transitions && r in u.representations && SameButCounts(a, u.representations)
    ensures SameButCounts(a, TakenOn(u, t, r).representations)
  {
    var s := TakenOn(u, t, r).representations[r];
    assert TakenOn(u, t, r).representations == u.representations[r := s];
    SameButCountsMore(a, u.representations, r, s);
  }

  lemma SameButCountsMore(a: Representations, b: Representations, r: RepId, s: Representation)
    requires SameButCounts(a, b) && r in b
    requires s == b[r].(active := s.active, reservations := s.reservations, transfers := s.transfers)
    ensures SameButCounts(a, b[r := s])
  {
  }

  /** What a transition that has taken on `list` is: `list` is what it reserves, what can be transferred is. */
  ghost predicate TookOn(w: World, v: World, t: TransitionId, list: seq<RepId>)
    requires t in w.transitions
  {
    && Sound(v) && Reserves(w, v, t, list)
    && TransitionsKept(w, v, {t})
    && (forall r :: r in list ==> r in w.representations)
    && (forall x: TransferId {:trigger Moves(w, v, t, list, x)} :: Moves(w, v, t, list, x))
    && (forall r: RepId {:trigger Supplied(v, t, r)} :: r in list && NeedsTransfer(w.representations[r]) ==> Supplied(v, t, r))
  }

  /** A transfer of `t` is in flight and moves something that needs it. */
  ghost predicate Moves(w: World, v: World, t: TransitionId, list: seq<RepId>, x: TransferId)
    requires t in v.transitions
  {
    x in v.transitions[t].transfers ==>
      && x in v.transfers && !v.transfers[x].completed && !v.transfers[x].detached
      && v.transfers[x].representation in list && v.transfers[x].representation in w.representations
      && NeedsTransfer(w.representations[v.transfers[x].representation])
  }

  ghost predicate Supplied(v: World, t: TransitionId, r: RepId)
    requires t in v.transitions
  {
    exists x :: x in v.transitions[t].transfers && x in v.transfers && v.transfers[x].representation == r
  }

  lemma {:induction false} TookOnAll(w: World, t: TransitionId, list: seq<RepId>)
    requires Sound(w) && t in w.transitions
    requires w.transitions[t].representations == [] && w.transitions[t].transfers == []
    requires Composite(w.representations, w.transitions[t].mapping, list)
    ensures TookOn(w, TakenOnAll(w, t, list), t, list)
  {
    if list == [] {
      RestKept(w, w, {t});
    } else {
      var most, last := list[..|list| - 1], list[|list| - 1];
      assert most + [last] == list;
      NotYet(w.representations, w.transitions[t].mapping, most, last);
      TookOnAll(w, t, most);
      TookOneMore(w, TakenOnAll(w, t, most), t, most, last);
    }
  }

  lemma TookOneMore(w: World, u: World, t: TransitionId, most: seq<RepId>, last: RepId)
    requires t in w.transitions && TookOn(w, u, t, most) && last in w.representations
    requires Composite(w.representations, w.transitions[t].mapping, most + [last])
    ensures TookOn(w, TakenOn(u, t, last), t, most + [last])
  {
    var v := TakenOn(u, t, last);
    SameComposite(w.representations, u.representations, w.transitions[t].mapping, most + [last]);
    TakenOnSound(u, t, last);
    KeptTransitive(w, u, v, {t});
    ReservesMore(w, u, t, most, last);
    forall x: TransferId
      ensures Moves(w, v, t, most + [last], x)
    {
      OneMoreMoves(w, u, t, most, last, x);
    }
    forall r: RepId | r in most + [last] && NeedsTransfer(w.representations[r])
      ensures Supplied(v, t, r)
    {
      OneMoreSupplied(w, u, t, most, last, r);
    }
  }

  lemma OneMoreMoves(w: World, u: World, t: TransitionId, most: seq<RepId>, last: RepId, x: TransferId)
    requires t in w.transitions && t in u.transitions && Moves(w, u, t, most, x)
    requires SameButCounts(w.representations, u.representations)
    requires last in w.representations && u.next !in u.transfers
    ensures Moves(w, TakenOn(u, t, last), t, most + [last], x)
  {
    var v := TakenOn(u, t, last);
    if x in v.transitions[t].transfers {
      assert x in u.transitions[t].transfers || (x == u.next && NeedsTransfer(u.representations[last]));
    }
  }

  lemma OneMoreSupplied(w: World, u: World, t: TransitionId, most: seq<RepId>, last: RepId, r: RepId)
    requires t in w.transitions && TookOn(w, u, t, most) && last in w.representations
    requires u.next !in u.transfers
    requires r in w.representations && r in most + [last] && NeedsTransfer(w.representations[r])
    ensures Supplied(TakenOn(u, t, last), t, r)
  {
    if r in most {
      assert Supplied(u, t, r);
      StaysSupplied(u, t, last, r);
    } else {
      assert r == last;
      assert NeedsTransfer(u.representations[last]);
      NewlySupplied(u, t, last);
    }
  }

  lemma StaysSupplied(u: World, t: TransitionId, last: RepId, r: RepId)
    requires t in u.transitions && last in u.representations && u.next !in u.transfers && Supplied(u, t, r)
    ensures Supplied(TakenOn(u, t, last), t, r)
  {
    var v := TakenOn(u, t, last);
    var x :| x in u.transitions[t].transfers && x in u.transfers && u.transfers[x].representation == r;
    assert x in v.transitions[t].transfers && x in v.transfers && v.transfers[x].representation == r;
  }

  lemma NewlySupplied(u: World, t: TransitionId, last: RepId)
    requires t in u.transitions && last in u.representations && NeedsTransfer(u.representations[last])
    ensures Supplied(TakenOn(u, t, last), t, last)
  {
    var v := TakenOn(u, t, last);
    assert u.next in v.transitions[t].transfers && v.transfers[u.next].representation == last;
  }

  /** What preparing a transition asks for, or why it is refused before anything happens. */
  function Asked(reps: Representations, mapping: Id, end: nat, required: Mask, list: seq<RepId>, allowRecompute: bool):
    Result<Demand>
  {
    var refused := CompositeRefusal(reps, mapping, end, required, list, {});
    if refused.Some? then Failure(refused.value)
    else
      CompositeWhole(reps, mapping, end, required, list);
      Missing(reps, list, allowRecompute, Demand(0, false))
  }

  /** What is asked for, from the representations alone. */
  lemma AskedExact(reps: Representations, mapping: Id, end: nat, required: Mask, list: seq<RepId>, allowRecompute: bool)
    ensures var asked := Asked(reps, mapping, end, required, list, allowRecompute);
            && (asked.Success? ==>
                  && Whole(reps, mapping, end, required, list)
                  && asked.value.bytes == OffDevice(reps, list)
                  && (asked.value.recompute <==> exists r :: r in list && !reps[r].device && !HasCopy(reps[r])))
            && (asked.Success? <==>
                  && Whole(reps, mapping, end, required, list) && OffDevice(reps, list) <= USIZE_MAX
                  && (allowRecompute || forall r {:trigger CanReach(reps, r)} :: r in list ==> CanReach(reps, r)))
  {
    CompositeWhole(reps, mapping, end, required, list);
    if Whole(reps, mapping, end, required, list) {
      MissingTotal(reps, list, allowRecompute, Demand(0, false));
      MissingExact(reps, list, allowRecompute, Demand(0, false));
    }
  }

  function KindOf(demand: Demand, bound: bool): Kind {
    if demand.recompute then Recompute
    else if demand.bytes == 0 then ReferenceOnly
    else if bound then NonDestructive
    else Quiesced
  }

  /** What kind of transition it is. */
  lemma KindExact(demand: Demand, bound: bool)
    ensures KindOf(demand, bound) == Recompute <==> demand.recompute
    ensures KindOf(demand, bound) == ReferenceOnly <==> !demand.recompute && demand.bytes == 0
    ensures KindOf(demand, bound) == NonDestructive <==> !demand.recompute && demand.bytes > 0 && bound
    ensures KindOf(demand, bound) == Quiesced <==> !demand.recompute && demand.bytes > 0 && !bound
  {
  }

  lemma WithoutComposite(reps: Representations, victims: set<RepId>, mapping: Id, list: seq<RepId>)
    requires Composite(reps, mapping, list)
    ensures Composite(Without(reps, victims), mapping, list)
  {
  }

  function PreparedWith(w: World, transition: Transition, list: seq<RepId>): (v: World)
    requires forall r :: r in list ==> r in w.representations
    ensures w.next in v.transitions
  {
    TakenOnAll(Opened(w, transition), w.next, list)
  }

  lemma PreparedSound(w: World, transition: Transition, list: seq<RepId>)
    requires Sound(w) && transition.representations == [] && transition.transfers == []
    requires Composite(w.representations, transition.mapping, list)
    ensures var v := PreparedWith(w, transition, list);
            && Sound(v) && TransitionsKept(w, v, {})
            && v.transitions[w.next] ==
                 transition.(representations := list, transfers := v.transitions[w.next].transfers)
            && DeviceUsed(v.representations) == DeviceUsed(w.representations)
            && HostUsed(v.representations) == HostUsed(w.representations)
            && |v.transitions| == |w.transitions| + 1
  {
    var u := Opened(w, transition);
    var v := PreparedWith(w, transition, list);
    PreparedTook(w, transition, list);
    RestKept(w, u, {});
    KeptBesidesNew(w, u, v, w.next);
    SameUse(w.representations, v.representations);
  }

  lemma PreparedTook(w: World, transition: Transition, list: seq<RepId>)
    requires Sound(w) && transition.representations == [] && transition.transfers == []
    requires Composite(w.representations, transition.mapping, list)
    ensures w.next !in w.transitions
    ensures TookOn(Opened(w, transition), PreparedWith(w, transition, list), w.next, list)
  {
    OpenedSound(w, transition);
    TookOnAll(Opened(w, transition), w.next, list);
  }

  lemma KeptBesidesNew(w: World, u: World, v: World, t: TransitionId)
    requires TransitionsKept(w, u, {}) && TransitionsKept(u, v, {t}) && t !in w.transitions
    ensures TransitionsKept(w, v, {})
  {
    forall x: TransitionId
      ensures TransitionKept(w, v, x)
    {
      assert TransitionKept(w, u, x) && (x != t ==> TransitionKept(u, v, x));
    }
  }

  /** The new transition is for this context, revision, mapping and composite, and has reserved all bytes that were off
      the device. Nothing is bound yet. */
  lemma PreparedRecords(w: World, transition: Transition, list: seq<RepId>)
    requires Sound(w) && transition.representations == [] && transition.transfers == []
    requires Composite(w.representations, transition.mapping, list)
    ensures var v := PreparedWith(w, transition, list);
            && v.transitions[w.next].context == transition.context
            && v.transitions[w.next].revision == transition.revision
            && v.transitions[w.next].mapping == transition.mapping
            && v.transitions[w.next].representations == list
            && v.transitions[w.next].reserved == transition.reserved
            && v.transitions[w.next].kind == transition.kind
            && v.transitions - {w.next} == w.transitions
            && v.bindings == w.bindings && v.growth == w.growth && v.tables == w.tables
  {
    PreparedTook(w, transition, list);
    assert (w.transitions[w.next := transition]) - {w.next} == w.transitions;
    TakenOnOthers(Opened(w, transition), w.next, list);
  }

  lemma {:induction false} TakenOnOthers(w: World, t: TransitionId, list: seq<RepId>)
    requires t in w.transitions && forall r :: r in list ==> r in w.representations
    ensures TakenOnAll(w, t, list).transitions - {t} == w.transitions - {t}
    ensures TakenOnAll(w, t, list).transitions[t].context == w.transitions[t].context
  {
    if list != [] {
      var most, last := list[..|list| - 1], list[|list| - 1];
      TakenOnOthers(w, t, most);
      TakenOnTransition(TakenOnAll(w, t, most), t, last);
    }
  }

  /** What needs a transfer has one, so a freshly prepared transition is provided for exactly if nothing is off the
      device without a copy. */
  lemma PreparedProvided(w: World, transition: Transition, list: seq<RepId>)
    requires Sound(w) && transition.representations == [] && transition.transfers == []
    requires Composite(w.representations, transition.mapping, list)
    ensures Provided(PreparedWith(w, transition, list), w.next) <==>
            forall r :: r in list ==> w.representations[r].device || HasCopy(w.representations[r])
  {
    var u := Opened(w, transition);
    var v := PreparedWith(w, transition, list);
    PreparedTook(w, transition, list);
    forall r | r in list
      ensures r in v.representations && v.representations[r].device == w.representations[r].device
      ensures Supplied(v, w.next, r) <==> NeedsTransfer(w.representations[r])
    {
      assert NeedsTransfer(u.representations[r]) ==> Supplied(v, w.next, r);
      if Supplied(v, w.next, r) {
        var x :| x in v.transitions[w.next].transfers && x in v.transfers && v.transfers[x].representation == r;
        assert Moves(u, v, w.next, list, x);
      }
    }
  }

  /** It can be committed at once exactly if nothing is off the device. */
  lemma PreparedStands(w: World, transition: Transition, list: seq<RepId>)
    requires Sound(w) && transition.representations == [] && transition.transfers == []
    requires Composite(w.representations, transition.mapping, list)
    ensures Committable(PreparedWith(w, transition, list), w.next) <==>
            forall r :: r in list ==> w.representations[r].device
  {
    var u := Opened(w, transition);
    var v := PreparedWith(w, transition, list);
    PreparedTook(w, transition, list);
    assert forall r :: r in list ==> r in v.representations && v.representations[r].device == w.representations[r].device;
    if forall r :: r in list ==> w.representations[r].device {
      NothingMoves(u, v, w.next, list);
    }
  }

  lemma NothingMoves(u: World, v: World, t: TransitionId, list: seq<RepId>)
    requires t in u.transitions && TookOn(u, v, t, list)
    requires forall r :: r in list && r in u.representations ==> u.representations[r].device
    ensures forall x :: x !in v.transitions[t].transfers
  {
    forall x: TransferId
      ensures x !in v.transitions[t].transfers
    {
      assert Moves(u, v, t, list, x);
    }
  }

  /** Asking for what fits evicts nobody. */
  lemma NobodyLeaves(reps: Representations, additional: nat, limit: nat, victims: set<RepId>)
    requires RoomFor(reps, additional, limit) && ShortestPrefix(reps, additional, limit, victims)
    ensures victims == {}
  {
    if victims != {} {
      var last := LastExists(reps, victims);
      WithoutNone(reps);
      WithoutUses(reps, {}, victims - {last});
    }
  }

  // ---- committing ----

  function Released(w: World, c: ContextId): World {
    if c in w.bindings then Unbound(w, c) else w
  }

  /** The transition ends, the old binding of its context goes, what it reserved is bound. */
  function Committed(w: World, t: TransitionId, clock: nat): World
    requires t in w.transitions
  {
    var transition := w.transitions[t];
    Bound(Released(Closed(w, t), transition.context), transition.context, transition.mapping,
          transition.representations, clock)
  }

  lemma ReleasedSound(w: World, c: ContextId)
    requires Sound(w)
    ensures Sound(Released(w, c)) && c !in Released(w, c).bindings && c !in Released(w, c).tables
    ensures SameButCounts(w.representations, Released(w, c).representations)
    ensures TransitionsKept(w, Released(w, c), {})
  {
    assert TableHolds(w, c);
    if c in w.bindings {
      UnboundSound(w, c);
    }
    RestKept(w, Released(w, c), {});
  }

  /** The transition ended and the old binding released, what it reserved is still a composite. */
  lemma SwitchSteps(w: World, t: TransitionId)
    requires Sound(w) && Committable(w, t)
    ensures Sound(Closed(w, t)) && SameButCounts(w.representations, Closed(w, t).representations)
    ensures var transition := w.transitions[t];
            var released := Released(Closed(w, t), transition.context);
            && Sound(released) && SameButCounts(Closed(w, t).representations, released.representations)
            && transition.context !in released.bindings && transition.context !in released.tables
            && Composite(released.representations, transition.mapping, transition.representations)
            && OnDevice(released.representations, transition.representations)
            && SameTiers(w.representations, released.representations)
  {
    var transition := w.transitions[t];
    var list := transition.representations;
    assert TransitionHolds(w, t);
    var closed := Closed(w, t);
    ClosedSound(w, t);
    ReleasedSound(closed, transition.context);
    SameComposite(w.representations, closed.representations, transition.mapping, list);
    SameComposite(closed.representations, Released(closed, transition.context).representations, transition.mapping, list);
  }

  lemma SwitchKeeps(w: World, t: TransitionId)
    requires Sound(w) && t in w.transitions
    ensures TransitionsKept(w, Released(Closed(w, t), w.transitions[t].context), {t})
  {
    var closed, c := Closed(w, t), w.transitions[t].context;
    ClosedSound(w, t);
    ClosedKeeps(w, t);
    ReleasedSound(closed, c);
    KeptTransitive(w, closed, Released(closed, c), {t});
  }

  lemma CommittedSound(w: World, t: TransitionId, clock: nat)
    requires Sound(w) && Committable(w, t)
    ensures Sound(Committed(w, t, clock))
    ensures SameTiers(w.representations, Committed(w, t, clock).representations)
    ensures TransitionsKept(w, Committed(w, t, clock), {t})
  {
    var transition := w.transitions[t];
    var released := Released(Closed(w, t), transition.context);
    SwitchSteps(w, t);
    SwitchKeeps(w, t);
    BoundSound(released, transition.context, transition.mapping, transition.representations, clock);
    BoundKeeps(released, transition.context, transition.mapping, transition.representations, clock, {t});
    KeptTransitive(w, released, Committed(w, t, clock), {t});
  }

  lemma BoundKeeps(w: World, c: ContextId, mapping: Id, list: seq<RepId>, clock: nat, except: set<TransitionId>)
    ensures SameTiers(w.representations, Bound(w, c, mapping, list, clock).representations)
    ensures TransitionsKept(w, Bound(w, c, mapping, list, clock), except)
  {
    RestKept(w, Bound(w, c, mapping, list, clock), except);
  }
}
