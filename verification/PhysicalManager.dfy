/**
 The physical manager: which tier each cached component is in, and who may move it.

 Every operation is told apart from its bookkeeping: the new state is one of the functions of `PhysicalModel`, of
 which soundness and readiness are proved there.
 */
module Physical {
  import opened Options
  import opened PrefixForest
  import opened Totals
  import opened PhysicalModel
  import opened Eviction
  import opened Readiness
  import opened PhysicalTransitions

  datatype Gauges = Gauges(active: nat, growth: nat, transition: nat, detached: nat, warm: nat, host: nat)

  ghost function GaugesOf(w: World): Gauges {
    Gauges(Total(ActiveBytes(w.representations)), Total(w.growth), Total(ReservedBytes(w.transitions)),
           Total(DetachedBytes(w.transfers)), Total(WarmBytes(w.representations)), HostUsed(w.representations))
  }

  /** A representation that is protected, or that does not exist, moves nowhere. */
  function MoveRefusal(reps: Representations, id: RepId): Option<Error> {
    if id !in reps then Some(RepresentationNotFound)
    else if Protected(reps[id]) then Some(ProtectedByOwner)
    else None
  }

  class PhysicalManager {
    const capacity: Capacity
    var nextId: nat
    var clock: nat
    var representations: Representations
    var bindings: map<ContextId, Binding>
    var transitions: map<TransitionId, Transition>
    var transfers: map<TransferId, Transfer>
    var growth: map<GrowthId, nat>
    var tables: map<ContextId, Table>
    var gauges: Gauges
    var prepared: nat
    var committed: nat
    var aborted: nat
    ghost var owner: map<TransferId, TransitionId>

    ghost function View(): World
      reads this
    {
      World(nextId, representations, bindings, transitions, transfers, growth, tables, owner)
    }

    /** All but the gauges, which are refreshed at the end of an operation. */
    ghost predicate Consistent()
      reads this
    {
      && Sound(View())
      && WithinCapacity(capacity, representations)
      && prepared == committed + aborted + |transitions|
    }

    ghost predicate Valid()
      reads this
    {
      Consistent() && gauges == GaugesOf(View())
    }

    constructor (capacity: Capacity)
      ensures Valid() && this.capacity == capacity && clock == 0
      ensures View() == World(1, map[], map[], map[], map[], map[], map[], map[])
    {
      this.capacity := capacity;
      nextId, clock := 1, 0;
      representations, bindings, transitions, transfers, growth, tables := map[], map[], map[], map[], map[], map[];
      gauges := Gauges(0, 0, 0, 0, 0, 0);
      prepared, committed, aborted := 0, 0, 0;
      owner := map[];
      new;
      assert BoundBy(map[], 0) == {};
      Refresh();
    }

    // ---- gauges and capacity ----

    method Refresh()
      requires Consistent()
      modifies this`gauges
      ensures Valid() && View() == old(View())
    {
      var active := Sum(ActiveBytes(representations));
      var grown := Sum(growth);
      var transition := Sum(ReservedBytes(transitions));
      var detached := Sum(DetachedBytes(transfers));
      var warm := Sum(WarmBytes(representations));
      var host := Sum(HostBytes(representations));
      gauges := Gauges(active, grown, transition, detached, warm, host);
    }

    /** Changes one representation without changing what protects it. */
    method Touch(id: RepId, s: Representation)
      requires Valid() && id in representations && SameRole(representations[id], s)
      requires WithinCapacity(capacity, representations[id := s])
      modifies this`representations, this`gauges
      ensures Valid() && representations == old(representations)[id := s]
      ensures View() == old(View()).(representations := representations)
      ensures TransitionsKept(old(View()), View(), {})
    {
      Touched(View(), id, s);
      TouchedKeeps(View(), id, s);
      representations := representations[id := s];
      assert View() == old(View()).(representations := representations);
      Refresh();
    }

    /** Takes one representation off one tier. */
    method Evict(id: RepId, tier: Tier) returns (refused: Option<Error>)
      requires Valid()
      modifies this`representations, this`gauges
      ensures Valid()
      ensures refused == MoveRefusal(old(representations), id)
      ensures representations == if refused.Some? then old(representations)
                                 else old(representations)[id := Leave(old(representations)[id], tier)]
      ensures View() == old(View()).(representations := representations)
      ensures TransitionsKept(old(View()), View(), {})
    {
      if id !in representations {
        return Some(RepresentationNotFound);
      }
      if Protected(representations[id]) {
        return Some(ProtectedByOwner);
      }
      UsedAfter(representations, id, Leave(representations[id], tier));
      Touch(id, Leave(representations[id], tier));
      return None;
    }

    /** The evictable representation that is to leave first. */
    method FindVictim() returns (victim: Option<RepId>)
      ensures victim.None? ==> forall r :: !Evictable(representations, r)
      ensures victim.Some? ==>
                && Evictable(representations, victim.value)
                && forall r :: Evictable(representations, r) && r != victim.value ==> Sooner(representations, victim.value, r)
    {
      victim := None;
      var rest := representations.Keys;
      while rest != {}
        invariant rest <= representations.Keys
        invariant victim.None? ==> forall r :: r !in rest ==> !Evictable(representations, r)
        invariant victim.Some? ==>
                    && Evictable(representations, victim.value)
                    && forall r :: r !in rest && Evictable(representations, r) && r != victim.value ==>
                         Sooner(representations, victim.value, r)
        decreases rest
      {
        var r :| r in rest;
        rest := rest - {r};
        if Evictable(representations, r) && (victim.None? || Sooner(representations, r, victim.value)) {
          victim := Some(r);
        }
      }
    }

    /** Evicts until the request fits: exactly the shortest prefix of the evictable ones, in order, that makes it
        fit. If it cannot fit, all of them are gone. */
    method EnsureDeviceSpace(additional: nat) returns (ok: bool, ghost victims: set<RepId>)
      requires Valid()
      modifies this`representations, this`gauges
      ensures Valid()
      ensures representations == Without(old(representations), victims)
      ensures ShortestPrefix(old(representations), additional, capacity.device, victims)
      ensures ok <==> RoomFor(representations, additional, capacity.device)
      ensures !ok ==> forall r :: Evictable(old(representations), r) ==> r in victims
      ensures View() == old(View()).(representations := representations)
      ensures TransitionsKept(old(View()), View(), {})
    {
      victims := {};
      WithoutNone(representations);
      RestKept(View(), View(), {});
      var used := Sum(DeviceBytes(representations));
      while used + additional > capacity.device
        invariant Valid() && used == DeviceUsed(representations)
        invariant representations == Without(old(representations), victims)
        invariant ShortestPrefix(old(representations), additional, capacity.device, victims)
        invariant View() == old(View()).(representations := representations)
        invariant TransitionsKept(old(View()), View(), {})
        decreases old(representations).Keys - victims
      {
        ghost var between := View();
        var victim := EvictNext(old(representations), additional, victims);
        if victim.None? {
          return false, victims;
        }
        KeptTransitive(old(View()), between, View(), {});
        victims := victims + {victim.value};
        used := Sum(DeviceBytes(representations));
      }
      return true, victims;
    }

    method EvictNext(ghost before: Representations, ghost additional: nat, ghost victims: set<RepId>)
      returns (victim: Option<RepId>)
      requires Valid() && representations == Without(before, victims)
      requires ShortestPrefix(before, additional, capacity.device, victims)
      requires !RoomFor(representations, additional, capacity.device)
      modifies this`representations, this`gauges
      ensures Valid()
      ensures victim.None? ==> forall r :: Evictable(before, r) ==> r in victims
      ensures victim.None? ==> representations == old(representations) && View() == old(View())
      ensures victim.Some? ==>
                && victim.value in before && victim.value !in victims
                && representations == Without(before, victims + {victim.value})
                && ShortestPrefix(before, additional, capacity.device, victims + {victim.value})
      ensures View() == old(View()).(representations := representations)
      ensures TransitionsKept(old(View()), View(), {})
    {
      victim := FindVictim();
      if victim.None? {
        NoneLeft(before, victims);
        RestKept(View(), View(), {});
        return;
      }
      NextVictim(before, additional, capacity.device, victims, victim.value);
      var refused := Evict(victim.value, Device);
    }

    ghost function Guarded(): nat
      reads this
    {
      Guards(View())
    }

    /** Refuses outright what would not fit beside everything guarded, and otherwise makes room. */
    method EnsureDeviceCapacity(additional: nat) returns (ok: bool, ghost victims: set<RepId>)
      requires Valid()
      modifies this`representations, this`gauges
      ensures Valid()
      ensures representations == Without(old(representations), victims)
      ensures RoomMade(old(representations), old(Guarded()), additional, capacity.device, ok, victims)
      ensures View() == old(View()).(representations := representations)
      ensures TransitionsKept(old(View()), View(), {})
    {
      var active := Sum(ActiveBytes(representations));
      var grown := Sum(growth);
      var reserved := Sum(ReservedBytes(transitions));
      var detached := Sum(DetachedBytes(transfers));
      if active + grown + reserved + detached + additional > capacity.device {
        WithoutNone(representations);
        RestKept(View(), View(), {});
        return false, {};
      }
      ok, victims := EnsureDeviceSpace(additional);
    }

    // ---- representations ----

    method Register(mapping: Id, component: Component, end: nat, bytes: nat, tier: Tier, reuseValue: nat)
      returns (r: Result<RepId>, ghost victims: set<RepId>)
      requires Valid()
      modifies this
      ensures Valid()
      ensures TransitionsKept(old(View()), View(), {})
      ensures r.Failure? ==>
                && r.error == (if tier.Device? then DeviceCapacity else HostCapacity)
                && View() == old(View()).(representations := Without(old(representations), victims))
      ensures r.Success? ==>
                && r.value == old(nextId)
                && clock == old(clock) + 1
                && View() == WithNew(old(View()).(representations := Without(old(representations), victims)),
                                     Registered(mapping, component, end, bytes, tier, old(clock) + 1, reuseValue))
      ensures if tier.Device?
              then RoomMade(old(representations), old(Guarded()), bytes, capacity.device, r.Success?, victims)
              else victims == {}
      ensures tier.Storage? ==> r.Success?
      ensures tier.Host? ==> (r.Success? <==> HostUsed(old(representations)) + bytes <= capacity.host)
    {
      var refused;
      refused, victims := MakeRoom(bytes, tier);
      if refused.Some? {
        return Failure(refused.value), victims;
      }
      ghost var between := View();
      var id := AddRepresentation(mapping, component, end, bytes, tier, reuseValue);
      KeptTransitive(old(View()), between, View(), {});
      return Success(id), victims;
    }

    method MakeRoom(bytes: nat, tier: Tier) returns (refused: Option<Error>, ghost victims: set<RepId>)
      requires Valid()
      modifies this`representations, this`gauges
      ensures Valid()
      ensures TransitionsKept(old(View()), View(), {})
      ensures View() == old(View()).(representations := Without(old(representations), victims))
      ensures refused.Some? ==> refused == Some(if tier.Device? then DeviceCapacity else HostCapacity)
      ensures tier.Device? ==>
                RoomMade(old(representations), old(Guarded()), bytes, capacity.device, refused.None?, victims)
      ensures tier.Host? ==> (refused.None? <==> HostUsed(representations) + bytes <= capacity.host)
      ensures !tier.Device? ==> victims == {} && representations == old(representations)
      ensures tier.Storage? ==> refused.None?
    {
      victims := {};
      WithoutNone(representations);
      RestKept(View(), View(), {});
      if tier == Device {
        var ok;
        ok, victims := EnsureDeviceCapacity(bytes);
        return if ok then None else Some(DeviceCapacity), victims;
      }
      if tier == Host {
        var host := Sum(HostBytes(representations));
        return if host + bytes <= capacity.host then None else Some(HostCapacity), victims;
      }
      return None, victims;
    }

    method AddRepresentation(mapping: Id, component: Component, end: nat, bytes: nat, tier: Tier, reuseValue: nat)
      returns (id: RepId)
      requires Valid()
      requires tier.Device? ==> RoomFor(representations, bytes, capacity.device)
      requires tier.Host? ==> HostUsed(representations) + bytes <= capacity.host
      modifies this
      ensures Valid() && id == old(nextId)
      ensures TransitionsKept(old(View()), View(), {})
      ensures clock == old(clock) + 1
      ensures View() == WithNew(old(View()), Registered(mapping, component, end, bytes, tier, old(clock) + 1, reuseValue))
    {
      id := nextId;
      var r := Registered(mapping, component, end, bytes, tier, clock + 1, reuseValue);
      AddedWithin(capacity, View(), r);
      nextId, clock, representations := id + 1, clock + 1, representations[id := r];
      assert View() == WithNew(old(View()), r) && Consistent();
      Refresh();
    }

    /** Drops a logical reference; what nothing else protects is gone with the last one. */
    method ReleaseLogicalReference(id: RepId) returns (refused: Option<Error>)
      requires Valid()
      modifies this`representations, this`gauges
      ensures Valid()
      ensures TransitionsKept(old(View()), View(), {})
      ensures refused == if id in old(representations) then None else Some(RepresentationNotFound)
      ensures View() == old(View()).(representations := LessLogical(old(representations), id))
    {
      if id !in representations {
        RestKept(View(), View(), {});
        return Some(RepresentationNotFound);
      }
      var r := representations[id].(logical := if representations[id].logical > 0 then representations[id].logical - 1 else 0);
      UsedAfter(representations, id, r);
      UsedWithout(representations, id);
      if r.logical == 0 && !Protected(r) {
        Removed(View(), id);
        RemovedKeeps(View(), id);
        representations := representations - {id};
        assert View() == old(View()).(representations := representations);
        Refresh();
      } else {
        Touch(id, r);
      }
      return None;
    }

    method DemoteToHost(id: RepId) returns (refused: Option<Error>)
      requires Valid()
      modifies this`representations, this`gauges
      ensures Valid()
      ensures TransitionsKept(old(View()), View(), {})
      ensures refused ==
                if MoveRefusal(old(representations), id).Some? then MoveRefusal(old(representations), id)
                else if !old(representations)[id].host && HostUsed(old(representations)) + old(representations)[id].bytes > capacity.host
                then Some(HostCapacity)
                else None
      ensures View() == old(View()).(representations :=
                if refused.Some? then old(representations)
                else old(representations)[id := old(representations)[id].(host := true, device := false)])
    {
      RestKept(View(), View(), {});
      if id !in representations {
        return Some(RepresentationNotFound);
      }
      if Protected(representations[id]) {
        return Some(ProtectedByOwner);
      }
      var host := Sum(HostBytes(representations));
      if !representations[id].host && host + representations[id].bytes > capacity.host {
        return Some(HostCapacity);
      }
      UsedAfter(representations, id, representations[id].(host := true, device := false));
      Touch(id, representations[id].(host := true, device := false));
      return None;
    }

    method DemoteToStorage(id: RepId) returns (refused: Option<Error>)
      requires Valid()
      modifies this`representations, this`gauges
      ensures Valid()
      ensures TransitionsKept(old(View()), View(), {})
      ensures refused == MoveRefusal(old(representations), id)
      ensures View() == old(View()).(representations :=
                if refused.Some? then old(representations)
                else old(representations)[id := old(representations)[id].(storage := true, host := false, device := false)])
    {
      RestKept(View(), View(), {});
      if id !in representations {
        return Some(RepresentationNotFound);
      }
      if Protected(representations[id]) {
        return Some(ProtectedByOwner);
      }
      UsedAfter(representations, id, representations[id].(storage := true, host := false, device := false));
      Touch(id, representations[id].(storage := true, host := false, device := false));
      return None;
    }

    // ---- growth ----

    method ReserveGrowth(bytes: nat) returns (r: Result<GrowthId>, ghost victims: set<RepId>)
      requires Valid()
      modifies this`representations, this`growth, this`nextId, this`gauges
      ensures Valid()
      ensures TransitionsKept(old(View()), View(), {})
      ensures r == Failure(DeviceCapacity) || r == Success(old(nextId))
      ensures RoomMade(old(representations), old(Guarded()), bytes, capacity.device, r.Success?, victims)
      ensures r.Failure? ==> View() == old(View()).(representations := Without(old(representations), victims))
      ensures r.Success? ==>
                View() == old(View()).(
                  next := old(nextId) + 1, growth := old(growth)[old(nextId) := bytes],
                  representations := Without(old(representations), victims))
    {
      var ok;
      ok, victims := EnsureDeviceCapacity(bytes);
      if !ok {
        return Failure(DeviceCapacity), victims;
      }
      ghost var between := View();
      var id := AddGrowth(bytes);
      KeptTransitive(old(View()), between, View(), {});
      return Success(id), victims;
    }

    method AddGrowth(bytes: nat) returns (id: GrowthId)
      requires Valid()
      modifies this`growth, this`nextId, this`gauges
      ensures Valid() && TransitionsKept(old(View()), View(), {})
      ensures id == old(nextId)
      ensures View() == old(View()).(next := id + 1, growth := old(growth)[id := bytes])
    {
      ghost var before := View();
      id := nextId;
      nextId := nextId + 1;
      growth := growth[id := bytes];
      NewGrowth(before, bytes, View());
      Refresh();
    }

    method ReleaseGrowth(id: GrowthId) returns (refused: Option<Error>)
      requires Valid()
      modifies this`growth, this`gauges
      ensures Valid()
      ensures TransitionsKept(old(View()), View(), {})
      ensures refused == if id in old(growth) then None else Some(GrowthReservationNotFound)
      ensures View() == old(View()).(growth := old(growth) - {id})
    {
      if id !in growth {
        RestKept(View(), View(), {});
        assert growth - {id} == growth;
        return Some(GrowthReservationNotFound);
      }
      growth := growth - {id};
      LessGrowth(old(View()), id, View());
      Refresh();
      return None;
    }

    // ---- bindings and tables ----

    method LowerActive(list: seq<RepId>)
      requires forall i, j :: 0 <= i < j < |list| ==> list[i] != list[j]
      requires forall r :: r in list ==> r in representations
      modifies this`representations
      ensures representations == ActiveLowered(old(representations), list)
    {
      assert ActiveLowered(representations, []) == representations;
      for i := 0 to |list|
        invariant representations == ActiveLowered(old(representations), list[..i])
      {
        LowerOne(old(representations), list, i);
        representations := representations[list[i] := representations[list[i]].(active := representations[list[i]].active - 1)];
      }
      assert list[..|list|] == list;
    }

    /** Gives up the binding of a context, and the table with it. The program has this operation twice, as `unbind` and
        as `release_binding`. */
    method ReleaseBinding(context: ContextId) returns (refused: Option<Error>)
      requires Valid()
      modifies this`representations, this`bindings, this`tables, this`gauges
      ensures Valid()
      ensures TransitionsKept(old(View()), View(), {})
      ensures refused == if context in old(bindings) then None else Some(BindingNotFound)
      ensures View() == Released(old(View()), context)
    {
      if context !in bindings {
        RestKept(View(), View(), {});
        return Some(BindingNotFound);
      }
      DropBinding(context);
      UnboundWithin(old(View()), context);
      Refresh();
      return None;
    }

    method DropBinding(context: ContextId)
      requires Sound(View()) && context in bindings
      modifies this`representations, this`bindings, this`tables
      ensures View() == Unbound(old(View()), context)
    {
      assert BindingHolds(View(), context);
      var list := bindings[context].representations;
      bindings := bindings - {context};
      tables := tables - {context};
      LowerActive(list);
    }

    /** Shows the executor the blocks of a binding, if it is still the current one. What is bound is on the device, so
        the composite is never found incomplete here. */
    method PublishDeviceBlockTable(context: ContextId, binding: BindingId, executorMapping: nat) returns (r: Result<TableId>)
      requires Valid()
      modifies this`nextId, this`tables
      ensures Valid()
      ensures TransitionsKept(old(View()), View(), {})
      ensures if context in bindings && bindings[context].id == binding
              then r == Success(old(nextId)) && View() == WithTable(old(View()), old(nextId), context, executorMapping)
              else r == Failure(BindingNotFound) && View() == old(View())
    {
      RestKept(View(), View(), {});
      if context !in bindings || bindings[context].id != binding {
        return Failure(BindingNotFound);
      }
      TableAddedSound(View(), context, executorMapping);
      var id := nextId;
      var list := bindings[context].representations;
      assert BindingHolds(View(), context);
      nextId := nextId + 1;
      tables := tables[context := Table(id, binding, bindings[context].mapping, executorMapping, Blocks(representations, list))];
      assert View() == WithTable(old(View()), id, context, executorMapping);
      return Success(id);
    }

    // ---- the end of a transition ----

    /** Why a commit would be refused. */
    method CheckCommit(id: TransitionId, revision: nat) returns (refused: Option<Error>)
      requires Sound(View())
      ensures Complete(View(), id)
      ensures refused == CommitRefusal(View(), id, revision)
    {
      SoundComplete(View(), id);
      if id !in transitions {
        return Some(TransitionNotFound);
      }
      if transitions[id].revision != revision {
        return Some(StaleRevision);
      }
      var list := transitions[id].transfers;
      for i := 0 to |list|
        invariant TransferRefusal(transfers, list[i..]) == TransferRefusal(transfers, list)
      {
        assert list[i..][1..] == list[i + 1..];
        if !transfers[list[i]].completed {
          return Some(TransferPending);
        }
        if !transfers[list[i]].success {
          return Some(TransferFailed);
        }
      }
      return if AllOnDevice(representations, transitions[id].representations) then None else Some(TransferPending);
    }

    /** Ends a transition: its reservations go, its finished transfers are forgotten, those in flight are detached. */
    method Close(id: TransitionId)
      requires Sound(View()) && id in transitions
      modifies this`transitions, this`transfers, this`representations, this`owner
      ensures View() == Closed(old(View()), id)
    {
      assert TransitionHolds(View(), id);
      NothingDangles(View());
      var ended := transitions[id];
      transitions := transitions - {id};
      LeaveTransfers(ended.transfers);
      owner := Disowned(owner, ended.transfers);
      LowerReservations(ended.representations);
    }

    method LeaveTransfers(list: seq<TransferId>)
      requires forall x :: x in list ==> x in transfers
      modifies this`transfers
      ensures transfers == Detached(old(transfers), list)
    {
      assert Detached(transfers, []) == transfers;
      for i := 0 to |list|
        invariant transfers == Detached(old(transfers), list[..i])
      {
        assert list[..i + 1] == list[..i] + [list[i]];
        LeaveOne(old(transfers), list[..i], list[i]);
        if list[i] in transfers {
          if transfers[list[i]].completed {
            transfers := transfers - {list[i]};
          } else {
            transfers := transfers[list[i] := transfers[list[i]].(detached := true)];
          }
        }
      }
      assert list[..|list|] == list;
    }

    method LowerReservations(list: seq<RepId>)
      requires forall i, j :: 0 <= i < j < |list| ==> list[i] != list[j]
      requires forall r :: r in list ==> r in representations
      modifies this`representations
      ensures representations == ReservationsLowered(old(representations), list)
    {
      assert ReservationsLowered(representations, []) == representations;
      for i := 0 to |list|
        invariant representations == ReservationsLowered(old(representations), list[..i])
      {
        LowerOneReservation(old(representations), list, i);
        var r := representations[list[i]];
        representations := representations[list[i] := r.(reservations := r.reservations - 1)];
      }
      assert list[..|list|] == list;
    }

    method RaiseActive(list: seq<RepId>)
      requires forall i, j :: 0 <= i < j < |list| ==> list[i] != list[j]
      requires forall r :: r in list ==> r in representations
      modifies this`representations
      ensures representations == ActiveRaised(old(representations), list, clock)
    {
      assert ActiveRaised(representations, [], clock) == representations;
      for i := 0 to |list|
        invariant representations == ActiveRaised(old(representations), list[..i], clock)
      {
        RaiseOne(old(representations), list, i, clock);
        var r := representations[list[i]];
        representations := representations[list[i] := r.(active := r.active + 1, lastUsed := clock)];
      }
      assert list[..|list|] == list;
    }

    method Bind(context: ContextId, mapping: Id, list: seq<RepId>)
      requires Composite(representations, mapping, list)
      modifies this`representations, this`bindings, this`nextId
      ensures View() == Bound(old(View()), context, mapping, list, clock)
    {
      RaiseActive(list);
      bindings := bindings[context := Binding(nextId, mapping, list)];
      nextId := nextId + 1;
    }

    /** Replaces the binding, all or nothing. */
    method Switch(id: TransitionId)
      requires Sound(View()) && Committable(View(), id)
      modifies this`transitions, this`transfers, this`representations, this`owner, this`bindings, this`tables, this`nextId
      ensures View() == Committed(old(View()), id, clock)
    {
      var t := transitions[id];
      SwitchSteps(View(), id);
      Close(id);
      if t.context in bindings {
        DropBinding(t.context);
      }
      Bind(t.context, t.mapping, t.representations);
    }

    /** Commits exactly a committable transition at its prepared revision; otherwise nothing changes. */
    method CommitTransition(id: TransitionId, revision: nat) returns (r: Result<BindingId>)
      requires Valid()
      modifies this`transitions, this`transfers, this`representations, this`owner, this`bindings, this`tables,
               this`nextId, this`committed, this`gauges
      ensures Valid()
      ensures Complete(old(View()), id)
      ensures TransitionsKept(old(View()), View(), {id})
      ensures CommitRefusal(old(View()), id, revision).Some? ==>
                r == Failure(CommitRefusal(old(View()), id, revision).value) && View() == old(View())
      ensures CommitRefusal(old(View()), id, revision).None? ==>
                id in old(transitions) && r == Success(old(nextId)) && View() == Committed(old(View()), id, clock)
    {
      var refused := CheckCommit(id, revision);
      if refused.Some? {
        RestKept(View(), View(), {id});
        return Failure(refused.value);
      }
      RefusalExact(View(), id, revision);
      r := Success(nextId);
      Install(id);
    }

    method Install(id: TransitionId)
      requires Valid() && Committable(View(), id)
      modifies this`transitions, this`transfers, this`representations, this`owner, this`bindings, this`tables,
               this`nextId, this`committed, this`gauges
      ensures Valid()
      ensures TransitionsKept(old(View()), View(), {id})
      ensures View() == Committed(old(View()), id, clock)
    {
      Switch(id);
      committed := committed + 1;
      CommittedWithin(old(View()), id, clock, View());
      Refresh();
    }

    method AbortTransition(id: TransitionId) returns (refused: Option<Error>)
      requires Valid()
      modifies this`transitions, this`transfers, this`representations, this`owner, this`aborted, this`gauges
      ensures Valid()
      ensures TransitionsKept(old(View()), View(), {id})
      ensures refused == if id in old(transitions) then None else Some(TransitionNotFound)
      ensures View() == if id in old(transitions) then Closed(old(View()), id) else old(View())
    {
      if id !in transitions {
        RestKept(View(), View(), {id});
        return Some(TransitionNotFound);
      }
      ClosedWithin(View(), id);
      Close(id);
      aborted := aborted + 1;
      Refresh();
      return None;
    }

    /** Commits a transition together with the table the executor sees. Either nothing changes, or the new binding and
        its table appear together: after the checks the commit inside cannot fail any more. */
    method CommitMappedTransition(id: TransitionId, revision: nat, executorMapping: nat)
      returns (r: Result<(BindingId, TableId)>)
      requires Valid()
      modifies this`transitions, this`transfers, this`representations, this`owner, this`bindings, this`tables,
               this`nextId, this`committed, this`gauges
      ensures Valid()
      ensures Complete(old(View()), id)
      ensures TransitionsKept(old(View()), View(), {id})
      ensures CommitRefusal(old(View()), id, revision).Some? ==>
                r == Failure(CommitRefusal(old(View()), id, revision).value) && View() == old(View())
      ensures CommitRefusal(old(View()), id, revision).None? ==> Committable(old(View()), id)
      ensures CommitRefusal(old(View()), id, revision).None? ==>
                && r == Success((old(nextId) + 1, old(nextId)))
                && View() == MappedCommit(old(View()), id, clock, executorMapping)
    {
      var refused := CheckCommit(id, revision);
      if refused.Some? {
        RestKept(View(), View(), {id});
        return Failure(refused.value);
      }
      RefusalExact(View(), id, revision);
      r := Success((nextId + 1, nextId));
      InstallMapped(id, executorMapping);
    }

    method InstallMapped(id: TransitionId, executorMapping: nat)
      requires Valid() && Committable(View(), id)
      modifies this`transitions, this`transfers, this`representations, this`owner, this`bindings, this`tables,
               this`nextId, this`committed, this`gauges
      ensures Valid()
      ensures TransitionsKept(old(View()), View(), {id})
      ensures View() == MappedCommit(old(View()), id, clock, executorMapping)
    {
      LaterSound(View(), id);
      var context, table := transitions[id].context, nextId;
      nextId := nextId + 1;
      assert View() == Later(old(View()));
      assert Valid();
      Install(id);
      MappedCommitSound(old(View()), id, clock, executorMapping);
      ShowTable(table, context, executorMapping);
    }

    method ShowTable(table: TableId, context: ContextId, executorMapping: nat)
      requires Valid() && context in bindings && table < nextId
      modifies this`tables
      ensures Valid()
      ensures View() == Shown(old(View()), table, context, executorMapping)
    {
      ShownSound(View(), table, context, executorMapping);
      var b := bindings[context];
      tables := tables[context := Table(table, b.id, b.mapping, executorMapping, Blocks(representations, b.representations))];
      assert View() == Shown(old(View()), table, context, executorMapping);
    }

    // ---- transfers ----

    /** Brings a representation that is off the device onto it, evicting what must leave. */
    method Promote(id: RepId) returns (ok: bool, ghost victims: set<RepId>)
      requires Valid() && id in representations && Protected(representations[id])
      modifies this`representations, this`gauges
      ensures Valid()
      ensures TransitionsKept(old(View()), View(), {})
      ensures View() == old(View()).(representations := Promoted(old(representations), id, ok, victims))
      ensures if old(representations)[id].device then ok && victims == {}
              else Evicted(old(representations), old(representations)[id].bytes, capacity.device, ok, victims)
    {
      if representations[id].device {
        RestKept(View(), View(), {});
        WithoutNone(representations);
        assert representations == representations[id := representations[id].(device := true)];
        return true, {};
      }
      ok, victims := PromoteAway(id);
    }

    method PromoteAway(id: RepId) returns (ok: bool, ghost victims: set<RepId>)
      requires Valid() && id in representations && Protected(representations[id]) && !representations[id].device
      modifies this`representations, this`gauges
      ensures Valid()
      ensures TransitionsKept(old(View()), View(), {})
      ensures View() == old(View()).(representations := Promoted(old(representations), id, ok, victims))
      ensures Evicted(old(representations), old(representations)[id].bytes, capacity.device, ok, victims)
    {
      ok, victims := EnsureDeviceSpace(representations[id].bytes);
      if ok {
        ghost var between := View();
        PromotedWithin(capacity, old(representations), id, victims);
        BringIn(id);
        KeptTransitive(old(View()), between, View(), {});
      }
    }

    method BringIn(id: RepId)
      requires Valid() && id in representations && Protected(representations[id])
      requires WithinCapacity(capacity, representations[id := representations[id].(device := true)])
      modifies this`representations, this`gauges
      ensures Valid() && representations == old(representations)[id := old(representations)[id].(device := true)]
      ensures View() == old(View()).(representations := representations)
      ensures TransitionsKept(old(View()), View(), {})
    {
      Touch(id, representations[id].(device := true));
    }

    /** The end of a transfer. One that succeeds brings its representation onto the device; if there is no room for it,
        the transfer stays in flight. A second completion does nothing. */
    method CompleteTransfer(id: TransferId, success: bool) returns (refused: Option<Error>, ghost victims: set<RepId>)
      requires Valid()
      modifies this`representations, this`transfers, this`gauges
      ensures Valid()
      ensures TransitionsKept(old(View()), View(), {})
      ensures id !in old(transfers) ==> refused == Some(TransferNotFound) && View() == old(View())
      ensures id in old(transfers) && old(transfers)[id].completed ==> refused == None && View() == old(View())
      ensures id in old(transfers) && !old(transfers)[id].completed ==>
                var moved := old(transfers)[id].representation;
                && moved in old(representations)
                && (refused == None || refused == Some(DeviceCapacity))
                && (if success && !old(representations)[moved].device
                    then Evicted(old(representations), old(transfers)[id].bytes, capacity.device, refused.None?, victims)
                    else refused.None? && victims == {})
                && moved in Promoted(old(representations), moved, success && refused.None?, victims)
                && (refused.None? ==>
                      View() == Ended(old(View()).(representations := Promoted(old(representations), moved, success, victims)),
                                      id, success))
                && (refused.Some? ==> View() == old(View()).(representations := Without(old(representations), victims)))
      ensures refused.None? && id in old(transfers) && !old(transfers)[id].completed ==>
                Recorded(old(transfers), transfers, id, success)
      ensures refused.Some? ==> transfers == old(transfers)
    {
      victims := {};
      WithoutNone(representations);
      RestKept(View(), View(), {});
      if id !in transfers {
        return Some(TransferNotFound), {};
      }
      if transfers[id].completed {
        return None, {};
      }
      var moved := transfers[id].representation;
      TransferProtects(View(), id);
      if success {
        var ok;
        ok, victims := Promote(moved);
        if !ok {
          return Some(DeviceCapacity), victims;
        }
      }
      ghost var between := View();
      EndedRecords(between, id, success);
      EndTransfer(id, success);
      KeptTransitive(old(View()), between, View(), {});
      return None, victims;
    }

    method EndTransfer(id: TransferId, success: bool)
      requires Valid() && id in transfers && !transfers[id].completed
      requires transfers[id].representation in representations
      requires success ==> representations[transfers[id].representation].device
      modifies this`representations, this`transfers, this`gauges
      ensures Valid()
      ensures TransitionsKept(old(View()), View(), {})
      ensures View() == Ended(old(View()), id, success)
    {
      EndedWithin(View(), id, success);
      var t := transfers[id];
      transfers := if t.detached then transfers - {id} else transfers[id := t.(completed := true, success := success)];
      var r := representations[t.representation];
      representations := representations[t.representation := r.(transfers := r.transfers - 1)];
      assert View() == Ended(old(View()), id, success);
      Refresh();
    }

    /** The end of a recomputation, of which the program only needs the room. */
    method CompleteRecompute(id: TransitionId, representation: RepId)
      returns (refused: Option<Error>, ghost victims: set<RepId>)
      requires Valid()
      modifies this`representations, this`gauges
      ensures Valid()
      ensures TransitionsKept(old(View()), View(), {})
      ensures id !in transitions ==> refused == Some(TransitionNotFound) && View() == old(View())
      ensures id in transitions && !(transitions[id].kind == Recompute && representation in transitions[id].representations) ==>
                refused == Some(InvalidComposite) && View() == old(View())
      ensures id in transitions && transitions[id].kind == Recompute && representation in transitions[id].representations ==>
                && representation in old(representations)
                && refused == (if refused.None? then None else Some(DeviceCapacity))
                && (if old(representations)[representation].device then refused.None? && victims == {}
                    else Evicted(old(representations), old(representations)[representation].bytes, capacity.device,
                                 refused.None?, victims))
                && View() == old(View()).(representations :=
                     Promoted(old(representations), representation, refused.None?, victims))
    {
      victims := {};
      RestKept(View(), View(), {});
      if id !in transitions {
        return Some(TransitionNotFound), {};
      }
      if transitions[id].kind != Recompute || representation !in transitions[id].representations {
        return Some(InvalidComposite), {};
      }
      ReservationProtects(View(), id, representation);
      var ok;
      ok, victims := Promote(representation);
      return if ok then None else Some(DeviceCapacity), victims;
    }

    // ---- preparing a transition ----

    method ValidateComposite(mapping: Id, end: nat, required: Mask, list: seq<RepId>) returns (refused: Option<Error>)
      ensures refused == CompositeRefusal(representations, mapping, end, required, list, {})
    {
      var present: Mask := {};
      for i := 0 to |list|
        invariant CompositeRefusal(representations, mapping, end, required, list[i..], present)
                  == CompositeRefusal(representations, mapping, end, required, list, {})
      {
        assert list[i..][1..] == list[i + 1..];
        if list[i] !in representations {
          return Some(RepresentationNotFound);
        }
        var r := representations[list[i]];
        if r.mapping != mapping || r.end != end || r.component in present {
          return Some(InvalidComposite);
        }
        present := present + {r.component};
      }
      return if present == required then None else Some(InvalidComposite);
    }

    method Demanded(list: seq<RepId>, allowRecompute: bool) returns (r: Result<Demand>)
      requires forall r :: r in list ==> r in representations
      ensures r == Missing(representations, list, allowRecompute, Demand(0, false))
    {
      var sofar := Demand(0, false);
      for i := 0 to |list|
        invariant Missing(representations, list[i..], allowRecompute, sofar)
                  == Missing(representations, list, allowRecompute, Demand(0, false))
      {
        assert list[i..][1..] == list[i + 1..];
        var r := representations[list[i]];
        if !r.device {
          if !HasCopy(r) && !allowRecompute {
            return Failure(NoPromotionSource);
          }
          if sofar.bytes + r.bytes > USIZE_MAX {
            return Failure(DeviceCapacity);
          }
          sofar := Demand(sofar.bytes + r.bytes, sofar.recompute || !HasCopy(r));
        }
      }
      return Success(sofar);
    }

    method Ask(mapping: Id, end: nat, required: Mask, list: seq<RepId>, allowRecompute: bool) returns (r: Result<Demand>)
      ensures r == Asked(representations, mapping, end, required, list, allowRecompute)
      ensures r.Success? ==> Composite(representations, mapping, list)
    {
      var refused := ValidateComposite(mapping, end, required, list);
      if refused.Some? {
        return Failure(refused.value);
      }
      CompositeWhole(representations, mapping, end, required, list);
      r := Demanded(list, allowRecompute);
    }

    /** One more representation for the transition `t`, whose record so far is `partial`. */
    method ReserveOne(ghost t: TransitionId, ghost partial: Transition, r: RepId) returns (x: Option<TransferId>)
      requires r in representations
      modifies this`representations, this`transfers, this`owner, this`nextId
      ensures At(View(), t, WithOne(partial, r, x)) == TakenOn(At(old(View()), t, partial), t, r)
      ensures bindings == old(bindings)
    {
      var needs := NeedsTransfer(representations[r]);
      representations := representations[r := representations[r].(reservations := representations[r].reservations + 1)];
      x := None;
      if needs {
        x := Some(nextId);
        transfers := transfers[nextId := Transfer(r, representations[r].bytes, false, false, false)];
        representations := representations[r := representations[r].(transfers := representations[r].transfers + 1)];
        owner := owner[nextId := t];
        nextId := nextId + 1;
      }
    }

    /** Reserves every representation, and starts a transfer for each that has a copy to transfer. */
    method ReserveAll(ghost w: World, t: TransitionId, transition: Transition, list: seq<RepId>)
      returns (transfers: seq<TransferId>)
      requires t in w.transitions && w.transitions[t] == transition
      requires transition.representations == [] && transition.transfers == []
      requires At(View(), t, transition) == w && forall r :: r in list ==> r in representations
      modifies this`representations, this`transfers, this`owner, this`nextId
      ensures At(View(), t, transition.(representations := list, transfers := transfers)) == TakenOnAll(w, t, list)
    {
      transfers := [];
      for i := 0 to |list|
        invariant At(View(), t, transition.(representations := list[..i], transfers := transfers))
                  == TakenOnAll(w, t, list[..i])
        invariant representations.Keys == w.representations.Keys
      {
        assert list[..i + 1] == list[..i] + [list[i]];
        var x := ReserveOne(t, transition.(representations := list[..i], transfers := transfers), list[i]);
        transfers := if x.Some? then transfers + [x.value] else transfers;
      }
      assert list[..|list|] == list;
    }

    /** Numbers a transition and reserves for it; its record is not in the map yet. */
    method TakeOn(transition: Transition, list: seq<RepId>) returns (t: TransitionId, ids: seq<TransferId>)
      requires transition.representations == [] && transition.transfers == []
      requires forall r :: r in list ==> r in representations
      modifies this`nextId, this`representations, this`transfers, this`owner
      ensures t == old(nextId)
      ensures At(View(), t, transition.(representations := list, transfers := ids))
              == PreparedWith(old(View()), transition, list)
    {
      t := nextId;
      ghost var world := Opened(View(), transition);
      nextId := nextId + 1;
      assert At(View(), t, transition) == world;
      ids := ReserveAll(world, t, transition, list);
    }

    method Reserve(context: ContextId, revision: nat, mapping: Id, list: seq<RepId>, bytes: nat, kind: Kind)
      returns (p: PreparedTransition)
      requires Valid() && Composite(representations, mapping, list)
      modifies this`nextId, this`representations, this`transfers, this`owner, this`transitions, this`prepared, this`gauges
      ensures Valid()
      ensures TransitionsKept(old(View()), View(), {})
      ensures View() == PreparedWith(old(View()), Transition(context, revision, mapping, [], [], bytes, kind), list)
      ensures p == PreparedTransition(old(nextId), kind, View().transitions[old(nextId)].transfers)
    {
      var transition := Transition(context, revision, mapping, [], [], bytes, kind);
      PreparedSound(View(), transition, list);
      var t, ids := TakeOn(transition, list);
      transitions := transitions[t := transition.(representations := list, transfers := ids)];
      prepared := prepared + 1;
      assert View() == PreparedWith(old(View()), transition, list);
      Refresh();
      return PreparedTransition(t, kind, ids);
    }

    /** Prepares the switch of a context to a composite: refused before anything happens, or for want of room after
        evicting what may leave, or reserved and on its way. */
    method PrepareTransition(context: ContextId, revision: nat, mapping: Id, end: nat, required: Mask, list: seq<RepId>,
                             allowRecompute: bool)
      returns (r: Result<PreparedTransition>, ghost victims: set<RepId>)
      requires Valid()
      modifies this`nextId, this`representations, this`transfers, this`owner, this`transitions, this`prepared, this`gauges
      ensures Valid()
      ensures TransitionsKept(old(View()), View(), {})
      ensures var asked := Asked(old(representations), mapping, end, required, list, allowRecompute);
              && (asked.Failure? ==> r == Failure(asked.error) && victims == {} && View() == old(View()))
              && (asked.Success? ==>
                    && RoomMade(old(representations), old(Guarded()), asked.value.bytes, capacity.device, r.Success?, victims)
                    && (r.Failure? ==> r == Failure(DeviceCapacity)
                                       && View() == old(View()).(representations := Without(old(representations), victims)))
                    && (r.Success? ==>
                          Reserving(old(View()), View(), victims, context, revision, mapping, list, asked.value, r.value)))
      ensures r.Success? ==>
                && Whole(old(representations), mapping, end, required, list)
                && r.value.id == old(nextId) && transitions - {r.value.id} == old(transitions)
                && r.value.id in transitions
                && transitions[r.value.id] ==
                     Transition(context, revision, mapping, list, r.value.transfers, OffDevice(old(representations), list),
                                r.value.kind)
                && KindFits(old(representations), list, context in old(bindings), r.value.kind)
    {
      var demand := Ask(mapping, end, required, list, allowRecompute);
      if demand.Failure? {
        RestKept(View(), View(), {});
        return Failure(demand.error), {};
      }
      var kind := KindOf(demand.value, context in bindings);
      var ok;
      ok, victims := EnsureDeviceCapacity(demand.value.bytes);
      if !ok {
        return Failure(DeviceCapacity), victims;
      }
      ghost var between := View();
      WithoutComposite(old(representations), victims, mapping, list);
      var p := Reserve(context, revision, mapping, list, demand.value.bytes, kind);
      KeptTransitive(old(View()), between, View(), {});
      AskedExact(old(representations), mapping, end, required, list, allowRecompute);
      ReservingRecords(old(View()), View(), victims, context, revision, mapping, list, demand.value, p);
      return Success(p), victims;
    }
  }

  datatype PreparedTransition = PreparedTransition(id: TransitionId, kind: Kind, transfers: seq<TransferId>)

  /** What a successful preparation leaves, after the victims have left the device. */
  ghost predicate Reserving(a: World, b: World, victims: set<RepId>, context: ContextId, revision: nat, mapping: Id,
                            list: seq<RepId>, demand: Demand, p: PreparedTransition)
  {
    var w := a.(representations := Without(a.representations, victims));
    var kind := KindOf(demand, context in a.bindings);
    && (forall r :: r in list ==> r in a.representations)
    && b == PreparedWith(w, Transition(context, revision, mapping, [], [], demand.bytes, kind), list)
    && p == PreparedTransition(a.next, kind, b.transitions[a.next].transfers)
  }

  /** The transfer is completed, with the success it was told, or gone if it was detached; all others are as before. */
  ghost predicate Recorded(before: map<TransferId, Transfer>, after: map<TransferId, Transfer>, x: TransferId, success: bool)
    requires x in before
  {
    && after - {x} == before - {x}
    && (if before[x].detached then x !in after
        else
          && x in after && after[x].completed && after[x].success == success
          && after[x].representation == before[x].representation && after[x].bytes == before[x].bytes
          && !after[x].detached)
  }

  /** Recompute if something off the device has no copy; else by whether there are bytes to bring and something is bound. */
  ghost predicate KindFits(reps: Representations, list: seq<RepId>, bound: bool, kind: Kind)
    requires forall r :: r in list ==> r in reps
  {
    var recompute := exists r :: r in list && !reps[r].device && !HasCopy(reps[r]);
    && (kind == Recompute <==> recompute)
    && (kind == ReferenceOnly <==> !recompute && OffDevice(reps, list) == 0)
    && (kind == NonDestructive <==> !recompute && OffDevice(reps, list) > 0 && bound)
    && (kind == Quiesced <==> !recompute && OffDevice(reps, list) > 0 && !bound)
  }

  /** What a preparation records. */
  lemma ReservingRecords(a: World, b: World, victims: set<RepId>, context: ContextId, revision: nat, mapping: Id,
                         list: seq<RepId>, demand: Demand, p: PreparedTransition)
    requires Sound(a) && Composite(a.representations, mapping, list)
    requires forall v :: v in victims ==> Evictable(a.representations, v)
    requires Reserving(a, b, victims, context, revision, mapping, list, demand, p)
    requires demand.bytes == OffDevice(a.representations, list)
    requires demand.recompute <==> exists r :: r in list && !a.representations[r].device && !HasCopy(a.representations[r])
    ensures p.id == a.next && p.id in b.transitions && b.transitions - {p.id} == a.transitions
    ensures b.transitions[p.id] ==
              Transition(context, revision, mapping, list, p.transfers, OffDevice(a.representations, list), p.kind)
    ensures KindFits(a.representations, list, context in a.bindings, p.kind)
  {
    var w := a.(representations := Without(a.representations, victims));
    LeftSound(a, victims);
    WithoutComposite(a.representations, victims, mapping, list);
    PreparedRecords(w, Transition(context, revision, mapping, [], [], demand.bytes, p.kind), list);
    KindExact(demand, context in a.bindings);
  }

  /** Room made without asking what is guarded. */
  ghost predicate Evicted(reps: Representations, additional: nat, limit: nat, ok: bool, victims: set<RepId>) {
    && ShortestPrefix(reps, additional, limit, victims)
    && (ok <==> RoomFor(Without(reps, victims), additional, limit))
    && (!ok ==> forall r :: Evictable(reps, r) ==> r in victims)
  }

  /** A transition prepared as reference-only evicts nobody, and can be committed at once exactly if all of its
      representations are on the device. */
  lemma ReferenceOnlyExact(a: World, b: World, guarded: nat, limit: nat, victims: set<RepId>, context: ContextId,
                           revision: nat, mapping: Id, list: seq<RepId>, demand: Demand, p: PreparedTransition)
    requires Sound(a) && DeviceUsed(a.representations) <= limit && Composite(a.representations, mapping, list)
    requires RoomMade(a.representations, guarded, demand.bytes, limit, true, victims)
    requires Reserving(a, b, victims, context, revision, mapping, list, demand, p) && p.kind == ReferenceOnly
    ensures victims == {}
    ensures Committable(b, p.id) <==> forall r :: r in list ==> a.representations[r].device
  {
    NobodyLeaves(a.representations, 0, limit, victims);
    WithoutNone(a.representations);
    var w := a.(representations := Without(a.representations, victims));
    assert w == a;
    PreparedStands(w, Transition(context, revision, mapping, [], [], demand.bytes, p.kind), list);
  }

  /** Such a transition may well need a transfer first. What has no bytes adds nothing to the bytes asked for, and
      still has to be brought onto the device: prepared as reference-only, refused at its own revision. */
  lemma ReferenceOnlyNeedsTransfer() returns (w: World, transition: Transition)
    ensures Sound(w) && 1 in w.representations
    ensures Asked(w.representations, 7, 1, {GlobalKv}, [1], false) == Success(Demand(0, false))
    ensures transition == Transition(0, 0, 7, [], [], 0, KindOf(Demand(0, false), 0 in w.bindings))
    ensures transition.kind == ReferenceOnly
    ensures !Committable(PreparedWith(w, transition, [1]), w.next)
  {
    var empty := World(1, map[], map[], map[], map[], map[], map[], map[]);
    EmptySound(empty);
    var r := Registered(7, GlobalKv, 1, 0, Host, 1, 0);
    Added(empty, r);
    w := WithNew(empty, r);
    transition := Transition(0, 0, 7, [], [], 0, ReferenceOnly);
    assert [1][1..] == [];
    assert {} + {GlobalKv} == {GlobalKv};
    assert CompositeRefusal(w.representations, 7, 1, {GlobalKv}, [], {} + {GlobalKv}) == None;
    assert CompositeRefusal(w.representations, 7, 1, {GlobalKv}, [1], {}) == None;
    assert Missing(w.representations, [], false, Demand(0, false)) == Success(Demand(0, false));
    PreparedStands(w, transition, [1]);
    assert 1 in [1];
  }

  /** Making room may strand the very composite it is made for: its only copy of one part is evicted before it is
      reserved, gets no transfer, and cannot be computed again because the transition was not prepared for that. */
  lemma PrepareMayStrand() returns (w: World, transition: Transition)
    ensures Sound(w) && 1 in w.representations && 2 in w.representations
    ensures Asked(w.representations, 7, 1, {GlobalKv, Swa}, [1, 2], false) == Success(Demand(5, false))
    ensures transition == Transition(0, 0, 7, [], [], 5, KindOf(Demand(5, false), 0 in w.bindings))
    ensures RoomMade(w.representations, 0, 5, 5, true, {1})
    ensures !Provided(PreparedWith(w.(representations := Without(w.representations, {1})), transition, [1, 2]), w.next)
  {
    w := StrandWorld();
    transition := Transition(0, 0, 7, [], [], 5, Quiesced);
    StrandAsked(w.representations);
    StrandRoom(w.representations);
    StrandLeft(w, transition);
  }

  lemma StrandLeft(w: World, transition: Transition)
    requires Sound(w) && transition == Transition(0, 0, 7, [], [], 5, Quiesced)
    requires w.representations == map[1 := Registered(7, GlobalKv, 1, 5, Device, 1, 0), 2 := Registered(7, Swa, 1, 5, Host, 2, 0)]
    ensures !Provided(PreparedWith(w.(representations := Without(w.representations, {1})), transition, [1, 2]), w.next)
  {
    LeftSound(w, {1});
    WithoutComposite(w.representations, {1}, 7, [1, 2]);
    PreparedProvided(w.(representations := Without(w.representations, {1})), transition, [1, 2]);
    assert 1 in [1, 2];
  }

  /** What can be told before the call: `r` stays on the device, or has a copy, or room is made before its turn comes. */
  ghost predicate Safe(reps: Representations, additional: nat, limit: nat, r: RepId) {
    !Evictable(reps, r) || (r in reps && HasCopy(reps[r])) || RoomFor(Without(reps, Ahead(reps, r)), additional, limit)
  }

  /** A part is off the device without a copy, and its transition is prepared to compute it again. */
  predicate Computed(reps: Representations, r: RepId) {
    r in reps && !reps[r].device && !HasCopy(reps[r])
  }

  lemma {:induction false} LeftSound(w: World, victims: set<RepId>)
    requires Sound(w) && forall v :: v in victims ==> Evictable(w.representations, v)
    ensures Sound(w.(representations := Without(w.representations, victims)))
    decreases victims
  {
    WithoutNone(w.representations);
    if victims == {} {
      assert w.(representations := Without(w.representations, victims)) == w;
    } else {
      var v :| v in victims;
      var fewer := w.(representations := Without(w.representations, victims - {v}));
      LeftSound(w, victims - {v});
      WithoutMore(w.representations, victims - {v}, v);
      assert victims - {v} + {v} == victims;
      Touched(fewer, v, fewer.representations[v].(device := false));
      assert w.(representations := Without(w.representations, victims))
             == fewer.(representations := fewer.representations[v := fewer.representations[v].(device := false)]);
    }
  }

  /** A prepared transition is provided for exactly if all of its parts are safe and none has to be computed again. */
  lemma PreparedProvidedExactly(a: World, b: World, guarded: nat, limit: nat, victims: set<RepId>, context: ContextId,
                                revision: nat, mapping: Id, list: seq<RepId>, demand: Demand, p: PreparedTransition)
    requires Sound(a) && Composite(a.representations, mapping, list)
    requires RoomMade(a.representations, guarded, demand.bytes, limit, true, victims)
    requires Reserving(a, b, victims, context, revision, mapping, list, demand, p)
    ensures Provided(b, p.id) <==>
              forall r :: r in list ==> Safe(a.representations, demand.bytes, limit, r) && !Computed(a.representations, r)
  {
    var reps := a.representations;
    var w := a.(representations := Without(reps, victims));
    LeftSound(a, victims);
    WithoutComposite(reps, victims, mapping, list);
    PreparedProvided(w, Transition(context, revision, mapping, [], [], demand.bytes, p.kind), list);
    forall r | r in list
      ensures w.representations[r].device || HasCopy(w.representations[r]) <==>
              Safe(reps, demand.bytes, limit, r) && !Computed(reps, r)
    {
      if Evictable(reps, r) {
        VictimExact(reps, demand.bytes, limit, victims, r);
      }
    }
  }

  lemma StrandWorld() returns (w: World)
    ensures Sound(w) && w.bindings == map[]
    ensures w.representations == map[1 := Registered(7, GlobalKv, 1, 5, Device, 1, 0), 2 := Registered(7, Swa, 1, 5, Host, 2, 0)]
  {
    var empty := World(1, map[], map[], map[], map[], map[], map[], map[]);
    EmptySound(empty);
    Added(empty, Registered(7, GlobalKv, 1, 5, Device, 1, 0));
    var one := WithNew(empty, Registered(7, GlobalKv, 1, 5, Device, 1, 0));
    Added(one, Registered(7, Swa, 1, 5, Host, 2, 0));
    w := WithNew(one, Registered(7, Swa, 1, 5, Host, 2, 0));
  }

  lemma StrandAsked(reps: Representations)
    requires reps == map[1 := Registered(7, GlobalKv, 1, 5, Device, 1, 0), 2 := Registered(7, Swa, 1, 5, Host, 2, 0)]
    ensures Asked(reps, 7, 1, {GlobalKv, Swa}, [1, 2], false) == Success(Demand(5, false))
  {
    assert [1, 2][1..] == [2] && [2][1..] == [];
    assert {} + {GlobalKv} == {GlobalKv} && {GlobalKv} + {Swa} == {GlobalKv, Swa};
    assert CompositeRefusal(reps, 7, 1, {GlobalKv, Swa}, [], {GlobalKv, Swa}) == None;
    assert CompositeRefusal(reps, 7, 1, {GlobalKv, Swa}, [2], {GlobalKv}) == None;
    assert CompositeRefusal(reps, 7, 1, {GlobalKv, Swa}, [1, 2], {}) == None;
    assert Missing(reps, [], false, Demand(5, false)) == Success(Demand(5, false));
    assert Missing(reps, [2], false, Demand(0, false)) == Success(Demand(5, false));
  }

  lemma StrandRoom(reps: Representations)
    requires reps == map[1 := Registered(7, GlobalKv, 1, 5, Device, 1, 0), 2 := Registered(7, Swa, 1, 5, Host, 2, 0)]
    ensures RoomMade(reps, 0, 5, 5, true, {1})
  {
    WithoutNone(reps);
    assert {1} - {1} == {};
    StrandUse(reps);
  }

  lemma StrandUse(reps: Representations)
    requires reps == map[1 := Registered(7, GlobalKv, 1, 5, Device, 1, 0), 2 := Registered(7, Swa, 1, 5, Host, 2, 0)]
    ensures DeviceUsed(reps) == 5 && DeviceUsed(Without(reps, {1})) == 0
  {
    TwoTotal(DeviceBytes(reps), 5);
    TwoTotal(DeviceBytes(Without(reps, {1})), 0);
  }

  lemma TwoTotal(bytes: map<nat, nat>, first: nat)
    requires bytes.Keys == {1, 2} && bytes[1] == first && bytes[2] == 0
    ensures Total(bytes) == first
  {
    TotalWithout(bytes, 1);
    TotalWithout(bytes - {1}, 2);
    assert bytes - {1} - {2} == map[];
  }

  lemma EmptySound(w: World)
    requires w == World(1, map[], map[], map[], map[], map[], map[], map[])
    ensures Sound(w)
  {
  }

  function Promoted(reps: Representations, id: RepId, ok: bool, victims: set<RepId>): Representations {
    if ok && id in reps then Without(reps, victims)[id := reps[id].(device := true)] else Without(reps, victims)
  }

  lemma PromotedWithin(capacity: Capacity, reps: Representations, id: RepId, victims: set<RepId>)
    requires id in reps && Protected(reps[id]) && forall v :: v in victims ==> Evictable(reps, v)
    requires WithinCapacity(capacity, Without(reps, victims)) && !reps[id].device
    requires RoomFor(Without(reps, victims), reps[id].bytes, capacity.device)
    ensures id in Without(reps, victims) && Without(reps, victims)[id] == reps[id]
    ensures Promoted(reps, id, true, victims) == Without(reps, victims)[id := reps[id].(device := true)]
    ensures WithinCapacity(capacity, Promoted(reps, id, true, victims))
  {
    assert !Evictable(reps, id);
    UsedAfter(Without(reps, victims), id, reps[id].(device := true));
  }

  /** With this record of the transition `t`. */
  function At(w: World, t: TransitionId, transition: Transition): World {
    w.(transitions := w.transitions[t := transition])
  }

  function WithOne(partial: Transition, r: RepId, x: Option<TransferId>): Transition {
    partial.(representations := partial.representations + [r],
             transfers := if x.Some? then partial.transfers + [x.value] else partial.transfers)
  }

  function Later(w: World): World {
    w.(next := w.next + 1)
  }

  /** With a table that was numbered before. */
  ghost function Shown(w: World, id: TableId, context: ContextId, executorMapping: nat): World
    requires Sound(w) && context in w.bindings
  {
    WithTable(w, id, context, executorMapping).(next := w.next)
  }

  lemma LaterSound(w: World, id: TransitionId)
    requires Sound(w)
    ensures Sound(Later(w)) && TransitionsKept(w, Later(w), {id})
    ensures Committable(w, id) ==> Committable(Later(w), id)
  {
    assert forall k: nat :: k in w.growth ==> IdHolds(w, k);
    Grown(w, w.growth, w.next + 1);
    assert w.(growth := w.growth, next := w.next + 1) == Later(w);
    RestKept(w, Later(w), {id});
  }

  lemma ShownSound(w: World, id: TableId, context: ContextId, executorMapping: nat)
    requires Sound(w) && context in w.bindings && id < w.next
    ensures forall r :: r in w.bindings[context].representations ==> r in w.representations
    ensures Sound(Shown(w, id, context, executorMapping))
  {
    NothingDangles(w);
    TabledSound(w, context, Shown(w, id, context, executorMapping).tables[context]);
  }

  /** Binding and table at once; the table is numbered first. */
  ghost function MappedCommit(w: World, id: TransitionId, clock: nat, executorMapping: nat): World
    requires Sound(w) && Committable(w, id)
  {
    LaterSound(w, id);
    CommittedSound(Later(w), id, clock);
    Shown(Committed(Later(w), id, clock), w.next, w.transitions[id].context, executorMapping)
  }

  lemma MappedCommitSound(w: World, id: TransitionId, clock: nat, executorMapping: nat)
    requires Sound(w) && Committable(w, id)
    ensures Sound(Later(w)) && Committable(Later(w), id)
    ensures Committed(Later(w), id, clock).next > w.next
    ensures w.transitions[id].context in Committed(Later(w), id, clock).bindings
    ensures TransitionsKept(w, MappedCommit(w, id, clock, executorMapping), {id})
  {
    var committed := Committed(Later(w), id, clock);
    LaterSound(w, id);
    CommittedSound(Later(w), id, clock);
    KeptTransitive(w, Later(w), committed, {id});
    RestKept(committed, MappedCommit(w, id, clock, executorMapping), {id});
    KeptTransitive(w, committed, MappedCommit(w, id, clock, executorMapping), {id});
  }

  lemma TransferProtects(w: World, x: TransferId)
    requires Sound(w) && x in w.transfers && !w.transfers[x].completed
    ensures w.transfers[x].representation in w.representations
    ensures Protected(w.representations[w.transfers[x].representation])
    ensures w.transfers[x].bytes == w.representations[w.transfers[x].representation].bytes
  {
    assert TransferHolds(w, x);
    UnprotectedIsFree(w, w.transfers[x].representation);
  }

  lemma ReservationProtects(w: World, t: TransitionId, r: RepId)
    requires Sound(w) && t in w.transitions && r in w.transitions[t].representations
    ensures r in w.representations && Protected(w.representations[r])
  {
    assert TransitionHolds(w, t);
    UnprotectedIsFree(w, r);
  }

  lemma EndedWithin(w: World, x: TransferId, success: bool)
    requires Sound(w) && x in w.transfers && !w.transfers[x].completed
    requires w.transfers[x].representation in w.representations
    requires success ==> w.representations[w.transfers[x].representation].device
    ensures Sound(Ended(w, x, success)) && TransitionsKept(w, Ended(w, x, success), {})
    ensures DeviceUsed(Ended(w, x, success).representations) == DeviceUsed(w.representations)
    ensures HostUsed(Ended(w, x, success).representations) == HostUsed(w.representations)
  {
    EndedSound(w, x, success);
    EndedKeeps(w, x, success);
    SameUse(w.representations, Ended(w, x, success).representations);
  }

  function Registered(mapping: Id, component: Component, end: nat, bytes: nat, tier: Tier, clock: nat, reuseValue: nat):
    Representation
  {
    Representation(mapping, component, end, bytes, tier.Device?, tier.Host?, tier.Storage?, clock, reuseValue, 1, 0, 0, 0)
  }

  lemma LowerOne(reps: Representations, list: seq<RepId>, i: nat)
    requires i < |list| && list[i] in reps && forall i, j :: 0 <= i < j < |list| ==> list[i] != list[j]
    ensures list[i] in ActiveLowered(reps, list[..i])
    ensures var lowered := ActiveLowered(reps, list[..i]);
            ActiveLowered(reps, list[..i + 1]) == lowered[list[i] := lowered[list[i]].(active := lowered[list[i]].active - 1)]
  {
    assert list[..i + 1] == list[..i] + [list[i]];
  }

  lemma LowerOneReservation(reps: Representations, list: seq<RepId>, i: nat)
    requires i < |list| && list[i] in reps && forall i, j :: 0 <= i < j < |list| ==> list[i] != list[j]
    ensures list[i] in ReservationsLowered(reps, list[..i])
    ensures var lowered := ReservationsLowered(reps, list[..i]);
            ReservationsLowered(reps, list[..i + 1])
            == lowered[list[i] := lowered[list[i]].(reservations := lowered[list[i]].reservations - 1)]
  {
    assert list[..i + 1] == list[..i] + [list[i]];
  }

  lemma RaiseOne(reps: Representations, list: seq<RepId>, i: nat, clock: nat)
    requires i < |list| && list[i] in reps && forall i, j :: 0 <= i < j < |list| ==> list[i] != list[j]
    ensures list[i] in ActiveRaised(reps, list[..i], clock)
    ensures var raised := ActiveRaised(reps, list[..i], clock);
            ActiveRaised(reps, list[..i + 1], clock)
            == raised[list[i] := raised[list[i]].(active := raised[list[i]].active + 1, lastUsed := clock)]
  {
    assert list[..i + 1] == list[..i] + [list[i]];
  }

  lemma LeaveOne(transfers: map<TransferId, Transfer>, list: seq<TransferId>, x: TransferId)
    requires x in transfers
    ensures var left := Detached(transfers, list);
            Detached(transfers, list + [x])
            == if x !in left then left
               else if left[x].completed then left - {x}
               else left[x := left[x].(detached := true)]
  {
  }

  lemma CommittedWithin(w: World, id: TransitionId, clock: nat, after: World)
    requires Sound(w) && Committable(w, id) && after == Committed(w, id, clock)
    ensures Sound(after) && TransitionsKept(w, after, {id})
    ensures DeviceUsed(after.representations) == DeviceUsed(w.representations)
    ensures HostUsed(after.representations) == HostUsed(w.representations)
    ensures |after.transitions| == |w.transitions| - 1
  {
    CommittedSound(w, id, clock);
    SameUse(w.representations, after.representations);
  }

  lemma ClosedWithin(w: World, id: TransitionId)
    requires Sound(w) && id in w.transitions
    ensures Sound(Closed(w, id)) && TransitionsKept(w, Closed(w, id), {id})
    ensures DeviceUsed(Closed(w, id).representations) == DeviceUsed(w.representations)
    ensures HostUsed(Closed(w, id).representations) == HostUsed(w.representations)
    ensures |Closed(w, id).transitions| == |w.transitions| - 1
  {
    ClosedSound(w, id);
    ClosedKeeps(w, id);
    SameUse(w.representations, Closed(w, id).representations);
  }

  lemma UnboundWithin(w: World, context: ContextId)
    requires Sound(w) && context in w.bindings
    ensures Sound(Unbound(w, context)) && TransitionsKept(w, Unbound(w, context), {})
    ensures DeviceUsed(Unbound(w, context).representations) == DeviceUsed(w.representations)
    ensures HostUsed(Unbound(w, context).representations) == HostUsed(w.representations)
  {
    UnboundSound(w, context);
    RestKept(w, Unbound(w, context), {});
    SameUse(w.representations, Unbound(w, context).representations);
  }

  /** With a fresh table of the current binding of the context, block for block. */
  ghost function WithTable(w: World, id: TableId, context: ContextId, executorMapping: nat): World
    requires Sound(w) && context in w.bindings
  {
    NothingDangles(w);
    var b := w.bindings[context];
    w.(next := w.next + 1,
       tables := w.tables[context := Table(id, b.id, b.mapping, executorMapping, Blocks(w.representations, b.representations))])
  }

  lemma TableAddedSound(w: World, context: ContextId, executorMapping: nat)
    requires Sound(w) && context in w.bindings
    ensures forall r :: r in w.bindings[context].representations ==> r in w.representations
    ensures Sound(WithTable(w, w.next, context, executorMapping))
    ensures TransitionsKept(w, WithTable(w, w.next, context, executorMapping), {})
  {
    assert BindingHolds(w, context);
    assert forall k: nat :: k in w.growth ==> IdHolds(w, k);
    var more := w.(next := w.next + 1);
    Grown(w, w.growth, w.next + 1);
    assert w.(growth := w.growth, next := w.next + 1) == more;
    TabledSound(more, context, WithTable(w, w.next, context, executorMapping).tables[context]);
    RestKept(w, WithTable(w, w.next, context, executorMapping), {});
  }

  function LessLogical(reps: Representations, id: RepId): Representations {
    if id !in reps then reps
    else if reps[id].logical <= 1 && !Protected(reps[id]) then reps - {id}
    else reps[id := reps[id].(logical := if reps[id].logical > 0 then reps[id].logical - 1 else 0)]
  }

  function WithNew(w: World, r: Representation): World {
    w.(next := w.next + 1, representations := w.representations[w.next := r])
  }

  lemma AddedWithin(capacity: Capacity, w: World, r: Representation)
    requires Sound(w) && r.active == 0 && r.reservations == 0 && r.transfers == 0
    requires WithinCapacity(capacity, w.representations)
    requires r.device ==> RoomFor(w.representations, r.bytes, capacity.device)
    requires r.host ==> HostUsed(w.representations) + r.bytes <= capacity.host
    ensures Sound(WithNew(w, r)) && WithinCapacity(capacity, WithNew(w, r).representations)
    ensures TransitionsKept(w, WithNew(w, r), {})
  {
    Added(w, r);
    UsedWith(w.representations, w.next, r);
    RestKept(w, WithNew(w, r), {});
  }

  lemma NewGrowth(w: World, bytes: nat, after: World)
    requires Sound(w) && after == w.(next := w.next + 1, growth := w.growth[w.next := bytes])
    ensures Sound(after) && TransitionsKept(w, after, {})
  {
    assert forall k: nat :: k in w.growth ==> IdHolds(w, k);
    Grown(w, w.growth[w.next := bytes], w.next + 1);
    RestKept(w, after, {});
  }

  lemma LessGrowth(w: World, id: GrowthId, after: World)
    requires Sound(w) && after == w.(growth := w.growth - {id})
    ensures Sound(after) && TransitionsKept(w, after, {})
  {
    assert forall k: nat :: k in w.growth ==> IdHolds(w, k);
    Grown(w, w.growth - {id}, w.next);
    RestKept(w, after, {});
  }
}