/**
 What the operations of the physical manager record, field by field.

 The methods of the manager are specified by functions on its whole state. These lemmas say what those functions write,
 and what they leave alone, without naming how they are put together.
 */
module PhysicalRecords {
  import opened Options
  import opened PrefixForest
  import opened Totals
  import opened PhysicalModel
  import opened Eviction
  import opened Readiness
  import opened PhysicalTransitions
  import opened Physical

  // ---- single representations ----

  /** A new representation is in the tier it was registered for and in no other, with one logical reference. */
  lemma RegisteredRecords(w: World, mapping: Id, component: Component, end: nat, bytes: nat, tier: Tier, clock: nat,
                          reuseValue: nat)
    ensures var v := WithNew(w, Registered(mapping, component, end, bytes, tier, clock, reuseValue));
            var r := v.representations[w.next];
            && v.next == w.next + 1 && v.representations - {w.next} == w.representations - {w.next}
            && r.mapping == mapping && r.component == component && r.end == end && r.bytes == bytes
            && r.device == (tier == Device) && r.host == (tier == Host) && r.storage == (tier == Storage)
            && r.lastUsed == clock && r.reuseValue == reuseValue
            && r.logical == 1 && r.active == r.reservations == r.transfers == 0
            && v == w.(next := v.next, representations := v.representations)
  {
  }

  /** The last logical reference of what nothing protects removes it; else one reference less, and never below none. */
  lemma LessLogicalRecords(reps: Representations, id: RepId, x: RepId)
    requires id in reps
    ensures var less := LessLogical(reps, id);
            && (id in less <==> reps[id].logical > 1 || Protected(reps[id]))
            && (id in less ==>
                  && (less[id].logical == reps[id].logical - 1 || less[id].logical == reps[id].logical == 0)
                  && less[id] == reps[id].(logical := less[id].logical))
            && (x != id ==> (x in less <==> x in reps) && (x in reps ==> less[x] == reps[x]))
  {
  }

  /** One tier less, and nothing else. */
  lemma LeaveRecords(r: Representation, tier: Tier)
    ensures var left := Leave(r, tier);
            && (left.device <==> r.device && tier != Device) && (left.host <==> r.host && tier != Host)
            && (left.storage <==> r.storage && tier != Storage)
            && left.(device := r.device, host := r.host, storage := r.storage) == r
  {
  }

  /** Of what nothing protects, the least worth reusing leaves the device first; of equals what was longest unused, and
      then the smaller id. */
  lemma LeavesFirst(reps: Representations, additional: nat, limit: nat, victims: set<RepId>, v: RepId, u: RepId)
    requires ShortestPrefix(reps, additional, limit, victims)
    requires v in reps && reps[v].device && !Without(reps, victims)[v].device
    requires u in reps && Without(reps, victims)[u].device
             && reps[u].active == 0 && reps[u].reservations == 0 && reps[u].transfers == 0
    ensures reps[v].active == 0 && reps[v].reservations == 0 && reps[v].transfers == 0
    ensures reps[v].reuseValue <= reps[u].reuseValue
    ensures reps[v].reuseValue == reps[u].reuseValue ==> reps[v].lastUsed <= reps[u].lastUsed
    ensures reps[v].reuseValue == reps[u].reuseValue && reps[v].lastUsed == reps[u].lastUsed ==> v < u
  {
    assert v in victims && u !in victims;
    assert Evictable(reps, v) && Evictable(reps, u);
  }

  /** A request for guarded capacity is granted exactly if it fits beside what is guarded and, when all that may leave has
      left, beside what is on the device. It is then on the device that it fits. */
  lemma GrantedExactly(reps: Representations, guarded: nat, additional: nat, limit: nat, ok: bool, victims: set<RepId>)
    requires RoomMade(reps, guarded, additional, limit, ok, victims)
    ensures ok ==> DeviceUsed(Without(reps, victims)) + additional <= limit
    ensures ok <==> guarded + additional <= limit && DeviceUsed(Without(reps, AllEvictable(reps))) + additional <= limit
  {
    if guarded + additional <= limit {
      if ok {
        WithoutUses(reps, victims, AllEvictable(reps));
      } else {
        assert victims == AllEvictable(reps);
      }
    }
  }

  function AllEvictable(reps: Representations): set<RepId> {
    set r | r in reps && Evictable(reps, r)
  }

  /** Nothing that is bound, reserved or in flight moves. */
  lemma MovesUnlessHeld(w: World, id: RepId)
    requires Sound(w)
    ensures MoveRefusal(w.representations, id) == Some(RepresentationNotFound) <==> id !in w.representations
    ensures MoveRefusal(w.representations, id) == Some(ProtectedByOwner) <==>
            && id in w.representations
            && ((exists c :: c in w.bindings && id in w.bindings[c].representations)
                || (exists t :: t in w.transitions && id in w.transitions[t].representations)
                || exists x :: x in w.transfers && w.transfers[x].representation == id && !w.transfers[x].completed)
  {
    if id in w.representations {
      UnprotectedIsFree(w, id);
    }
  }

  /** What may be prepared, told from tiers and sizes: parts that make up the composite, each on some tier unless it may be
      computed again, and not more bytes off the device than can be counted. */
  lemma AskedOfTiers(reps: Representations, mapping: Id, end: nat, required: Mask, list: seq<RepId>, allowRecompute: bool)
    ensures Asked(reps, mapping, end, required, list, allowRecompute).Success? <==>
            && Whole(reps, mapping, end, required, list) && OffDevice(reps, list) <= USIZE_MAX
            && (allowRecompute || forall r :: r in list ==> reps[r].device || reps[r].host || reps[r].storage)
  {
    AskedExact(reps, mapping, end, required, list, allowRecompute);
    if Whole(reps, mapping, end, required, list) {
      assert forall r :: r in list ==> (CanReach(reps, r) <==> reps[r].device || reps[r].host || reps[r].storage);
    }
  }

  // ---- transfers ----

  /** Of the transfers of a transition that ends, the completed are forgotten and the others go on, detached. */
  lemma ClosedRecords(w: World, t: TransitionId, x: TransferId)
    requires t in w.transitions
    ensures var (v, list) := (Closed(w, t), w.transitions[t].transfers);
            && t !in v.transitions && v.transitions == w.transitions - {t}
            && (x in v.transfers <==> x in w.transfers && !(x in list && w.transfers[x].completed))
            && (x in v.transfers ==>
                  && v.transfers[x] == w.transfers[x].(detached := v.transfers[x].detached)
                  && (v.transfers[x].detached <==> w.transfers[x].detached || x in list))
            && v.bindings == w.bindings && v.growth == w.growth && v.tables == w.tables && v.next == w.next
            && forall r :: r in w.representations ==>
                 && r in v.representations
                 && v.representations[r] == w.representations[r].(reservations := v.representations[r].reservations)
  {
  }

  // ---- committing ----

  /** The context is bound to what the transition reserved, without a table; the transition and its transfers are gone. */
  lemma CommittedRecords(w: World, t: TransitionId, clock: nat)
    requires Sound(w) && Committable(w, t)
    ensures var (v, p) := (Committed(w, t, clock), w.transitions[t]);
            && v.bindings == w.bindings[p.context := Binding(w.next, p.mapping, p.representations)]
            && v.tables == w.tables - {p.context} && v.next == w.next + 1
            && v.transitions == w.transitions - {t} && v.growth == w.growth
            && (forall x :: x in v.transfers <==> x in w.transfers && x !in p.transfers)
            && (forall x :: x in v.transfers ==> v.transfers[x] == w.transfers[x])
  {
    TablesGone(w, t);
  }

  /** What is bound was used now; of nothing else than of uses and references is anything written. */
  lemma CommittedParts(w: World, t: TransitionId, clock: nat, r: RepId)
    requires t in w.transitions && r in w.representations
    ensures var v := Committed(w, t, clock);
            && r in v.representations && SameBut(w.representations[r], v.representations[r])
            && v.representations[r].lastUsed
               == if r in w.transitions[t].representations then clock else w.representations[r].lastUsed
  {
  }

  predicate SameBut(r: Representation, s: Representation) {
    s == r.(active := s.active, reservations := s.reservations, lastUsed := s.lastUsed)
  }

  lemma TablesGone(w: World, t: TransitionId)
    requires Sound(w) && t in w.transitions
    ensures Released(Closed(w, t), w.transitions[t].context).tables == w.tables - {w.transitions[t].context}
    ensures Released(Closed(w, t), w.transitions[t].context).bindings == w.bindings - {w.transitions[t].context}
  {
    var c := w.transitions[t].context;
    assert TableHolds(w, c);
    if c !in w.bindings {
      assert w.tables - {c} == w.tables && w.bindings - {c} == w.bindings;
    }
  }

  /** Together with a table of exactly that binding, for this mapping of the executor. */
  lemma MappedRecords(w: World, t: TransitionId, clock: nat, executorMapping: nat)
    requires Sound(w) && Committable(w, t)
    ensures var (v, p) := (MappedCommit(w, t, clock, executorMapping), w.transitions[t]);
            && v.bindings == w.bindings[p.context := Binding(w.next + 1, p.mapping, p.representations)]
            && v.transitions == w.transitions - {t}
            && p.context in v.tables && v.tables - {p.context} == w.tables - {p.context}
            && v.tables[p.context].id == w.next && v.tables[p.context].binding == w.next + 1
            && v.tables[p.context].mapping == p.mapping && v.tables[p.context].executorMapping == executorMapping
            && |v.tables[p.context].blocks| == |p.representations|
    ensures var (v, p) := (MappedCommit(w, t, clock, executorMapping), w.transitions[t]);
            forall i :: 0 <= i < |p.representations| && i < |v.tables[p.context].blocks| ==>
              && p.representations[i] in w.representations
              && v.tables[p.context].blocks[i].representation == p.representations[i]
              && v.tables[p.context].blocks[i].component == w.representations[p.representations[i]].component
              && v.tables[p.context].blocks[i].bytes == w.representations[p.representations[i]].bytes
  {
    LaterSound(w, t);
    CommittedRecords(Later(w), t, clock);
    CommittedSound(Later(w), t, clock);
    NothingDangles(w);
  }

  // ---- gauges ----

  /** What counts as active is exactly what some context binds. */
  lemma ActiveIsBound(w: World, r: RepId)
    requires Sound(w) && r in w.representations
    ensures ActiveBytes(w.representations)[r]
            == if exists c :: c in w.bindings && r in w.bindings[c].representations then w.representations[r].bytes else 0
  {
    UnprotectedIsFree(w, r);
    if c :| c in w.bindings && r in w.bindings[c].representations {
      assert BindingHolds(w, c);
    }
  }

  /** What is on the device and not bound, but reserved or in flight. */
  function HeldBytes(reps: Representations): map<RepId, nat> {
    map r | r in reps ::
      if reps[r].device && reps[r].active == 0 && (reps[r].reservations != 0 || reps[r].transfers != 0)
      then reps[r].bytes else 0
  }

  /** The device holds what is active, what is held for transitions, and what may be evicted. */
  lemma DeviceSplits(reps: Representations)
    ensures DeviceUsed(reps) == Total(ActiveBytes(reps)) + Total(HeldBytes(reps)) + Total(WarmBytes(reps))
  {
    var sums: map<RepId, nat> := map r | r in reps :: ActiveBytes(reps)[r] + HeldBytes(reps)[r];
    TotalOfSums(ActiveBytes(reps), HeldBytes(reps), sums);
    TotalOfSums(sums, WarmBytes(reps), DeviceBytes(reps));
  }
}
