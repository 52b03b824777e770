/**
 The native path of the executor: one sequence slot in the model context, every other mapping saved as a blob.

 Taking a snapshot of the slot and installing one may each fail; `NativeCalls` says how the calls of one
 operation go. A blob that is installed successfully restores exactly the state it was taken from.
 */
module NativeSlot {
  type Mapping = nat
  type Blob = seq<int>

  datatype Status = Ok | Invalid | Incompatible | Backend | RollbackFailed

  /** `garbage` is what a failed rollback leaves in the slot. */
  datatype NativeCalls = NativeCalls(snapshot: bool, install: bool, rollback: bool, garbage: Blob)

  datatype Representation = Representation(state: Blob, position: nat, references: nat)

  type Representations = map<Mapping, Representation>

  /** Unreferenced representations go, the active one stays. */
  function Reclaimed(rs: Representations, active: Mapping): Representations {
    map m | m in rs && (m == active || rs[m].references > 0) :: rs[m]
  }

  /** States and positions as everybody sees them: the active mapping's state is in the slot. */
  function Live(rs: Representations, active: Mapping, slot: Blob): Representations
    requires active in rs
  {
    rs[active := rs[active].(state := slot)]
  }

  /** What activation makes of the live states: the mapping it leaves goes if nobody refers to it and it is not
      the root. */
  function Activated(live: Representations, active: Mapping, m: Mapping): Representations
    requires active in live
  {
    if m != active && active != 0 && live[active].references == 0 then live - {active} else live
  }

  lemma LiveAfterSwitch(rs: Representations, active: Mapping, slot: Blob, m: Mapping)
    requires active in rs && m in rs && m != active
    ensures var rs' := rs[m := rs[m].(state := [])][active := rs[active].(state := slot)];
            Live(rs', m, rs[m].state) == Live(rs, active, slot)
  {
  }

  lemma LiveReclaimed(rs: Representations, active: Mapping, slot: Blob)
    requires active in rs
    ensures active in Reclaimed(rs, active)
    ensures Live(Reclaimed(rs, active), active, slot) == Reclaimed(Live(rs, active, slot), active)
  {
  }

  lemma LiveAdded(rs: Representations, active: Mapping, slot: Blob, m: Mapping, r: Representation)
    requires active in rs && m != active
    ensures Live(rs[m := r], active, slot) == Live(rs, active, slot)[m := r]
  {
  }

  class NativeExecutor {
    var slot: Blob
    var representations: Representations
    var activeMapping: Mapping
    var nextMapping: Mapping

    ghost predicate Valid()
      reads this
    {
      && activeMapping in representations
      && (forall m :: m in representations ==> m < nextMapping)
    }

    ghost function States(): Representations
      requires Valid()
      reads this
    {
      Live(representations, activeMapping, slot)
    }

    constructor ()
      ensures Valid()
      ensures States() == map[0 := Representation([], 0, 1)] && activeMapping == 0
    {
      slot := [];
      representations := map[0 := Representation([], 0, 1)];
      activeMapping := 0;
      nextMapping := 1;
    }

    /** Saves the slot, clears it and installs the target. A target that cannot be installed is undone by
        installing the saved state again. Only a failed rollback loses anything, and then only the state that
        was in the slot. */
    method ActivateMapping(m: Mapping, calls: NativeCalls) returns (status: Status)
      requires Valid()
      modifies this
      ensures Valid()
      ensures status == Invalid <==> m !in old(representations)
      ensures status == Ok ==>
                activeMapping == m && States() == Activated(old(States()), old(activeMapping), m)
      ensures status == Backend || status == Invalid ==>
                activeMapping == old(activeMapping) && States() == old(States())
      ensures status == RollbackFailed ==>
                && !calls.install && !calls.rollback && old(slot) != []
                && activeMapping == old(activeMapping)
                && States() == old(States())[activeMapping := old(States())[activeMapping].(state := calls.garbage)]
      ensures calls.snapshot && calls.install && m in old(representations) ==> status == Ok
      ensures status != Incompatible
    {
      if m !in representations {
        return Invalid;
      }
      if m == activeMapping {
        return Ok;
      }
      if slot != [] && !calls.snapshot {
        return Backend;
      }
      var prior := slot;
      slot := [];
      var target := representations[m].state;
      if target != [] && !calls.install {
        slot := if prior == [] then [] else if calls.rollback then prior else calls.garbage;
        return if prior == [] || calls.rollback then Backend else RollbackFailed;
      }
      LiveAfterSwitch(representations, activeMapping, prior, m);
      slot := target;
      var previous := activeMapping;
      representations := representations[m := representations[m].(state := [])];
      representations := representations[previous := representations[previous].(state := prior)];
      activeMapping := m;
      if previous != 0 && representations[previous].references == 0 {
        representations := representations - {previous};
      }
      return Ok;
    }

    /** Checks that the blob can be installed by installing it into the slot and putting the slot back. */
    method ImportMapping(blob: Blob, position: nat, calls: NativeCalls) returns (status: Status, m: Mapping)
      requires Valid()
      modifies this
      ensures Valid()
      ensures m == old(nextMapping) && activeMapping == old(activeMapping)
      ensures status == Ok ==>
                States() == Reclaimed(old(States()), activeMapping)[m := Representation(blob, position, 1)]
      ensures status == Backend || status == Incompatible ==>
                States() == Reclaimed(old(States()), activeMapping)
      ensures status == RollbackFailed ==>
                && !calls.rollback && old(slot) != []
                && States() == Reclaimed(old(States()), activeMapping)[activeMapping :=
                                 old(States())[activeMapping].(state := calls.garbage)]
      ensures calls.snapshot && calls.install && calls.rollback ==> status == Ok
      ensures status != Invalid
    {
      LiveReclaimed(representations, activeMapping, slot);
      representations := Reclaimed(representations, activeMapping);
      m := nextMapping;
      nextMapping := nextMapping + 1;
      if blob != [] {
        if slot != [] && !calls.snapshot {
          return Backend, m;
        }
        var prior := slot;
        slot := [];
        var consumed := calls.install;
        if prior != [] && !calls.rollback {
          slot := calls.garbage;
          return RollbackFailed, m;
        }
        slot := prior;
        if !consumed {
          return Incompatible, m;
        }
      }
      LiveAdded(representations, activeMapping, slot, m, Representation(blob, position, 1));
      representations := representations[m := Representation(blob, position, 1)];
      return Ok, m;
    }
  }
}
