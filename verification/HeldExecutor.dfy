/**
 The executor together with who holds its mappings.

 The program holds mappings through counted handles: one for the root, one in every cache entry, one in every
 request, and short-lived ones inside a step. `owners` records the lasting ones, one per mapping.
 */
module HeldExecutor {
  import opened Options
  import opened TokenSequence
  import opened Snapshot
  import opened Execution
  import opened EngineModel

  class Handles {
    const exec: Executor
    ghost var owners: Owners

    ghost predicate Valid()
      reads this, exec
    {
      exec.Valid() && Held(exec.View(), owners)
    }

    ghost function View(): Exec
      requires Valid()
      reads this, exec
    {
      exec.View()
    }

    constructor (model: Model)
      ensures Valid() && fresh(exec) && exec.model == model
      ensures owners == map[0 := Root]
      ensures View() == Exec(map[0 := Native([], 0, 2)], map[], 0, 1)
    {
      exec := new Executor(model);
      owners := map[0 := Root];
      new;
      exec.Retain(0);
    }

    method Activate(m: Mapping)
      requires Valid() && (m in owners || m == exec.activeMapping)
      modifies exec
      ensures Valid()
      ensures Keeps(old(View()), owners, View(), owners, {})
      ensures View().active == m == exec.activeMapping
      ensures SameMapping(old(View()), View(), m)
    {
      HeldActivate(exec.View(), owners, m);
      var status := exec.ActivateMapping(m);
    }

    /** A committed fork of a held or active mapping: same content and position, held locally. */
    method Fork(source: Mapping) returns (m: Mapping)
      requires Valid() && (source in owners || source == exec.activeMapping)
      modifies exec, this`owners
      ensures Valid()
      ensures m !in old(owners) && owners == old(owners)[m := Local]
      ensures NothingUnowned(View(), owners)
      ensures Keeps(old(View()), old(owners), View(), owners, {})
      ensures source in old(View()).mappings && m in View().mappings
      ensures View().mappings[m].content == old(View()).mappings[source].content
      ensures View().mappings[m].position == old(View()).mappings[source].position
      ensures View().active == old(View()).active == exec.activeMapping == old(exec.activeMapping)
    {
      HeldFork(exec.View(), owners, source);
      var status, fork := exec.PrepareMappingFork(source);
      status := exec.CommitMapping(fork);
      m := fork;
      owners := owners[m := Local];
    }

    /** A mapping made of spilled bytes, held locally; none if the bytes are no token state. */
    method Import(bytes: seq<Byte>, position: nat) returns (m: Option<Mapping>)
      requires Valid()
      modifies exec, this`owners
      ensures Valid()
      ensures m.None? <==> Decode(bytes).None?
      ensures m.None? ==> owners == old(owners)
      ensures m.Some? ==>
                && m.value !in old(owners) && owners == old(owners)[m.value := Local]
                && m.value in View().mappings
                && View().mappings[m.value].content == Decode(bytes).value
                && View().mappings[m.value].position == position
      ensures NothingUnowned(View(), owners)
      ensures Keeps(old(View()), old(owners), View(), owners, {})
      ensures View().active == old(View()).active == exec.activeMapping == old(exec.activeMapping)
    {
      if Decode(bytes).Some? {
        HeldImport(exec.View(), owners, Decode(bytes).value, position);
      } else {
        HeldReclaim(exec.View(), owners);
      }
      var status, imported := exec.ImportMapping(bytes, position);
      if status != Ok {
        return None;
      }
      owners := owners[imported := Local];
      return Some(imported);
    }

    /** Drops the handle of a mapping; whoever held it no longer does. */
    method Drop(m: Mapping)
      requires Valid() && m in owners && !owners[m].Root?
      modifies exec, this`owners
      ensures Valid()
      ensures owners == old(owners) - {m}
      ensures Keeps(old(View()), old(owners), View(), owners, {m})
      ensures View().active == old(View()).active == exec.activeMapping == old(exec.activeMapping)
    {
      HeldRelease(exec.View(), owners, m);
      assert HandlesHold(exec.View(), owners, m);
      ObservedWellFormed(exec.State());
      assert exec.View().mappings[m].references == exec.representations[m].references;
      exec.Release(m);
      owners := owners - {m};
    }

    /** Moves the slot to `target` and drops `handle`. */
    method Leave(target: Mapping, handle: Mapping)
      requires Valid() && (target in owners || target == exec.activeMapping)
      requires handle in owners && !owners[handle].Root?
      modifies exec, this`owners
      ensures Valid() && owners == old(owners) - {handle}
      ensures Keeps(old(View()), old(owners), View(), owners, {handle})
      ensures View().active == target == exec.activeMapping
    {
      Activate(target);
      ghost var (view, held) := (View(), owners);
      Drop(handle);
      KeepsTransitive(old(View()), old(owners), view, held, View(), owners, {}, {handle});
    }

    /** A short-lived handle on the active mapping. Where somebody holds it already, one handle more protects
        nothing further and is not counted. */
    method BorrowActive() returns (borrowed: bool)
      requires Valid()
      modifies exec, this`owners
      ensures Valid()
      ensures borrowed <==> exec.activeMapping !in old(owners)
      ensures owners == if borrowed then old(owners)[exec.activeMapping := Local] else old(owners)
      ensures exec.activeMapping in owners
      ensures Keeps(old(View()), old(owners), View(), owners, {})
      ensures View().active == old(View()).active == exec.activeMapping == old(exec.activeMapping)
    {
      var m := exec.activeMapping;
      ObservedWellFormed(exec.State());
      assert View().mappings[m].references == exec.representations[m].references;
      assert HandlesHold(exec.View(), owners, m);
      KeepsSame(exec.View(), owners, {});
      borrowed := exec.representations[m].references == 0;
      if borrowed {
        HeldRetain(exec.View(), owners, m);
        exec.Retain(m);
        owners := owners[m := Local];
      }
    }

    /** Switches the slot to `target`, or there and back if the switch is undone. The mapping the slot leaves
        is held until then. */
    method Switch(target: Mapping, undo: bool)
      requires Valid() && target in owners
      modifies exec, this`owners
      ensures Valid() && owners == old(owners)
      ensures Keeps(old(View()), old(owners), View(), owners, {})
      ensures View().active == exec.activeMapping == if undo then old(exec.activeMapping) else target
    {
      var previous := exec.activeMapping;
      var borrowed := BorrowActive();
      ghost var (view, held) := (View(), owners);
      SwitchHeld(target, previous, undo);
      KeepsTransitive(old(View()), old(owners), view, held, View(), owners, {}, {});
      if borrowed {
        view := View();
        Drop(previous);
        KeepsTransitive(old(View()), old(owners), view, held, View(), owners, {}, {previous});
        KeepsUnheld(old(View()), old(owners), View(), owners, previous);
      }
    }

    method SwitchHeld(target: Mapping, previous: Mapping, undo: bool)
      requires Valid() && target in owners && previous in owners
      modifies exec
      ensures Valid()
      ensures Keeps(old(View()), owners, View(), owners, {})
      ensures View().active == exec.activeMapping == if undo then previous else target
    {
      Activate(target);
      if undo {
        ghost var view := View();
        Activate(previous);
        KeepsTransitive(old(View()), owners, view, owners, View(), owners, {}, {});
      }
    }

    /** Imports spilled bytes and switches to them. Given up before or after the switch, nothing is left of it. */
    method ImportAndSwitch(bytes: seq<Byte>, position: nat, giveUp: bool, undo: bool) returns (m: Option<Mapping>)
      requires Valid() && Decode(bytes).Some?
      modifies exec, this`owners
      ensures Valid()
      ensures Keeps(old(View()), old(owners), View(), owners, {})
      ensures m.None? <==> giveUp || undo
      ensures m.None? ==> owners == old(owners) && View().active == exec.activeMapping == old(exec.activeMapping)
      ensures m.Some? ==>
                && m.value !in old(owners) && owners == old(owners)[m.value := Local]
                && View().active == m.value
                && m.value in View().mappings
                && View().mappings[m.value].content == Decode(bytes).value
                && View().mappings[m.value].position == position
    {
      m := Import(bytes, position);
      var imported := m.value;
      ghost var (view, held) := (View(), owners);
      if !giveUp {
        Switch(imported, undo);
        KeepsTransitive(old(View()), old(owners), view, held, View(), owners, {}, {});
        assert KeptAt(view, held, View(), owners, imported);
      }
      if giveUp || undo {
        view := View();
        Drop(imported);
        KeepsTransitive(old(View()), old(owners), view, held, View(), owners, {}, {imported});
        KeepsUnheld(old(View()), old(owners), View(), owners, imported);
        m := None;
      }
    }

    /** Forks the active mapping, gives the fork to `owner` and switches to it. */
    method Branch(owner: Owner) returns (m: Mapping)
      requires Valid() && exec.activeMapping in owners && !owner.Root?
      modifies exec, this`owners
      ensures Valid()
      ensures m !in old(owners) && owners == old(owners)[m := owner]
      ensures Keeps(old(View()), old(owners), View(), owners, {})
      ensures View().active == m == exec.activeMapping
      ensures old(View()).active in old(View()).mappings && m in View().mappings
      ensures View().mappings[m].content == old(View()).mappings[old(View()).active].content
      ensures View().mappings[m].position == old(View()).mappings[old(View()).active].position
    {
      m := Fork(exec.activeMapping);
      KeepsGiven(old(View()), old(owners), View(), m, owner);
      Give(m, owner);
      ghost var (view, held) := (View(), owners);
      assert owners == old(owners)[m := owner];
      Activate(m);
      KeepsTransitive(old(View()), old(owners), view, held, View(), owners, {}, {});
    }

    /** Switches to a mapping and decodes into it. */
    method DecodeOn(m: Mapping, tokens: seq<Token>, cancelled: bool) returns (logits: Option<Logits>)
      requires Valid() && tokens != [] && m in owners
      modifies exec
      ensures Valid() && m in old(View()).mappings
      ensures Keeps(old(View()), owners, View(), owners, {m})
      ensures logits.None? <==> cancelled
      ensures logits.Some? ==>
                var content := old(View()).mappings[m].content + tokens;
                && m in View().mappings
                && View().mappings[m].content == content
                && View().mappings[m].position == |content|
                && logits == Some(exec.model(content))
    {
      Activate(m);
      ghost var view := View();
      logits := DecodeActive(tokens, cancelled);
      KeepsTransitive(old(View()), owners, view, owners, View(), owners, {}, {m});
      assert {} + {m} == {m};
    }

    /** Hands a mapping held locally to a lasting owner. */
    ghost method Give(m: Mapping, owner: Owner)
      requires Valid() && m in owners && !owners[m].Root? && !owner.Root?
      modifies this`owners
      ensures Valid() && View() == old(View())
      ensures owners == old(owners)[m := owner]
      ensures Keeps(old(View()), old(owners), View(), owners, {m})
    {
      HeldGive(exec.View(), owners, m, owner);
      owners := owners[m := owner];
    }

    /** Decodes into the active mapping. A cancelled decode changes nothing. */
    method DecodeActive(tokens: seq<Token>, cancelled: bool) returns (logits: Option<Logits>)
      requires Valid() && tokens != []
      modifies exec
      ensures Valid()
      ensures Keeps(old(View()), owners, View(), owners, {old(View()).active})
      ensures View().active == old(View()).active == exec.activeMapping == old(exec.activeMapping)
      ensures logits.None? <==> cancelled
      ensures logits.None? ==> View() == old(View())
      ensures logits.Some? ==>
                var content := old(View()).mappings[old(View()).active].content + tokens;
                && View().active in View().mappings
                && View().mappings[View().active].content == content
                && View().mappings[View().active].position == |content|
                && logits == Some(exec.model(content))
    {
      exec.cancel := cancelled;
      HeldDecode(exec.View(), owners, tokens);
      KeepsSame(exec.View(), owners, {exec.activeMapping});
      var status, out := exec.DecodeTokens(tokens);
      return if status == Ok then Some(out) else None;
    }

    method Export(m: Mapping) returns (bytes: seq<Byte>, position: nat)
      requires Valid() && m in owners
      ensures m in View().mappings
      ensures bytes == Encode(View().mappings[m].content) && position == View().mappings[m].position
    {
      assert HandlesHold(exec.View(), owners, m);
      var size := exec.MappingStateSize(m);
      var status, b, required, p := exec.ExportMapping(m, size);
      return b, p;
    }
  }
}
