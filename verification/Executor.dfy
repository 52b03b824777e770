/** Snapshots of a token state as bytes: each 32-bit token little-endian, two's complement. */
module Snapshot {
  import opened Options
  import opened TokenSequence
  import opened Seqs

  type Byte = b: int | 0 <= b < 256

  const TOKEN_BYTES := 4

  function Unsigned(t: Token): nat {
    if t < 0 then t + 0x1_0000_0000 else t
  }

  function Signed(u: nat): Token
    requires u < 0x1_0000_0000
  {
    if u < 0x8000_0000 then u else u - 0x1_0000_0000
  }

  function TokenBytes(t: Token): (bytes: seq<Byte>)
    ensures |bytes| == TOKEN_BYTES
  {
    var u := Unsigned(t);
    [u % 256, u / 0x100 % 256, u / 0x1_0000 % 256, u / 0x100_0000]
  }

  function Word(a: nat, b: nat, c: nat, d: nat): nat {
    a + 0x100 * b + 0x1_0000 * c + 0x100_0000 * d
  }

  function TokenOf(bytes: seq<Byte>): Token
    requires |bytes| == TOKEN_BYTES
  {
    Signed(Word(bytes[0], bytes[1], bytes[2], bytes[3]))
  }

  lemma TokenRoundTrip(t: Token)
    ensures TokenOf(TokenBytes(t)) == t
  {
    var u := Unsigned(t);
    assert u == u % 256 + 0x100 * (u / 0x100);
    assert u / 0x100 == u / 0x100 % 256 + 0x100 * (u / 0x1_0000);
    assert u / 0x1_0000 == u / 0x1_0000 % 256 + 0x100 * (u / 0x100_0000);
  }

  function Encode(tokens: seq<Token>): (bytes: seq<Byte>)
    ensures |bytes| == TOKEN_BYTES * |tokens|
  {
    if tokens == [] then [] else TokenBytes(tokens[0]) + Encode(tokens[1..])
  }

  /** A byte count that is not a multiple of four is incompatible. */
  function Decode(bytes: seq<Byte>): Option<seq<Token>> {
    if bytes == [] then Some([])
    else if |bytes| < TOKEN_BYTES then None
    else
      match Decode(bytes[TOKEN_BYTES..])
      case None => None
      case Some(rest) => Some([TokenOf(bytes[..TOKEN_BYTES])] + rest)
  }

  lemma {:induction false} SnapshotRoundTrip(tokens: seq<Token>)
    ensures Decode(Encode(tokens)) == Some(tokens)
  {
    if tokens != [] {
      var (head, tail) := (TokenBytes(tokens[0]), Encode(tokens[1..]));
      assert (head + tail)[..TOKEN_BYTES] == head && (head + tail)[TOKEN_BYTES..] == tail;
      TokenRoundTrip(tokens[0]);
      SnapshotRoundTrip(tokens[1..]);
      assert [tokens[0]] + tokens[1..] == tokens;
    }
  }

  /** Four bytes for each token, the lowest first, that make up the token modulo the width of a word. */
  lemma {:induction false} LittleEndian(tokens: seq<Token>, i: nat)
    requires i < |tokens|
    ensures var (b, at) := (Encode(tokens), TOKEN_BYTES * i);
            (Word(b[at], b[at + 1], b[at + 2], b[at + 3]) - tokens[i]) % 0x1_0000_0000 == 0
  {
    if i > 0 {
      LittleEndian(tokens[1..], i - 1);
    } else {
      TokenIsBytes(tokens[0]);
    }
  }

  lemma TokenIsBytes(t: Token)
    ensures var b := TokenBytes(t); Word(b[0], b[1], b[2], b[3]) == Unsigned(t)
    ensures (Unsigned(t) - t) % 0x1_0000_0000 == 0
  {
    var u := Unsigned(t);
    assert u == u % 256 + 0x100 * (u / 0x100);
    assert u / 0x100 == u / 0x100 % 256 + 0x100 * (u / 0x1_0000);
    assert u / 0x1_0000 == u / 0x1_0000 % 256 + 0x100 * (u / 0x100_0000);
  }

  lemma {:induction false} DecodeDefined(bytes: seq<Byte>)
    ensures Decode(bytes).Some? <==> |bytes| % TOKEN_BYTES == 0
  {
    if |bytes| >= TOKEN_BYTES {
      assert (|bytes| - TOKEN_BYTES) % TOKEN_BYTES == |bytes| % TOKEN_BYTES;
      DecodeDefined(bytes[TOKEN_BYTES..]);
    }
  }
}

/**
 The native executor on its deterministic backend.

 One slot holds the active mapping's tokens; every other mapping is parked. `Exec` is what callers can observe;
 each operation of the class equals a function on `Exec`, and `Step` puts those functions together into runs.
 */
module Execution {
  import opened Options
  import opened TokenSequence
  import opened Snapshot

  type Mapping = nat
  type Logits = seq<real>

  /** The model: the logits after a token sequence. Nothing else is known of it. */
  type Model = seq<Token> -> Logits

  datatype Status = Ok | Invalid | Cancelled | Incompatible | BufferTooSmall

  datatype Fork = Fork(content: seq<Token>, position: nat)

  datatype Native = Native(content: seq<Token>, position: nat, references: nat)

  /** The published mappings, the prepared forks, the active mapping and the next mapping number. */
  datatype Exec = Exec(mappings: map<Mapping, Native>, pending: map<Mapping, Fork>, active: Mapping, next: Mapping)

  ghost predicate NumberHolds(e: Exec, m: Mapping) {
    && (m in e.mappings ==> m < e.next && m !in e.pending)
    && (m in e.pending ==> m < e.next)
  }

  /** The active mapping is published, none is published and pending, and the next number is new. */
  ghost predicate WellFormed(e: Exec) {
    e.active in e.mappings && forall m {:trigger NumberHolds(e, m)} :: NumberHolds(e, m)
  }

  lemma NumberFacts(e: Exec)
    requires WellFormed(e)
    ensures forall m :: m in e.mappings ==> m < e.next && m !in e.pending
    ensures forall m :: m in e.pending ==> m < e.next
  {
    forall m: Mapping
      ensures m in e.mappings ==> m < e.next && m !in e.pending
      ensures m in e.pending ==> m < e.next
    {
      assert NumberHolds(e, m);
    }
  }

  ghost predicate Kept(e: Exec, m: Mapping)
    requires m in e.mappings
  {
    m == e.active || e.mappings[m].references > 0
  }

  /** Everything unreferenced except the active mapping is reclaimed. */
  ghost function Reclaimed(e: Exec): Exec {
    e.(mappings := map m | m in e.mappings && Kept(e, m) :: e.mappings[m])
  }

  ghost function Decoded(e: Exec, tokens: seq<Token>): Exec
    requires e.active in e.mappings
  {
    var n := e.mappings[e.active];
    var content := n.content + tokens;
    e.(mappings := e.mappings[e.active := Native(content, |content|, n.references)])
  }

  ghost function WithFork(e: Exec, content: seq<Token>, position: nat): Exec {
    e.(pending := e.pending[e.next := Fork(content, position)], next := e.next + 1)
  }

  ghost function Forked(e: Exec, source: Mapping): Exec
    requires source in e.mappings
  {
    WithFork(Reclaimed(e), e.mappings[source].content, e.mappings[source].position)
  }

  ghost function WithPublished(e: Exec, m: Mapping): Exec
    requires m in e.pending
  {
    e.(mappings := e.mappings[m := Native(e.pending[m].content, e.pending[m].position, 1)],
       pending := e.pending - {m})
  }

  ghost function Discarded(e: Exec, m: Mapping): Exec {
    e.(pending := e.pending - {m})
  }

  /** The slot switches to `m`; the mapping it leaves goes too if nobody refers to it and it is not the root. */
  ghost function Activated(e: Exec, m: Mapping): Exec
    requires e.active in e.mappings
  {
    if m == e.active then e
    else if e.active != 0 && e.mappings[e.active].references == 0
    then e.(active := m, mappings := e.mappings - {e.active})
    else e.(active := m)
  }

  ghost function Imported(e: Exec, content: seq<Token>, position: nat): Exec {
    var r := Reclaimed(e);
    r.(mappings := r.mappings[e.next := Native(content, position, 1)], next := e.next + 1)
  }

  ghost function Adjusted(e: Exec, m: Mapping, delta: int): Exec
    requires m in e.mappings
  {
    var n := e.mappings[m].references + delta;
    e.(mappings := e.mappings[m := e.mappings[m].(references := if n >= 0 then n else 0)])
  }

  // ---- runs ----

  datatype Op =
    | OpDecode(tokens: seq<Token>)
    | OpFork(source: Mapping)
    | OpCommit(fork: Mapping)
    | OpDiscard(fork: Mapping)
    | OpActivate(target: Mapping)
    | OpImport(content: seq<Token>, position: nat)
    | OpRetain(mapping: Mapping)
    | OpRelease(mapping: Mapping)

  /** One operation. What the executor refuses leaves it as it is, or only reclaims. */
  ghost function Step(e: Exec, op: Op): Exec
    requires WellFormed(e)
  {
    match op
    case OpDecode(tokens) => if tokens == [] then e else Decoded(e, tokens)
    case OpFork(source) => if source in Reclaimed(e).mappings then Forked(e, source) else Reclaimed(e)
    case OpCommit(fork) => if fork in e.pending then WithPublished(e, fork) else e
    case OpDiscard(fork) => Discarded(e, fork)
    case OpActivate(target) => if target in e.mappings then Activated(e, target) else e
    case OpImport(content, position) => Imported(e, content, position)
    case OpRetain(m) => if m in e.mappings then Adjusted(e, m, 1) else e
    case OpRelease(m) => if m in e.mappings then Adjusted(e, m, -1) else e
  }

  lemma StepWellFormed(e: Exec, op: Op)
    requires WellFormed(e)
    ensures WellFormed(Step(e, op))
  {
    NumberFacts(e);
    assert forall m :: NumberHolds(Step(e, op), m);
  }

  ghost function Run(e: Exec, ops: seq<Op>): Exec
    requires WellFormed(e)
    ensures WellFormed(Run(e, ops))
    decreases |ops|
  {
    if ops == [] then e
    else
      StepWellFormed(e, ops[0]);
      Run(Step(e, ops[0]), ops[1..])
  }

  /** `m` is published in both, with the same content and position. */
  ghost predicate SameMapping(e: Exec, e': Exec, m: Mapping) {
    && m in e.mappings && m in e'.mappings
    && e.mappings[m].content == e'.mappings[m].content
    && e.mappings[m].position == e'.mappings[m].position
  }

  /** Isolation of one step: a mapping that somebody refers to keeps content and position, unless it is the
      active one of a decode. */
  lemma StepIsolates(e: Exec, op: Op, m: Mapping)
    requires WellFormed(e) && m in e.mappings && e.mappings[m].references > 0
    requires op.OpDecode? ==> m != e.active
    ensures SameMapping(e, Step(e, op), m)
  {
    assert NumberHolds(e, m) && NumberHolds(e, e.next);
  }

  /** `m` is referred to at every point of the run and is never the active mapping of a decode. */
  ghost predicate HeldThroughout(e: Exec, ops: seq<Op>, m: Mapping)
    requires WellFormed(e)
    decreases |ops|
  {
    && m in e.mappings && e.mappings[m].references > 0
    && (ops != [] ==>
          && (ops[0].OpDecode? ==> m != e.active)
          && WellFormed(Step(e, ops[0]))
          && HeldThroughout(Step(e, ops[0]), ops[1..], m))
  }

  /** Isolation over whole runs. */
  lemma {:induction false} RunIsolates(e: Exec, ops: seq<Op>, m: Mapping)
    requires WellFormed(e) && HeldThroughout(e, ops, m)
    ensures SameMapping(e, Run(e, ops), m)
    decreases |ops|
  {
    if ops != [] {
      StepWellFormed(e, ops[0]);
      StepIsolates(e, ops[0], m);
      RunIsolates(Step(e, ops[0]), ops[1..], m);
    }
  }

  // ---- what nobody refers to ----

  /** Every published mapping is in the slot or referred to. */
  ghost predicate NoneLoose(e: Exec) {
    forall m :: m in e.mappings ==> m == e.active || e.mappings[m].references > 0
  }

  predicate Collects(op: Op) {
    op.OpFork? || op.OpImport?
  }

  /** After a fork or an import, refused or not, nothing is published that nobody refers to. A mapping that was so is gone,
      and no later run publishes its number again. */
  lemma GoneForGood(e: Exec, op: Op, ops: seq<Op>, m: Mapping)
    requires WellFormed(e) && Collects(op)
    requires m in e.mappings && m != e.active && e.mappings[m].references == 0
    ensures WellFormed(Step(e, op)) && NoneLoose(Step(e, op)) && m !in Step(e, op).mappings
    ensures m !in Run(Step(e, op), ops).mappings
  {
    StepWellFormed(e, op);
    assert NumberHolds(e, m);
    GoneStays(Step(e, op), ops, m);
  }

  lemma {:induction false} GoneStays(e: Exec, ops: seq<Op>, m: Mapping)
    requires WellFormed(e) && m !in e.mappings && m !in e.pending && m < e.next
    ensures m !in Run(e, ops).mappings && m !in Run(e, ops).pending
    decreases |ops|
  {
    if ops != [] {
      StepWellFormed(e, ops[0]);
      assert NumberHolds(e, e.next);
      GoneStays(Step(e, ops[0]), ops[1..], m);
    }
  }

  /** Only a release makes a mapping loose: activation takes what it leaves unreferenced along, the root excepted. */
  lemma {:induction false} OnlyReleasesLoosen(e: Exec, ops: seq<Op>)
    requires WellFormed(e) && NoneLoose(e) && (0 in e.mappings ==> e.mappings[0].references > 0)
    requires forall i :: 0 <= i < |ops| ==> !ops[i].OpRelease?
    ensures NoneLoose(Run(e, ops))
    decreases |ops|
  {
    if ops != [] {
      StepWellFormed(e, ops[0]);
      StepLoosens(e, ops[0]);
      OnlyReleasesLoosen(Step(e, ops[0]), ops[1..]);
    }
  }

  lemma StepLoosens(e: Exec, op: Op)
    requires WellFormed(e) && NoneLoose(e) && (0 in e.mappings ==> e.mappings[0].references > 0) && !op.OpRelease?
    ensures NoneLoose(Step(e, op)) && (0 in Step(e, op).mappings ==> Step(e, op).mappings[0].references > 0)
  {
    assert NumberHolds(e, e.active);
  }

  /** `fork` is prepared in both, with the same content and position. */
  ghost predicate SameFork(e: Exec, e': Exec, fork: Mapping) {
    fork in e.pending && fork in e'.pending && e'.pending[fork] == e.pending[fork]
  }

  /** A prepared fork keeps content and position under everything but its own end, decodes on its source included. */
  lemma StepKeepsFork(e: Exec, op: Op, fork: Mapping)
    requires WellFormed(e) && fork in e.pending
    requires op != OpCommit(fork) && op != OpDiscard(fork)
    ensures SameFork(e, Step(e, op), fork)
  {
    assert NumberHolds(e, fork) && NumberHolds(e, e.next);
  }

  /** Over whole runs: whenever the fork is committed, it is what its source was when the fork was prepared. */
  lemma {:induction false} RunKeepsFork(e: Exec, ops: seq<Op>, fork: Mapping)
    requires WellFormed(e) && fork in e.pending
    requires forall i :: 0 <= i < |ops| ==> ops[i] != OpCommit(fork) && ops[i] != OpDiscard(fork)
    ensures SameFork(e, Run(e, ops), fork)
    ensures WithPublished(Run(e, ops), fork).mappings[fork] == Native(e.pending[fork].content, e.pending[fork].position, 1)
    decreases |ops|
  {
    if ops != [] {
      StepWellFormed(e, ops[0]);
      StepKeepsFork(e, ops[0], fork);
      RunKeepsFork(Step(e, ops[0]), ops[1..], fork);
    }
  }

  /** A fork starts equal to its source; committing it adds exactly that mapping, discarding it adds none. */
  lemma ForkEqualsSource(e: Exec, source: Mapping)
    requires WellFormed(e) && source in Reclaimed(e).mappings
    ensures e.next in Forked(e, source).pending
    ensures var f := WithPublished(Forked(e, source), e.next);
            && f.mappings == Reclaimed(e).mappings[e.next := e.mappings[source].(references := 1)]
            && f.pending == e.pending && f.active == e.active
    ensures Discarded(Forked(e, source), e.next) == Reclaimed(e).(next := e.next + 1)
  {
    assert NumberHolds(e, e.next);
    var fork := Fork(e.mappings[source].content, e.mappings[source].position);
    assert e.pending[e.next := fork] - {e.next} == e.pending;
  }

  /** Importing what was exported gives a mapping equal to the exported one, and leaves that one alone. */
  lemma ImportOfExport(e: Exec, m: Mapping)
    requires WellFormed(e) && m in e.mappings && Kept(e, m)
    ensures Decode(Encode(e.mappings[m].content)).Some?
    ensures var i := Imported(e, Decode(Encode(e.mappings[m].content)).value, e.mappings[m].position);
            && i.mappings[e.next] == e.mappings[m].(references := 1)
            && SameMapping(e, i, m)
  {
    SnapshotRoundTrip(e.mappings[m].content);
    assert NumberHolds(e, m);
  }

  // ---- the executor's own state ----

  datatype Representation = Representation(identity: nat, references: nat)

  type Representations = map<Mapping, Representation>

  /** Content of the slot, parked contents, positions, and the representations of published mappings. The
      slot's mapping may also have a stale parked copy. */
  datatype Slots = Slots(
    slot: seq<Token>,
    parked: map<Mapping, seq<Token>>,
    positions: map<Mapping, nat>,
    representations: Representations,
    active: Mapping,
    next: Mapping)

  ghost predicate SlotHolds(s: Slots, m: Mapping) {
    && (m in s.representations ==> m in s.positions && (m == s.active || m in s.parked))
    && (m in s.parked ==> m in s.positions)
    && (m in s.positions ==> m < s.next)
  }

  ghost predicate SlotsOk(s: Slots) {
    s.active in s.representations && forall m {:trigger SlotHolds(s, m)} :: SlotHolds(s, m)
  }

  lemma SlotFacts(s: Slots)
    requires SlotsOk(s)
    ensures forall m :: m in s.representations ==> m in s.positions && (m == s.active || m in s.parked)
    ensures forall m :: m in s.parked ==> m in s.positions
    ensures forall m :: m in s.positions ==> m < s.next
  {
    forall m: Mapping
      ensures m in s.representations ==> m in s.positions && (m == s.active || m in s.parked)
      ensures m in s.parked ==> m in s.positions
      ensures m in s.positions ==> m < s.next
    {
      assert SlotHolds(s, m);
    }
  }

  ghost function NativeOf(s: Slots, m: Mapping): Native
    requires SlotsOk(s) && m in s.representations
  {
    assert SlotHolds(s, m);
    Native(if m == s.active then s.slot else s.parked[m], s.positions[m], s.representations[m].references)
  }

  ghost function Natives(s: Slots): map<Mapping, Native>
    requires SlotsOk(s)
  {
    map m | m in s.representations :: NativeOf(s, m)
  }

  ghost function ForkOf(s: Slots, m: Mapping): Fork
    requires SlotsOk(s) && m in s.parked
  {
    assert SlotHolds(s, m);
    Fork(s.parked[m], s.positions[m])
  }

  ghost function Pending(s: Slots): map<Mapping, Fork>
    requires SlotsOk(s)
  {
    map m | m in s.parked && m !in s.representations :: ForkOf(s, m)
  }

  ghost function Observed(s: Slots): Exec
    requires SlotsOk(s)
  {
    Exec(Natives(s), Pending(s), s.active, s.next)
  }

  lemma ObservedWellFormed(s: Slots)
    requires SlotsOk(s)
    ensures WellFormed(Observed(s))
    ensures Observed(s).mappings.Keys == s.representations.Keys
  {
    SlotFacts(s);
    assert forall m :: NumberHolds(Observed(s), m);
  }

  function DecodedSlots(s: Slots, tokens: seq<Token>): Slots {
    var content := s.slot + tokens;
    s.(slot := content, parked := s.parked[s.active := content], positions := s.positions[s.active := |content|])
  }

  lemma ObservedDecode(s: Slots, tokens: seq<Token>)
    requires SlotsOk(s)
    ensures SlotsOk(DecodedSlots(s, tokens))
    ensures Observed(DecodedSlots(s, tokens)) == Decoded(Observed(s), tokens)
  {
    var s' := DecodedSlots(s, tokens);
    SlotFacts(s);
    assert forall x :: SlotHolds(s', x);
    assert Natives(s') == Decoded(Observed(s), tokens).mappings;
    assert Pending(s') == Pending(s);
  }

  function Erased(s: Slots, m: Mapping): Slots {
    s.(representations := s.representations - {m}, positions := s.positions - {m}, parked := s.parked - {m})
  }

  lemma ObservedErase(s: Slots, m: Mapping)
    requires SlotsOk(s) && m in s.representations && m != s.active
    ensures SlotsOk(Erased(s, m))
    ensures Observed(Erased(s, m)) == Observed(s).(mappings := Natives(s) - {m})
  {
    var s' := Erased(s, m);
    SlotFacts(s);
    assert forall x :: SlotHolds(s', x);
    assert Natives(s') == Natives(s) - {m};
    assert Pending(s') == Pending(s);
  }

  function ForkedSlots(s: Slots, content: seq<Token>, position: nat): Slots {
    s.(parked := s.parked[s.next := content], positions := s.positions[s.next := position], next := s.next + 1)
  }

  lemma ObservedFork(s: Slots, content: seq<Token>, position: nat)
    requires SlotsOk(s)
    ensures SlotsOk(ForkedSlots(s, content, position))
    ensures Observed(ForkedSlots(s, content, position)) == WithFork(Observed(s), content, position)
  {
    var s' := ForkedSlots(s, content, position);
    SlotFacts(s);
    assert forall x :: SlotHolds(s', x);
    assert Natives(s') == Natives(s);
    assert Pending(s') == Pending(s)[s.next := Fork(content, position)];
  }

  /** What a reclaimed store says of a kept source is what the store before said. */
  lemma SourceContent(s: Slots, before: Slots, source: Mapping)
    requires SlotsOk(s) && SlotsOk(before) && Observed(s) == Reclaimed(Observed(before))
    requires source in s.representations
    ensures source in Observed(before).mappings
    ensures NativeOf(s, source) == Observed(before).mappings[source]
  {
    assert SlotHolds(s, source) && NativeOf(s, source) == Observed(s).mappings[source];
  }

  lemma ObservedPublish(s: Slots, m: Mapping, identity: nat)
    requires SlotsOk(s) && m in s.parked && m !in s.representations
    ensures var s' := s.(representations := s.representations[m := Representation(identity, 1)]);
            SlotsOk(s') && Observed(s') == WithPublished(Observed(s), m)
  {
    var s' := s.(representations := s.representations[m := Representation(identity, 1)]);
    SlotFacts(s);
    assert forall x :: SlotHolds(s', x);
    assert Natives(s') == Natives(s)[m := Native(s.parked[m], s.positions[m], 1)];
    assert Pending(s') == Pending(s) - {m};
  }

  /** Parking a state and publishing it at once leaves no fork behind. */
  lemma ParkAndPublish(e: Exec, content: seq<Token>, position: nat)
    requires WellFormed(e)
    ensures WithPublished(WithFork(e, content, position), e.next) ==
            e.(mappings := e.mappings[e.next := Native(content, position, 1)], next := e.next + 1)
  {
    assert NumberHolds(e, e.next);
    assert e.pending[e.next := Fork(content, position)] - {e.next} == e.pending;
  }

  lemma ObservedDiscard(s: Slots, m: Mapping)
    requires SlotsOk(s) && m !in s.representations
    ensures SlotsOk(Erased(s, m)) && Observed(Erased(s, m)) == Discarded(Observed(s), m)
  {
    var s' := Erased(s, m);
    SlotFacts(s);
    assert forall x :: SlotHolds(s', x);
    assert Natives(s') == Natives(s);
    assert Pending(s') == Pending(s) - {m};
  }

  function Switched(s: Slots, m: Mapping): Slots
    requires m != s.active && m in s.parked
  {
    s.(slot := s.parked[m], parked := s.parked[s.active := s.slot] - {m}, active := m)
  }

  lemma ObservedSwitch(s: Slots, m: Mapping)
    requires SlotsOk(s) && m in s.representations && m != s.active
    ensures m in s.parked
    ensures SlotsOk(Switched(s, m)) && Observed(Switched(s, m)) == Observed(s).(active := m)
  {
    SlotFacts(s);
    var s' := Switched(s, m);
    assert s'.parked[s.active] == s.slot;
    SlotFacts(s);
    assert forall x :: SlotHolds(s', x);
    assert Natives(s') == Natives(s);
    assert Pending(s') == Pending(s);
  }

  lemma ObservedCount(s: Slots, m: Mapping, r: Representation)
    requires SlotsOk(s) && m in s.representations
    ensures var s' := s.(representations := s.representations[m := r]);
            && SlotsOk(s')
            && Observed(s') == Observed(s).(
                 mappings := Natives(s)[m := Natives(s)[m].(references := r.references)])
  {
    var s' := s.(representations := s.representations[m := r]);
    SlotFacts(s);
    assert forall x :: SlotHolds(s', x);
    assert Natives(s') == Natives(s)[m := Natives(s)[m].(references := r.references)];
    assert Pending(s') == Pending(s);
  }

  // ---- identities ----

  ghost predicate IdentityHolds(rs: Representations, epoch: nat, m: Mapping)
    requires m in rs
  {
    && rs[m].identity <= epoch
    && forall n :: n in rs && n != m ==> rs[n].identity != rs[m].identity
  }

  /** No two published mappings have the same identity, and the next one will be new. */
  ghost predicate Identified(rs: Representations, epoch: nat) {
    forall m {:trigger IdentityHolds(rs, epoch, m)} :: m in rs ==> IdentityHolds(rs, epoch, m)
  }

  lemma IdentifiedNext(rs: Representations, epoch: nat, m: Mapping, r: Representation)
    requires Identified(rs, epoch) && m !in rs && r.identity == epoch + 1
    ensures Identified(rs[m := r], epoch + 1)
  {
    var rs' := rs[m := r];
    forall x | x in rs'
      ensures IdentityHolds(rs', epoch + 1, x)
    {
      assert x != m ==> IdentityHolds(rs, epoch, x);
      forall y | y in rs
        ensures rs[y].identity <= epoch
      {
        assert IdentityHolds(rs, epoch, y);
      }
    }
  }

  lemma IdentifiedLess(rs: Representations, epoch: nat, m: Mapping)
    requires Identified(rs, epoch)
    ensures Identified(rs - {m}, epoch)
  {
    var rs' := rs - {m};
    forall x | x in rs'
      ensures IdentityHolds(rs', epoch, x)
    {
      assert IdentityHolds(rs, epoch, x);
    }
  }

  lemma IdentifiedSame(rs: Representations, epoch: nat, m: Mapping, r: Representation)
    requires Identified(rs, epoch) && m in rs && r.identity == rs[m].identity
    ensures Identified(rs[m := r], epoch)
  {
    var rs' := rs[m := r];
    forall x | x in rs'
      ensures IdentityHolds(rs', epoch, x)
    {
      assert IdentityHolds(rs, epoch, x) && IdentityHolds(rs, epoch, m);
    }
  }

  /** Reclaiming one by one, in any order, is reclaiming all. */
  lemma ReclaimOne(e: Exec, todo: set<Mapping>, partial: Exec, m: Mapping)
    requires PartlyReclaimed(e, todo, partial) && m in todo && m in e.mappings
    ensures !Kept(e, m) ==> PartlyReclaimed(e, todo - {m}, partial.(mappings := partial.mappings - {m}))
    ensures Kept(e, m) ==> PartlyReclaimed(e, todo - {m}, partial)
  {
  }

  ghost predicate PartlyReclaimed(e: Exec, todo: set<Mapping>, partial: Exec) {
    && partial == e.(mappings := partial.mappings)
    && forall m :: (m in partial.mappings <==> m in e.mappings && (m in todo || Kept(e, m)))
                   && (m in partial.mappings ==> partial.mappings[m] == e.mappings[m])
  }

  lemma FullyReclaimed(e: Exec, partial: Exec)
    requires PartlyReclaimed(e, {}, partial)
    ensures partial == Reclaimed(e)
  {
    assert partial.mappings == Reclaimed(e).mappings;
  }

  /** The executor object. Metrics of copied bytes and switches are not kept. */
  class Executor {
    const model: Model
    var mockState: seq<Token>
    var mockMappings: map<Mapping, seq<Token>>
    var positions: map<Mapping, nat>
    var representations: Representations
    var activeMapping: Mapping
    var nextMapping: Mapping
    var mappingEpoch: nat
    var cancel: bool

    ghost function State(): Slots
      reads this
    {
      Slots(mockState, mockMappings, positions, representations, activeMapping, nextMapping)
    }

    ghost predicate Valid()
      reads this
    {
      SlotsOk(State()) && Identified(representations, mappingEpoch)
    }

    ghost function View(): Exec
      requires Valid()
      reads this
    {
      Observed(State())
    }

    constructor (model: Model)
      ensures Valid()
      ensures this.model == model && !cancel
      ensures View() == Exec(map[0 := Native([], 0, 1)], map[], 0, 1)
    {
      this.model := model;
      mockState := [];
      mockMappings := map[];
      positions := map[0 := 0];
      representations := map[0 := Representation(0, 1)];
      activeMapping := 0;
      nextMapping := 1;
      mappingEpoch := 1;
      cancel := false;
    }

    method DecodeTokens(tokens: seq<Token>) returns (status: Status, logits: Logits)
      requires Valid()
      modifies this
      ensures Valid()
      ensures status == if tokens == [] then Invalid else if old(cancel) then Cancelled else Ok
      ensures status != Ok ==> View() == old(View())
      ensures status == Ok ==> old(View()).active in old(View()).mappings && View() == Decoded(old(View()), tokens)
      ensures status == Ok ==> logits == model(View().mappings[View().active].content)
      ensures tokens != [] ==> !cancel
    {
      if tokens == [] {
        return Invalid, [];
      }
      if cancel {
        cancel := false;
        return Cancelled, [];
      }
      ObservedDecode(State(), tokens);
      mockState := mockState + tokens;
      mockMappings := mockMappings[activeMapping := mockState];
      positions := positions[activeMapping := |mockState|];
      return Ok, model(mockState);
    }

    /** Drops everything recorded for one mapping. */
    method ReclaimRepresentation(m: Mapping)
      requires Valid() && m in representations && m != activeMapping
      modifies this`representations, this`positions, this`mockMappings
      ensures Valid()
      ensures View() == old(View()).(mappings := old(View()).mappings - {m})
      ensures representations == old(representations) - {m}
    {
      ObservedErase(State(), m);
      IdentifiedLess(representations, mappingEpoch, m);
      representations := representations - {m};
      positions := positions - {m};
      mockMappings := mockMappings - {m};
    }

    method ReclaimUnreferenced()
      requires Valid()
      modifies this`representations, this`positions, this`mockMappings
      ensures Valid()
      ensures View() == Reclaimed(old(View()))
    {
      var todo := representations.Keys;
      ObservedWellFormed(State());
      while todo != {}
        invariant Valid()
        invariant todo <= old(representations).Keys
        invariant PartlyReclaimed(old(View()), todo, View())
        decreases todo
      {
        var m :| m in todo;
        ObservedWellFormed(State());
        ReclaimOne(old(View()), todo, View(), m);
        todo := todo - {m};
        if m != activeMapping && representations[m].references == 0 {
          ReclaimRepresentation(m);
        }
      }
      FullyReclaimed(old(View()), View());
    }

    /** Reclaims, then copies the source's content into an unpublished mapping. */
    method PrepareMappingFork(source: Mapping) returns (status: Status, fork: Mapping)
      requires Valid()
      modifies this
      ensures Valid() && cancel == old(cancel)
      ensures status == if source in Reclaimed(old(View())).mappings then Ok else Invalid
      ensures View() == if status == Ok then Forked(old(View()), source) else Reclaimed(old(View()))
      ensures fork == old(nextMapping)
    {
      ReclaimUnreferenced();
      ObservedWellFormed(State());
      fork := nextMapping;
      if source !in representations {
        return Invalid, fork;
      }
      SlotFacts(State());
      SourceContent(State(), old(State()), source);
      Park(if source == activeMapping then mockState else mockMappings[source], positions[source]);
      return Ok, fork;
    }

    /** Parks a state under the next mapping number, unpublished. */
    method Park(content: seq<Token>, position: nat)
      requires Valid()
      modifies this`nextMapping, this`mockMappings, this`positions
      ensures Valid()
      ensures View() == WithFork(old(View()), content, position)
    {
      ObservedFork(State(), content, position);
      mockMappings := mockMappings[nextMapping := content];
      positions := positions[nextMapping := position];
      nextMapping := nextMapping + 1;
    }

    /** Publishes a prepared fork with one reference. What is not prepared, or committed already, is refused. */
    method CommitMapping(fork: Mapping) returns (status: Status)
      requires Valid()
      modifies this
      ensures Valid() && cancel == old(cancel)
      ensures status == if fork in old(View()).pending then Ok else Invalid
      ensures View() == if status == Ok then WithPublished(old(View()), fork) else old(View())
    {
      if fork !in mockMappings || fork in representations {
        return Invalid;
      }
      mappingEpoch := mappingEpoch + 1;
      var r := Representation(mappingEpoch, 1);
      ObservedPublish(State(), fork, mappingEpoch);
      IdentifiedNext(representations, mappingEpoch - 1, fork, r);
      representations := representations[fork := r];
      return Ok;
    }

    /** Drops a prepared fork; does nothing to what is committed or gone. */
    method DiscardMapping(fork: Mapping)
      requires Valid()
      modifies this
      ensures Valid() && cancel == old(cancel)
      ensures View() == Discarded(old(View()), fork)
    {
      if fork !in mockMappings || fork in representations {
        assert View().pending - {fork} == View().pending;
        return;
      }
      ObservedDiscard(State(), fork);
      assert representations - {fork} == representations;
      positions := positions - {fork};
      mockMappings := mockMappings - {fork};
    }

    method ActivateMapping(m: Mapping) returns (status: Status)
      requires Valid()
      modifies this
      ensures Valid() && cancel == old(cancel)
      ensures status == if m in old(View()).mappings then Ok else Invalid
      ensures old(View()).active in old(View()).mappings
      ensures View() == if status == Ok then Activated(old(View()), m) else old(View())
    {
      ObservedWellFormed(State());
      if m !in representations {
        return Invalid;
      }
      if m == activeMapping {
        return Ok;
      }
      ObservedSwitch(State(), m);
      var previous := activeMapping;
      mockMappings := mockMappings[previous := mockState];
      mockState := mockMappings[m];
      mockMappings := mockMappings - {m};
      activeMapping := m;
      if previous != 0 && representations[previous].references == 0 {
        ReclaimRepresentation(previous);
      }
      return Ok;
    }

    /** How large a buffer an export needs; nothing for what is not published. */
    method MappingStateSize(m: Mapping) returns (size: nat)
      requires Valid()
      ensures size == if m in View().mappings then TOKEN_BYTES * |View().mappings[m].content| else 0
    {
      if m !in representations {
        return 0;
      }
      SlotFacts(State());
      return TOKEN_BYTES * |if m == activeMapping then mockState else mockMappings[m]|;
    }

    /** Writes the content into a buffer of the given capacity. A buffer that is too small gets nothing, but size and
        position are told. */
    method ExportMapping(m: Mapping, capacity: nat)
      returns (status: Status, bytes: seq<Byte>, required: nat, position: nat)
      requires Valid()
      ensures status == if m !in View().mappings then Invalid
                        else if capacity < TOKEN_BYTES * |View().mappings[m].content| then BufferTooSmall
                        else Ok
      ensures status != Invalid ==>
                required == TOKEN_BYTES * |View().mappings[m].content| && position == View().mappings[m].position
      ensures bytes == if status == Ok then Encode(View().mappings[m].content) else []
    {
      if m !in representations {
        return Invalid, [], 0, 0;
      }
      required := MappingStateSize(m);
      SlotFacts(State());
      if capacity < required {
        return BufferTooSmall, [], required, positions[m];
      }
      return Ok, Encode(if m == activeMapping then mockState else mockMappings[m]), required, positions[m];
    }

    /** Reclaims, then publishes the decoded bytes as a new mapping with one reference. A refused import has
        already used up a mapping number. */
    method ImportMapping(bytes: seq<Byte>, position: nat) returns (status: Status, m: Mapping)
      requires Valid()
      modifies this
      ensures Valid() && cancel == old(cancel)
      ensures m == old(nextMapping)
      ensures status == if Decode(bytes).Some? then Ok else Incompatible
      ensures status == Ok ==> View() == Imported(old(View()), Decode(bytes).value, position)
      ensures status != Ok ==> View() == Reclaimed(old(View())).(next := m + 1)
    {
      ReclaimUnreferenced();
      m := nextMapping;
      var decoded := Decode(bytes);
      if decoded.None? {
        SlotFacts(State());
        nextMapping := nextMapping + 1;
        assert forall x :: SlotHolds(State(), x);
        return Incompatible, m;
      }
      Adopt(decoded.value, position);
      return Ok, m;
    }

    /** The part of an import that publishes the decoded state under the next number. */
    method Adopt(content: seq<Token>, position: nat)
      requires Valid()
      modifies this
      ensures Valid() && cancel == old(cancel)
      ensures View() == old(View()).(
                mappings := old(View()).mappings[old(nextMapping) := Native(content, position, 1)],
                next := old(nextMapping) + 1)
    {
      var m := nextMapping;
      ObservedWellFormed(State());
      ParkAndPublish(View(), content, position);
      Park(content, position);
      var status := CommitMapping(m);
    }

    method Retain(m: Mapping)
      requires Valid() && m in representations
      modifies this`representations
      ensures Valid() && m in old(View()).mappings
      ensures View() == Adjusted(old(View()), m, 1)
    {
      var r := representations[m].(references := representations[m].references + 1);
      ObservedCount(State(), m, r);
      IdentifiedSame(representations, mappingEpoch, m, r);
      representations := representations[m := r];
    }

    /** Dropping a handle; only its holder may. Nothing is reclaimed yet. */
    method Release(m: Mapping)
      requires Valid() && m in representations && representations[m].references > 0
      modifies this`representations
      ensures Valid() && m in old(View()).mappings
      ensures View() == Adjusted(old(View()), m, -1)
    {
      var r := representations[m].(references := representations[m].references - 1);
      ObservedCount(State(), m, r);
      IdentifiedSame(representations, mappingEpoch, m, r);
      representations := representations[m := r];
    }
  }
}
