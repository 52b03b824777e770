/**
 What the mapped engine shares between requests, as values, and its invariant.

 `FreeRun` is the reference: what a request generates when nothing is cached. The rest says when the shared
 state is sound: every resident content is its prefix's tokens, the root is empty, and the published prefixes
 form a trie of blocks.
 */
module EngineModel {
  import opened Options
  import opened TokenSequence
  import opened Snapshot
  import opened PrefixForest
  import opened StoreAccounting
  import opened ContextStore
  import opened Execution
  import Totals

  // ---- the cache-free run ----

  type SamplerState = int

  /** Model, sampler, end-of-generation test and profile of one engine. `sample` may depend on everything the
      sampler has seen, through its state. */
  datatype Config = Config(
    model: Model,
    sample: (SamplerState, Logits) -> (SamplerState, Token),
    endsGeneration: Token -> bool,
    ids: IdScheme,
    epochs: Epochs,
    required: Mask,
    blockSize: nat,
    contextCapacity: nat)

  datatype Progress = Progress(tokens: seq<Token>, sampler: SamplerState)

  /** `k` tokens generated after `input` by evaluating all tokens from scratch each time. */
  function FreeRun(cfg: Config, input: seq<Token>, start: SamplerState, k: nat): Progress {
    if k == 0 then Progress(input, start)
    else
      var p := FreeRun(cfg, input, start, k - 1);
      var (sampler, token) := cfg.sample(p.sampler, cfg.model(p.tokens));
      Progress(p.tokens + [token], sampler)
  }

  lemma {:induction false} FreeRunLength(cfg: Config, input: seq<Token>, start: SamplerState, k: nat)
    ensures |FreeRun(cfg, input, start, k).tokens| == |input| + k
    ensures input <= FreeRun(cfg, input, start, k).tokens
  {
    if k > 0 {
      FreeRunLength(cfg, input, start, k - 1);
    }
  }

  // ---- the block trie ----

  /** The prefix that tokens and parent determine. */
  function Node(cfg: Config, tokens: seq<Token>, parent: Option<EvaluatedPrefix>): EvaluatedPrefix {
    MappingFor(cfg.ids, Context(tokens, cfg.epochs, None, 0), |tokens|, parent, cfg.required, cfg.required, 0)
  }

  /** A published block has all components the profile requires, the engine's epochs and its parent's id. */
  lemma BlockRecords(cfg: Config, p: Published, id: Id)
    requires cfg.blockSize > 0 && BlockTrie(cfg, p) && id in p
    ensures p[id].required == p[id].complete == cfg.required && p[id].epochs == cfg.epochs && p[id].parameters == 0
    ensures p[id].end == |p[id].sequence| && p[id].branch == cfg.ids.branch(p[id].sequence)
    ensures p[id].parent.Some? <==> |p[id].sequence| > cfg.blockSize
  {
    assert NodeHolds(cfg, p, id) && p[id].sequence[..|p[id].sequence|] == p[id].sequence;
  }

  function ParentOf(p: Published, m: EvaluatedPrefix): Option<EvaluatedPrefix> {
    if m.parent.Some? && m.parent.value in p then Some(p[m.parent.value]) else None
  }

  /** A published prefix ends at a whole number of blocks, is determined by its tokens and parent, and its parent
      is the prefix one block shorter, or none for the first block. */
  ghost predicate NodeHolds(cfg: Config, p: Published, id: Id)
    requires id in p && cfg.blockSize > 0
  {
    var m := p[id];
    && m.id == id
    && |m.sequence| > 0 && |m.sequence| % cfg.blockSize == 0
    && m == Node(cfg, m.sequence, ParentOf(p, m))
    && (if |m.sequence| == cfg.blockSize then m.parent.None?
        else
          && |m.sequence| > cfg.blockSize
          && m.parent.Some? && m.parent.value in p
          && p[m.parent.value].sequence == m.sequence[..|m.sequence| - cfg.blockSize])
  }

  /** No other published prefix has the same tokens. */
  ghost predicate OnlyOne(p: Published, id: Id)
    requires id in p
  {
    forall other :: other in p && p[other].sequence == p[id].sequence ==> other == id
  }

  ghost predicate BlockTrie(cfg: Config, p: Published)
    requires cfg.blockSize > 0
  {
    && (forall id {:trigger NodeHolds(cfg, p, id)} :: id in p ==> NodeHolds(cfg, p, id))
    && (forall id {:trigger OnlyOne(p, id)} :: id in p ==> OnlyOne(p, id))
  }

  /** `parent` is the published prefix of the whole blocks of `tokens`, none if there is no whole block. */
  ghost predicate CoversBlocks(cfg: Config, p: Published, parent: Option<Id>, tokens: seq<Token>)
    requires cfg.blockSize > 0
  {
    var whole := |tokens| - |tokens| % cfg.blockSize;
    match parent
    case None => whole == 0
    case Some(id) => whole > 0 && id in p && p[id].sequence == tokens[..whole]
  }

  /** The next block after its parent is determined, so it is published at most once. */
  lemma NodeUnique(cfg: Config, p: Published, tokens: seq<Token>, parent: Option<Id>, other: Id)
    requires cfg.blockSize > 0 && BlockTrie(cfg, p)
    requires |tokens| > 0 && |tokens| % cfg.blockSize == 0
    requires CoversBlocks(cfg, p, parent, tokens[..|tokens| - cfg.blockSize])
    requires other in p && p[other].sequence == tokens
    ensures p[other] == Node(cfg, tokens, if parent.Some? then Some(p[parent.value]) else None)
  {
    assert NodeHolds(cfg, p, other);
    var rest := |tokens| - cfg.blockSize;
    BlocksLess(|tokens|, cfg.blockSize);
    assert tokens[..rest][..rest] == tokens[..rest];
    if parent.Some? {
      assert OnlyOne(p, parent.value);
      assert p[other].parent == parent;
    }
  }

  lemma MulSign(b: int, d: int)
    requires b > 0
    ensures d >= 1 ==> b * d >= b
    ensures d <= -1 ==> b * d <= -b
  {
  }

  lemma ModUnique(n: nat, b: nat, q: int, r: int)
    requires b > 0 && n == b * q + r && 0 <= r < b
    ensures n % b == r && n / b == q
  {
    assert b * (q - n / b) == n % b - r;
    MulSign(b, q - n / b);
  }

  lemma BlocksLess(n: nat, b: nat)
    requires b > 0 && n > 0 && n % b == 0
    ensures n >= b && (n - b) % b == 0
  {
    assert n == b * (n / b);
    MulSign(b, n / b);
    assert b * (n / b - 1) == n - b;
    ModUnique(n - b, b, n / b - 1, 0);
  }

  /** Publishing the next block keeps the trie. */
  lemma TrieGrows(cfg: Config, p: Published, tokens: seq<Token>, parent: Option<Id>, m: EvaluatedPrefix)
    requires cfg.blockSize > 0 && BlockTrie(cfg, p)
    requires |tokens| > 0 && |tokens| % cfg.blockSize == 0 && |tokens| >= cfg.blockSize
    requires CoversBlocks(cfg, p, parent, tokens[..|tokens| - cfg.blockSize])
    requires m == Node(cfg, tokens, if parent.Some? then Some(p[parent.value]) else None)
    requires m.id in p ==> p[m.id] == m
    ensures BlockTrie(cfg, p[m.id := m])
    ensures CoversBlocks(cfg, p[m.id := m], Some(m.id), tokens)
  {
    var p' := p[m.id := m];
    var rest := |tokens| - cfg.blockSize;
    BlocksLess(|tokens|, cfg.blockSize);
    assert tokens[..|tokens|] == tokens && tokens[..rest][..rest] == tokens[..rest];
    assert m.sequence == tokens;
    if m.id in p {
      assert p' == p;
    } else {
      if parent.Some? {
        assert NodeHolds(cfg, p, parent.value);
      }
      forall id | id in p'
        ensures NodeHolds(cfg, p', id)
      {
        if id == m.id {
          assert ParentOf(p', m) == if parent.Some? then Some(p[parent.value]) else None;
        } else {
          assert NodeHolds(cfg, p, id);
          assert ParentOf(p', p[id]) == ParentOf(p, p[id]);
        }
      }
      forall id | id in p'
        ensures OnlyOne(p', id)
      {
        forall other | other in p
          ensures p[other].sequence != tokens
        {
          assert NodeHolds(cfg, p, other);
          if p[other].sequence == tokens {
            NodeUnique(cfg, p, tokens, parent, other);
          }
        }
        if id != m.id {
          assert OnlyOne(p, id);
        }
      }
    }
  }

  // ---- the shared state ----

  /** Who holds a native mapping: the engine its root, the cache a published prefix, a request its own branch;
      `Local` is a handle inside one step. */
  datatype Owner = Root | Cached(id: Id) | Request(ticket: nat) | Local

  datatype Spilled = Spilled(bytes: nat, position: nat)

  datatype Resident = Resident(native: Option<Mapping>, spill: Option<Spilled>, continuation: Logits)

  type Owners = map<Mapping, Owner>
  type Residents = map<Id, Resident>
  type Files = map<Id, seq<Byte>>

  /** Executor, store, cache entries, spill files (named by prefix id) and the owner of every held mapping. */
  datatype Shared = Shared(exec: Exec, store: StoreView, resident: Residents, files: Files, owners: Owners)

  /** Handles on a mapping. The root has the executor's own reference besides the engine's. */
  ghost function HandleCount(owners: Owners, m: Mapping): nat {
    if m !in owners then 0 else if owners[m].Root? then 2 else 1
  }

  ghost predicate HandlesHold(e: Exec, owners: Owners, m: Mapping) {
    && (m in owners ==> m in e.mappings)
    && (m in e.mappings ==> e.mappings[m].references == HandleCount(owners, m))
  }

  /** Every held mapping is published, and the counts are exactly the handles: what nobody holds is free to be
      reclaimed. */
  ghost predicate Held(e: Exec, owners: Owners) {
    Execution.WellFormed(e) && forall m {:trigger HandlesHold(e, owners, m)} :: HandlesHold(e, owners, m)
  }

  /** Nothing is published that neither is in the slot nor has an owner. */
  ghost predicate NothingUnowned(e: Exec, owners: Owners) {
    forall m :: m in e.mappings ==> m == e.active || m in owners
  }

  lemma HandleFacts(e: Exec, owners: Owners)
    requires Held(e, owners)
    ensures forall m :: m in e.mappings ==> m < e.next && m !in e.pending
    ensures forall m :: m in owners ==> m in e.mappings
    ensures forall m :: m in e.mappings ==> e.mappings[m].references == HandleCount(owners, m)
  {
    NumberFacts(e);
    forall m
      ensures m in owners ==> m in e.mappings
      ensures m in e.mappings ==> e.mappings[m].references == HandleCount(owners, m)
    {
      assert HandlesHold(e, owners, m);
    }
  }

  /** Held, from the plain facts. */
  lemma HeldFromFacts(e: Exec, owners: Owners)
    requires e.active in e.mappings
    requires forall m :: m in e.mappings ==> m < e.next && m !in e.pending
    requires forall m :: m in e.pending ==> m < e.next
    requires forall m :: m in owners ==> m in e.mappings
    requires forall m :: m in e.mappings ==> e.mappings[m].references == HandleCount(owners, m)
    ensures Held(e, owners)
  {
    assert forall m :: NumberHolds(e, m);
    assert forall m :: HandlesHold(e, owners, m);
  }

  lemma KeepsSame(e: Exec, owners: Owners, except: set<Mapping>)
    requires Held(e, owners)
    ensures Keeps(e, owners, e, owners, except)
  {
    forall m | m in owners
      ensures KeptAt(e, owners, e, owners, m)
    {
      assert HandlesHold(e, owners, m);
    }
  }

  lemma HeldGive(e: Exec, owners: Owners, m: Mapping, owner: Owner)
    requires Held(e, owners) && m in owners && !owners[m].Root? && !owner.Root?
    ensures Held(e, owners[m := owner])
    ensures Keeps(e, owners, e, owners[m := owner], {m})
  {
    HandleFacts(e, owners);
    NumberFacts(e);
    HeldFromFacts(e, owners[m := owner]);
    assert forall x :: x in owners && x != m ==> KeptAt(e, owners, e, owners[m := owner], x);
  }

  /** The cached content of `id` is exactly its tokens, wherever it is, and the saved logits are theirs. */
  ghost predicate ResidentHolds(cfg: Config, sh: Shared, id: Id)
    requires id in sh.resident
  {
    var r := sh.resident[id];
    && id in sh.store.published
    && var tokens := sh.store.published[id].sequence;
       && r.continuation == cfg.model(tokens)
       && (match r.native
           case Some(m) =>
             && r.spill.None?
             && m in sh.owners && sh.owners[m] == Cached(id)
             && m in sh.exec.mappings
             && sh.exec.mappings[m].content == tokens && sh.exec.mappings[m].position == |tokens|
           case None =>
             && r.spill.Some? && id in sh.files
             && sh.files[id] == Encode(tokens)
             && r.spill.value == Spilled(|sh.files[id]|, |tokens|))
  }

  function SpilledSizes(rs: Residents): map<Id, nat> {
    map id | id in rs :: SizeOf(rs[id])
  }

  /** `bytes` is what all spilled entries come to, and no more than may be spilled. */
  ghost predicate SpillsCounted(rs: Residents, capacity: Option<nat>, bytes: nat) {
    && (forall n: nat {:trigger SpillsTo(rs, n)} :: n == bytes ==> SpillsTo(rs, n))
    && bytes <= (if capacity.Some? then capacity.value else 0)
  }

  ghost predicate SpillsTo(rs: Residents, n: nat) {
    n == Totals.Total(SpilledSizes(rs))
  }

  function SizeOf(r: Resident): nat {
    if r.spill.Some? then r.spill.value.bytes else 0
  }

  lemma OneMoreSpilled(rs: Residents, capacity: Option<nat>, bytes: nat, id: Id, r: Resident)
    requires SpillsCounted(rs, capacity, bytes) && id in rs
    requires bytes + SizeOf(r) <= (if capacity.Some? then capacity.value else 0) + SizeOf(rs[id])
    ensures bytes >= SizeOf(rs[id])
    ensures SpillsCounted(rs[id := r], capacity, bytes - SizeOf(rs[id]) + SizeOf(r))
  {
    assert SpillsTo(rs, bytes);
    assert SpilledSizes(rs[id := r]) == SpilledSizes(rs)[id := SizeOf(r)];
    Totals.TotalUpdate(SpilledSizes(rs), id, SizeOf(r));
    Totals.TotalWithout(SpilledSizes(rs), id);
  }

  lemma NoneSpilled(capacity: Option<nat>)
    ensures SpillsCounted(map[], capacity, 0)
  {
    assert SpilledSizes(map[]) == map[];
  }

  lemma NewNotSpilled(rs: Residents, capacity: Option<nat>, bytes: nat, id: Id, r: Resident)
    requires SpillsCounted(rs, capacity, bytes) && id !in rs && r.spill.None?
    ensures SpillsCounted(rs[id := r], capacity, bytes)
  {
    assert SpillsTo(rs, bytes);
    assert SpilledSizes(rs[id := r]) == SpilledSizes(rs)[id := 0];
    Totals.TotalAdd(SpilledSizes(rs), id, 0);
  }

  ghost predicate RootHolds(sh: Shared) {
    && 0 in sh.owners && sh.owners[0] == Root
    && 0 in sh.exec.mappings
    && sh.exec.mappings[0].content == [] && sh.exec.mappings[0].position == 0
  }

  /** The catalog holds every published prefix, and all are of the engine's epochs. */
  ghost predicate StoreHolds(cfg: Config, v: StoreView)
    requires cfg.blockSize > 0
  {
    && Forest(v.published)
    && BlockTrie(cfg, v.published)
    && v.catalog.Keys == v.published.Keys
    && (forall id :: id in v.catalog ==> v.catalog[id] > 0)
  }

  ghost predicate Sound(cfg: Config, sh: Shared)
    requires cfg.blockSize > 0
  {
    && Held(sh.exec, sh.owners)
    && RootHolds(sh)
    && StoreHolds(cfg, sh.store)
    && sh.resident.Keys == sh.store.published.Keys
    && (forall id {:trigger ResidentHolds(cfg, sh, id)} :: id in sh.resident ==> ResidentHolds(cfg, sh, id))
  }

  // ---- executor operations and held mappings ----

  /** A held mapping is still there, with owner, content and position. */
  ghost predicate KeptAt(a: Exec, ao: Owners, b: Exec, bo: Owners, m: Mapping) {
    m in ao && m in bo && bo[m] == ao[m] && SameMapping(a, b, m)
  }

  /** Everything held is still there, except in `except`. */
  ghost predicate Keeps(a: Exec, ao: Owners, b: Exec, bo: Owners, except: set<Mapping>) {
    forall m {:trigger KeptAt(a, ao, b, bo, m)} :: m in ao && m !in except ==> KeptAt(a, ao, b, bo, m)
  }

  /** What nobody held need not be excepted. */
  lemma KeepsUnheld(a: Exec, ao: Owners, b: Exec, bo: Owners, m: Mapping)
    requires Keeps(a, ao, b, bo, {m}) && m !in ao
    ensures Keeps(a, ao, b, bo, {})
  {
  }

  /** Who is given a new mapping does not matter to the others. */
  lemma KeepsGiven(a: Exec, ao: Owners, b: Exec, m: Mapping, owner: Owner)
    requires Keeps(a, ao, b, ao[m := Local], {}) && m !in ao
    ensures Keeps(a, ao, b, ao[m := owner], {})
  {
    forall x | x in ao
      ensures KeptAt(a, ao, b, ao[m := owner], x)
    {
      assert KeptAt(a, ao, b, ao[m := Local], x);
    }
  }

  lemma KeepsTransitive(a: Exec, ao: Owners, b: Exec, bo: Owners, c: Exec, co: Owners, x: set<Mapping>, y: set<Mapping>)
    requires Keeps(a, ao, b, bo, x) && Keeps(b, bo, c, co, y)
    ensures Keeps(a, ao, c, co, x + y)
  {
    forall m | m in ao && m !in x + y
      ensures KeptAt(a, ao, c, co, m)
    {
      assert KeptAt(a, ao, b, bo, m) && KeptAt(b, bo, c, co, m);
    }
  }

  lemma HeldActivate(e: Exec, owners: Owners, m: Mapping)
    requires Held(e, owners) && (m in owners || m == e.active)
    ensures m in e.mappings
    ensures Held(Activated(e, m), owners) && Activated(e, m).active == m
    ensures Keeps(e, owners, Activated(e, m), owners, {})
    ensures SameMapping(e, Activated(e, m), m)
  {
    HandleFacts(e, owners);
    NumberFacts(e);
    HeldFromFacts(Activated(e, m), owners);
    assert forall x :: x in owners ==> KeptAt(e, owners, Activated(e, m), owners, x);
  }

  lemma HeldFork(e: Exec, owners: Owners, source: Mapping)
    requires Held(e, owners) && (source in owners || source == e.active)
    ensures source in Reclaimed(e).mappings && e.next in Forked(e, source).pending
    ensures e.next !in owners && e.next != e.active
    ensures var f := WithPublished(Forked(e, source), e.next);
            && Held(f, owners[e.next := Local]) && f.active == e.active
            && Keeps(e, owners, f, owners[e.next := Local], {}) && NothingUnowned(f, owners[e.next := Local])
            && e.next in f.mappings && source in e.mappings
            && f.mappings[e.next].content == e.mappings[source].content
            && f.mappings[e.next].position == e.mappings[source].position
  {
    HandleFacts(e, owners);
    NumberFacts(e);
    ForkEqualsSource(e, source);
    var (f, o) := (WithPublished(Forked(e, source), e.next), owners[e.next := Local]);
    HeldFromFacts(f, o);
    assert forall x :: x in owners ==> KeptAt(e, owners, f, o, x);
  }

  lemma HeldImport(e: Exec, owners: Owners, content: seq<Token>, position: nat)
    requires Held(e, owners)
    ensures e.next !in owners
    ensures var f := Imported(e, content, position);
            && Held(f, owners[e.next := Local]) && f.active == e.active
            && Keeps(e, owners, f, owners[e.next := Local], {}) && NothingUnowned(f, owners[e.next := Local])
            && e.next in f.mappings
            && f.mappings[e.next].content == content && f.mappings[e.next].position == position
  {
    HandleFacts(e, owners);
    NumberFacts(e);
    var (f, o) := (Imported(e, content, position), owners[e.next := Local]);
    HeldFromFacts(f, o);
    assert forall x :: x in owners ==> KeptAt(e, owners, f, o, x);
  }

  lemma HeldReclaim(e: Exec, owners: Owners)
    requires Held(e, owners)
    ensures Held(Reclaimed(e).(next := e.next + 1), owners)
    ensures Keeps(e, owners, Reclaimed(e).(next := e.next + 1), owners, {})
    ensures NothingUnowned(Reclaimed(e), owners)
  {
    HandleFacts(e, owners);
    NumberFacts(e);
    HeldFromFacts(Reclaimed(e).(next := e.next + 1), owners);
    assert forall x :: x in owners ==> KeptAt(e, owners, Reclaimed(e).(next := e.next + 1), owners, x);
  }

  lemma HeldDecode(e: Exec, owners: Owners, tokens: seq<Token>)
    requires Held(e, owners)
    ensures var d := Decoded(e, tokens);
            && Held(d, owners) && d.active == e.active
            && Keeps(e, owners, d, owners, {e.active})
            && d.active in d.mappings
            && d.mappings[d.active].content == e.mappings[e.active].content + tokens
            && d.mappings[d.active].position == |e.mappings[e.active].content + tokens|
  {
    HandleFacts(e, owners);
    NumberFacts(e);
    HeldFromFacts(Decoded(e, tokens), owners);
    assert forall x :: x in owners && x != e.active ==> KeptAt(e, owners, Decoded(e, tokens), owners, x);
  }

  lemma HeldRetain(e: Exec, owners: Owners, m: Mapping)
    requires Held(e, owners) && m == e.active && m !in owners
    ensures Held(Adjusted(e, m, 1), owners[m := Local])
    ensures Keeps(e, owners, Adjusted(e, m, 1), owners[m := Local], {})
    ensures Adjusted(e, m, 1).active == e.active
    ensures SameMapping(e, Adjusted(e, m, 1), m)
  {
    HandleFacts(e, owners);
    NumberFacts(e);
    HeldFromFacts(Adjusted(e, m, 1), owners[m := Local]);
    assert forall x :: x in owners ==> KeptAt(e, owners, Adjusted(e, m, 1), owners[m := Local], x);
  }

  lemma HeldRelease(e: Exec, owners: Owners, m: Mapping)
    requires Held(e, owners) && m in owners && !owners[m].Root?
    ensures m in e.mappings
    ensures Held(Adjusted(e, m, -1), owners - {m})
    ensures Keeps(e, owners, Adjusted(e, m, -1), owners - {m}, {m})
    ensures Adjusted(e, m, -1).active == e.active
  {
    HandleFacts(e, owners);
    NumberFacts(e);
    HeldFromFacts(Adjusted(e, m, -1), owners - {m});
    assert forall x :: x in owners && x != m ==> KeptAt(e, owners, Adjusted(e, m, -1), owners - {m}, x);
  }

  // ---- what one step leaves to the others ----

  /** What root and cache hold stays, with owner, content and position. */
  ghost predicate CacheKept(a: Shared, b: Shared) {
    forall m {:trigger KeptAt(a.exec, a.owners, b.exec, b.owners, m)} ::
      m in a.owners && (a.owners[m].Root? || a.owners[m].Cached?) ==> KeptAt(a.exec, a.owners, b.exec, b.owners, m)
  }

  /** What requests hold stays, `mine` excepted. */
  ghost predicate RequestsKept(a: Shared, b: Shared, mine: Option<nat>) {
    forall m {:trigger KeptAt(a.exec, a.owners, b.exec, b.owners, m)} ::
      m in a.owners && a.owners[m].Request? && Some(a.owners[m].ticket) != mine ==>
        KeptAt(a.exec, a.owners, b.exec, b.owners, m)
  }

  /** Moving only what one request or one step holds. */
  lemma KeepsOthers(a: Shared, b: Shared, except: set<Mapping>, mine: Option<nat>)
    requires Keeps(a.exec, a.owners, b.exec, b.owners, except)
    requires forall m :: m in except && m in a.owners ==>
               a.owners[m].Local? || (a.owners[m].Request? && Some(a.owners[m].ticket) == mine)
    ensures CacheKept(a, b) && RequestsKept(a, b, mine)
  {
  }

  /** Moving one cache entry. */
  lemma KeepsRequests(a: Shared, b: Shared, m: Mapping)
    requires Keeps(a.exec, a.owners, b.exec, b.owners, {m})
    requires m in a.owners && a.owners[m].Cached?
    ensures RequestsKept(a, b, None)
  {
  }

  lemma RequestsKeptTransitive(a: Shared, b: Shared, c: Shared, mine: Option<nat>)
    requires RequestsKept(a, b, mine) && RequestsKept(b, c, mine)
    ensures RequestsKept(a, c, mine)
  {
    forall m | m in a.owners && a.owners[m].Request? && Some(a.owners[m].ticket) != mine
      ensures KeptAt(a.exec, a.owners, c.exec, c.owners, m)
    {
      assert KeptAt(a.exec, a.owners, b.exec, b.owners, m) && KeptAt(b.exec, b.owners, c.exec, c.owners, m);
    }
  }

  lemma NothingMoved(a: Shared, mine: Option<nat>)
    requires Held(a.exec, a.owners)
    ensures CacheKept(a, a) && RequestsKept(a, a, mine)
  {
    KeepsSame(a.exec, a.owners, {});
    KeepsOthers(a, a, {}, mine);
  }

  /** A step leaves no handle of its own behind. */
  ghost predicate LocalsKept(ao: Owners, bo: Owners) {
    forall m :: m in bo && bo[m] == Local ==> m in ao && ao[m] == Local
  }

  /** The slot holds exactly these tokens, and somebody holds its mapping. */
  ghost predicate SlotHas(sh: Shared, tokens: seq<Token>) {
    && sh.exec.active in sh.owners && sh.exec.active in sh.exec.mappings
    && sh.exec.mappings[sh.exec.active].content == tokens
    && sh.exec.mappings[sh.exec.active].position == |tokens|
  }

  lemma CachedInSlot(cfg: Config, sh: Shared, id: Id)
    requires cfg.blockSize > 0 && Sound(cfg, sh)
    requires id in sh.resident && sh.resident[id].native == Some(sh.exec.active)
    ensures id in sh.store.published && SlotHas(sh, sh.store.published[id].sequence)
  {
    assert ResidentHolds(cfg, sh, id);
  }

  /** A mapping that a request holds, with exactly these tokens. */
  ghost predicate BranchHolds(sh: Shared, ticket: nat, m: Mapping, tokens: seq<Token>) {
    && m in sh.owners && sh.owners[m] == Request(ticket)
    && m in sh.exec.mappings
    && sh.exec.mappings[m].content == tokens
    && sh.exec.mappings[m].position == |tokens|
  }

  /** No published prefix that serves the context is longer. */
  ghost predicate IsLongestLength(p: Published, c: Context, length: nat) {
    forall id :: id in p && Matches(p[id], c) ==> p[id].end <= length
  }

  ghost predicate PrefixKept(a: StoreView, b: StoreView, id: Id) {
    id in a.published ==> id in b.published && b.published[id] == a.published[id]
  }

  ghost predicate ContextKept(a: StoreView, b: StoreView, c: ContextId) {
    c in a.contexts ==> c in b.contexts && b.contexts[c] == a.contexts[c]
  }

  /** Nothing published goes away, and contexts other than `mine` stay as they are. */
  ghost predicate StoreGrows(a: StoreView, b: StoreView, mine: Option<ContextId>) {
    && a.next <= b.next
    && (forall id {:trigger PrefixKept(a, b, id)} :: PrefixKept(a, b, id))
    && (forall c: ContextId {:trigger ContextKept(a, b, c)} :: mine != Some(c) ==> ContextKept(a, b, c))
  }

  /** All that a request other than `mine` relies on. */
  ghost predicate Undisturbed(a: Shared, b: Shared, mine: Option<nat>, context: Option<ContextId>) {
    && (forall x: Shared {:trigger RequestsKept(a, x, mine)} :: x == b ==> RequestsKept(a, x, mine))
    && (forall v: StoreView {:trigger StoreGrows(a.store, v, context)} :: v == b.store ==> StoreGrows(a.store, v, context))
  }

  lemma UndisturbedFacts(a: Shared, b: Shared, mine: Option<nat>, context: Option<ContextId>)
    requires Undisturbed(a, b, mine, context)
    ensures RequestsKept(a, b, mine) && StoreGrows(a.store, b.store, context)
  {
    assert RequestsKept(a, b, mine) && StoreGrows(a.store, b.store, context);
  }

  /** What disturbs nobody disturbs nobody else. */
  lemma UndisturbedByNone(a: Shared, b: Shared, mine: Option<nat>, context: Option<ContextId>)
    requires Undisturbed(a, b, None, None)
    ensures Undisturbed(a, b, mine, context)
  {
    UndisturbedFacts(a, b, None, None);
  }

  lemma UndisturbedTransitive(a: Shared, b: Shared, c: Shared, mine: Option<nat>, context: Option<ContextId>)
    requires Undisturbed(a, b, mine, context) && Undisturbed(b, c, mine, context)
    ensures Undisturbed(a, c, mine, context)
  {
    RequestsKeptTransitive(a, b, c, mine);
    StoreGrowsTransitive(a.store, b.store, c.store, context);
  }

  lemma StoreGrowsTransitive(a: StoreView, b: StoreView, c: StoreView, mine: Option<ContextId>)
    requires StoreGrows(a, b, mine) && StoreGrows(b, c, mine)
    ensures StoreGrows(a, c, mine)
  {
    forall id
      ensures PrefixKept(a, c, id)
    {
      assert PrefixKept(a, b, id) && PrefixKept(b, c, id);
    }
    forall x: ContextId | mine != Some(x)
      ensures ContextKept(a, c, x)
    {
      assert ContextKept(a, b, x) && ContextKept(b, c, x);
    }
  }

  /** Soundness depends on what root and cache hold, on the cache entries, the files and the prefixes. */
  lemma SoundFrame(cfg: Config, a: Shared, b: Shared)
    requires cfg.blockSize > 0
    requires Sound(cfg, a) && Held(b.exec, b.owners) && CacheKept(a, b)
    requires b.resident == a.resident && b.files == a.files
    requires b.store.published == a.store.published && b.store.catalog == a.store.catalog
    ensures Sound(cfg, b)
  {
    assert KeptAt(a.exec, a.owners, b.exec, b.owners, 0);
    forall id | id in b.resident
      ensures ResidentHolds(cfg, b, id)
    {
      ResidentFrame(cfg, a, b, id);
    }
  }

  /** Only executor and owners moved, and of them only what is excepted. */
  lemma SoundMoved(cfg: Config, a: Shared, b: Shared, except: set<Mapping>, mine: Option<nat>)
    requires cfg.blockSize > 0
    requires Sound(cfg, a) && Held(b.exec, b.owners) && b == a.(exec := b.exec, owners := b.owners)
    requires Keeps(a.exec, a.owners, b.exec, b.owners, except)
    requires forall m :: m in except && m in a.owners ==>
               a.owners[m].Local? || (a.owners[m].Request? && Some(a.owners[m].ticket) == mine)
    ensures Sound(cfg, b) && CacheKept(a, b) && RequestsKept(a, b, mine)
  {
    KeepsOthers(a, b, except, mine);
    SoundFrame(cfg, a, b);
  }

  /** Only contexts of the store changed, and of those that were there only `context`. */
  lemma SoundContexts(cfg: Config, a: Shared, b: Shared, context: Option<ContextId>)
    requires cfg.blockSize > 0 && Sound(cfg, a)
    requires b == a.(store := a.store.(next := b.store.next, contexts := b.store.contexts))
    requires a.store.next <= b.store.next
    requires forall c :: c in a.store.contexts && context != Some(c) ==>
               c in b.store.contexts && b.store.contexts[c] == a.store.contexts[c]
    ensures Sound(cfg, b) && Undisturbed(a, b, None, context)
  {
    NothingMoved(a, None);
    SoundFrame(cfg, a, b);
  }

  lemma ResidentFrame(cfg: Config, a: Shared, b: Shared, id: Id)
    requires cfg.blockSize > 0 && Sound(cfg, a) && CacheKept(a, b)
    requires id in a.resident && id in b.resident && b.resident[id] == a.resident[id]
    requires id in b.store.published && b.store.published[id] == a.store.published[id]
    requires id in a.files ==> id in b.files && b.files[id] == a.files[id]
    ensures ResidentHolds(cfg, b, id)
  {
    assert ResidentHolds(cfg, a, id);
    if a.resident[id].native.Some? {
      assert KeptAt(a.exec, a.owners, b.exec, b.owners, a.resident[id].native.value);
    }
  }

  // ---- publishing into the trie ----

  /** A catalogued target is never lost. */
  lemma CataloguedTarget(v: StoreView, p: Prepared)
    requires Forest(v.published) && v.catalog.Keys == v.published.Keys
    requires forall id :: id in v.catalog ==> v.catalog[id] > 0
    ensures !TargetLost(v, p)
  {
    if p.mapping.id in v.published {
      assert p.mapping.id in Ancestors(v.published, p.mapping.id);
      assert p.mapping.id in v.catalog;
    }
  }

  /** With every prefix catalogued there is nothing to collect. */
  lemma CataloguedSettles(v: StoreView)
    requires Forest(v.published) && v.catalog.Keys == v.published.Keys
    requires forall id :: id in v.catalog ==> v.catalog[id] > 0
    ensures Settled(v) == v
  {
    AllRootsTraced(v.published, Roots(v.contexts, v.catalog));
    assert ContextStore.Kept(v.catalog, v.published) == v.catalog;
  }

  /** The store after a block is published: a trie again, catalogued. */
  lemma StoreHoldsAfter(cfg: Config, v: StoreView, p: Prepared, tokens: seq<Token>, parent: Option<Id>)
    requires cfg.blockSize > 0 && StoreHolds(cfg, v) && p.context in v.contexts
    requires |tokens| > 0 && |tokens| % cfg.blockSize == 0 && |tokens| >= cfg.blockSize
    requires CoversBlocks(cfg, v.published, parent, tokens[..|tokens| - cfg.blockSize])
    requires p.mapping == Node(cfg, tokens, if parent.Some? then Some(v.published[parent.value]) else None)
    requires p.mapping.id in v.published ==> v.published[p.mapping.id] == p.mapping
    requires Forest(WithPublication(v, p).published)
    ensures StoreHolds(cfg, WithPublication(v, p))
    ensures CoversBlocks(cfg, WithPublication(v, p).published, Some(p.mapping.id), tokens)
    ensures p.mapping.id in v.published ==> WithPublication(v, p).published == v.published
  {
    TrieGrows(cfg, v.published, tokens, parent, p.mapping);
    if p.mapping.id in v.published {
      assert v.published[p.mapping.id := p.mapping] == v.published;
    }
  }

  /** The parent of the next block serves every context that starts with that block. */
  lemma ParentServes(cfg: Config, v: StoreView, c: Context, end: nat, parent: Id)
    requires cfg.blockSize > 0 && StoreHolds(cfg, v) && c.epochs == cfg.epochs
    requires end <= |c.tokens| && end > 0 && end % cfg.blockSize == 0 && end >= cfg.blockSize
    requires CoversBlocks(cfg, v.published, Some(parent), c.tokens[..end - cfg.blockSize])
    ensures v.published[parent].end < end && Matches(v.published[parent], c)
    ensures v.published[parent].id == parent
  {
    BlocksLess(end, cfg.blockSize);
    assert NodeHolds(cfg, v.published, parent) && Fits(v.published, parent);
    assert c.tokens[..end - cfg.blockSize][..end - cfg.blockSize] == c.tokens[..end - cfg.blockSize];
  }

  lemma NodeOfContext(cfg: Config, c: Context, end: nat, parent: Option<EvaluatedPrefix>)
    requires c.epochs == cfg.epochs && end <= |c.tokens|
    ensures MappingFor(cfg.ids, c, end, parent, cfg.required, cfg.required, 0) == Node(cfg, c.tokens[..end], parent)
  {
    assert c.tokens[..end][..end] == c.tokens[..end];
  }

  /** No two inputs of the id digest, and no two token sequences, share a digest. */
  ghost predicate DigestsDiffer(ids: IdScheme) {
    && CollisionFree(ids)
    && forall a, b :: ids.branch(a) == ids.branch(b) ==> a == b
  }

  /** A block that names a published prefix is that prefix, unless two digests collide. */
  lemma BlockNamesItself(cfg: Config, p: Published, tokens: seq<Token>, parent: Option<Id>, m: EvaluatedPrefix)
    requires cfg.blockSize > 0 && BlockTrie(cfg, p) && AllNamed(cfg.ids, p)
    requires |tokens| > 0 && |tokens| % cfg.blockSize == 0 && |tokens| >= cfg.blockSize
    requires CoversBlocks(cfg, p, parent, tokens[..|tokens| - cfg.blockSize])
    requires m == Node(cfg, tokens, if parent.Some? then Some(p[parent.value]) else None)
    requires Named(cfg.ids, m)
    requires m.id in p && DigestsDiffer(cfg.ids)
    ensures p[m.id] == m
  {
    var q := p[m.id];
    assert NodeHolds(cfg, p, m.id) && Named(cfg.ids, q);
    assert InputOf(q) == InputOf(m);
    assert tokens[..|tokens|] == tokens;
    NodeUnique(cfg, p, tokens, parent, m.id);
  }

  /** A block that joins the cache: its content is the fork the request made of itself when the block was
      complete. */
  lemma SoundPublish(cfg: Config, a: Shared, b: Shared, m: EvaluatedPrefix, fork: Mapping)
    requires cfg.blockSize > 0
    requires Sound(cfg, a) && Held(b.exec, b.owners) && CacheKept(a, b) && StoreHolds(cfg, b.store)
    requires b.store.published == a.store.published[m.id := m] && b.files == a.files
    requires m.id in a.store.published ==> a.store.published[m.id] == m
    requires if m.id in a.resident then b.resident == a.resident
             else
               && b.resident == a.resident[m.id := Resident(Some(fork), None, cfg.model(m.sequence))]
               && fork in b.owners && b.owners[fork] == Cached(m.id) && fork in b.exec.mappings
               && b.exec.mappings[fork].content == m.sequence
               && b.exec.mappings[fork].position == |m.sequence|
    ensures Sound(cfg, b)
  {
    assert KeptAt(a.exec, a.owners, b.exec, b.owners, 0);
    forall id | id in b.resident
      ensures ResidentHolds(cfg, b, id)
    {
      if id in a.resident {
        ResidentFrame(cfg, a, b, id);
      }
    }
  }

  /** A cache entry that moves: restored from its file into a fresh mapping, or spilled into one. */
  lemma SoundMove(cfg: Config, a: Shared, b: Shared, id: Id)
    requires cfg.blockSize > 0
    requires Sound(cfg, a) && Held(b.exec, b.owners) && b.store == a.store
    requires RootHolds(b) && id in a.resident && id in b.resident
    requires b.resident - {id} == a.resident - {id} && b.files - {id} == a.files - {id}
    requires forall m {:trigger KeptAt(a.exec, a.owners, b.exec, b.owners, m)} ::
               m in a.owners && a.owners[m].Cached? && a.owners[m] != Cached(id) ==>
                 KeptAt(a.exec, a.owners, b.exec, b.owners, m)
    requires ResidentHolds(cfg, b, id)
    ensures Sound(cfg, b)
  {
    forall x | x in b.resident
      ensures ResidentHolds(cfg, b, x)
    {
      if x != id {
        assert x in b.resident - {id} && (b.resident - {id})[x] == (a.resident - {id})[x];
        assert ResidentHolds(cfg, a, x);
        if a.resident[x].native.Some? {
          assert KeptAt(a.exec, a.owners, b.exec, b.owners, a.resident[x].native.value);
        }
        assert x in a.files ==> x in a.files - {id} && x in b.files - {id} && (b.files - {id})[x] == (a.files - {id})[x];
      }
    }
    assert forall x :: x in b.resident <==> x == id || x in b.resident - {id};
    assert forall x :: x in a.resident <==> x == id || x in a.resident - {id};
    assert b.resident.Keys == a.resident.Keys;
  }

  /** A spilled entry that takes a fresh mapping of its content. */
  lemma SoundRestore(cfg: Config, a: Shared, b: Shared, id: Id, m: Mapping)
    requires cfg.blockSize > 0
    requires Sound(cfg, a) && Held(b.exec, b.owners) && b.store == a.store
    requires Keeps(a.exec, a.owners, b.exec, b.owners, {})
    requires id in a.resident && a.resident[id].native.None? && id in a.store.published
    requires b.resident == a.resident[id := Resident(Some(m), None, a.resident[id].continuation)]
    requires b.files == a.files - {id}
    requires m in b.owners && b.owners[m] == Cached(id) && m == b.exec.active
    requires SlotHas(b, a.store.published[id].sequence)
    ensures Sound(cfg, b) && RequestsKept(a, b, None)
  {
    assert ResidentHolds(cfg, a, id);
    KeepsOthers(a, b, {}, None);
    assert KeptAt(a.exec, a.owners, b.exec, b.owners, 0);
    SoundMove(cfg, a, b, id);
  }

  /** An entry that loses its mapping, with its content in its file. */
  lemma SoundLose(cfg: Config, a: Shared, b: Shared, id: Id, m: Mapping)
    requires cfg.blockSize > 0
    requires Sound(cfg, a) && Held(b.exec, b.owners) && b.store == a.store && b.files == a.files
    requires Keeps(a.exec, a.owners, b.exec, b.owners, {m})
    requires id in a.resident && a.resident[id].native == Some(m) && m in a.exec.mappings
    requires id in a.files && a.files[id] == Encode(a.exec.mappings[m].content)
    requires b.resident == a.resident[id := Resident(None, Some(Spilled(|a.files[id]|, a.exec.mappings[m].position)),
                                                     a.resident[id].continuation)]
    ensures Sound(cfg, b) && RequestsKept(a, b, None)
  {
    assert ResidentHolds(cfg, a, id);
    KeepsRequests(a, b, m);
    assert KeptAt(a.exec, a.owners, b.exec, b.owners, 0);
    SoundMove(cfg, a, b, id);
  }

  /** The longest published prefix of a request covers its own tokens to the last whole block. */
  lemma LookupCovers(cfg: Config, p: Published, c: Context, best: EvaluatedPrefix)
    requires cfg.blockSize > 0 && BlockTrie(cfg, p)
    requires IsLongest(p, c, Some(best))
    ensures best.end > 0 && best.end <= |c.tokens| && best.sequence == c.tokens[..best.end]
    ensures CoversBlocks(cfg, p, Some(best.id), c.tokens[..best.end])
  {
    assert NodeHolds(cfg, p, best.id);
    assert c.tokens[..best.end][..best.end] == c.tokens[..best.end];
  }
}
