/**
 A request on the mapped engine, step by step.

 `ColdOutput` is what the request produces on an engine that caches nothing. `SessionHolds` is what keeps every
 stage of a session on that run, whatever other sessions, spills and faults do to the shared state.
 */
module SessionModel {
  import opened Options
  import opened TokenSequence
  import opened PrefixForest
  import opened StoreAccounting
  import opened ContextStore
  import opened Execution
  import opened EngineModel
  import opened MappedEngine

  datatype Stage = Preparation | Prefill | Decoding | Publication | Finished

  type Positive = n: nat | n > 0 witness 1

  /** `prompt` is tokenized already; `sampler` is the state a fresh sampler starts in. A chunk size of zero never
      gets as far as a session. */
  datatype EngineRequest = EngineRequest(
    priorTokens: seq<Token>, prompt: seq<Token>, sampler: SamplerState, maxTokens: nat, chunkTokens: Positive)

  datatype Session = Session(
    stage: Stage,
    tokens: seq<Token>,
    context: Option<ContextId>,
    mapping: Option<Mapping>,
    parent: Option<Id>,
    next: Option<Logits>,
    sampler: Option<SamplerState>,
    evaluated: nat,
    generated: nat)

  // ---- the cold run of a request ----

  /** It starts from the prior tokens, then the prompt, and a fresh sampler. */
  lemma ColdStarts(cfg: Config, r: EngineRequest)
    ensures Cold(cfg, r, 0).tokens[..|r.priorTokens|] == r.priorTokens
    ensures Cold(cfg, r, 0).tokens[|r.priorTokens|..] == r.prompt && Cold(cfg, r, 0).sampler == r.sampler
  {
  }

  function Input(r: EngineRequest): seq<Token> {
    r.priorTokens + r.prompt
  }

  function Cold(cfg: Config, r: EngineRequest, k: nat): Progress {
    FreeRun(cfg, Input(r), r.sampler, k)
  }

  /** The `k`-th generated token of the cold run. */
  function ColdToken(cfg: Config, r: EngineRequest, k: nat): Token
    requires k > 0
  {
    FreeRunLength(cfg, Input(r), r.sampler, k);
    Cold(cfg, r, k).tokens[|Input(r)| + k - 1]
  }

  predicate EndsAt(cfg: Config, r: EngineRequest, k: nat) {
    k == r.maxTokens || (k > 0 && cfg.endsGeneration(ColdToken(cfg, r, k)))
  }

  ghost predicate GoesOnUntil(cfg: Config, r: EngineRequest, k: nat) {
    forall j :: 0 < j < k ==> !cfg.endsGeneration(ColdToken(cfg, r, j))
  }

  function ColdFrom(cfg: Config, r: EngineRequest, k: nat): seq<Token>
    requires k <= r.maxTokens
    decreases r.maxTokens - k
  {
    if EndsAt(cfg, r, k) then Cold(cfg, r, k).tokens else ColdFrom(cfg, r, k + 1)
  }

  /** All tokens of a request that runs to its end with nothing cached. */
  function ColdOutput(cfg: Config, r: EngineRequest): seq<Token> {
    ColdFrom(cfg, r, 0)
  }

  /** One more token of the cold run. */
  lemma ColdStep(cfg: Config, r: EngineRequest, k: nat, sampler: SamplerState, token: Token)
    requires (sampler, token) == cfg.sample(Cold(cfg, r, k).sampler, cfg.model(Cold(cfg, r, k).tokens))
    ensures Cold(cfg, r, k + 1) == Progress(Cold(cfg, r, k).tokens + [token], sampler)
    ensures ColdToken(cfg, r, k + 1) == token
    ensures |Cold(cfg, r, k).tokens| == |Input(r)| + k
  {
    FreeRunLength(cfg, Input(r), r.sampler, k);
  }

  /** The tokens at any point of the run are a prefix of the output, all of it where the run ends. */
  lemma {:induction false} ColdPrefix(cfg: Config, r: EngineRequest, k: nat, from: nat)
    requires from <= k <= r.maxTokens && GoesOnUntil(cfg, r, k)
    ensures Cold(cfg, r, k).tokens <= ColdFrom(cfg, r, from)
    ensures EndsAt(cfg, r, k) ==> Cold(cfg, r, k).tokens == ColdFrom(cfg, r, from)
    decreases k - from
  {
    if from < k {
      assert from > 0 ==> !cfg.endsGeneration(ColdToken(cfg, r, from));
      ColdPrefix(cfg, r, k, from + 1);
    } else {
      ColdExtends(cfg, r, k);
    }
  }

  lemma {:induction false} ColdExtends(cfg: Config, r: EngineRequest, k: nat)
    requires k <= r.maxTokens
    ensures Cold(cfg, r, k).tokens <= ColdFrom(cfg, r, k)
    decreases r.maxTokens - k
  {
    if !EndsAt(cfg, r, k) {
      ColdExtends(cfg, r, k + 1);
      assert Cold(cfg, r, k).tokens <= Cold(cfg, r, k + 1).tokens;
    }
  }

  /** Where the run ends. */
  lemma {:induction false} ColdEnd(cfg: Config, r: EngineRequest, k: nat) returns (n: nat)
    requires k <= r.maxTokens && GoesOnUntil(cfg, r, k)
    ensures k <= n <= r.maxTokens && GoesOnUntil(cfg, r, n) && EndsAt(cfg, r, n)
    ensures ColdFrom(cfg, r, k) == Cold(cfg, r, n).tokens
    decreases r.maxTokens - k
  {
    if EndsAt(cfg, r, k) {
      n := k;
    } else {
      n := ColdEnd(cfg, r, k + 1);
    }
  }

  lemma {:induction false} ColdTokens(cfg: Config, r: EngineRequest, n: nat, j: nat)
    requires 0 < j <= n
    ensures |Input(r)| + n == |Cold(cfg, r, n).tokens|
    ensures Cold(cfg, r, n).tokens[..|Input(r)| + j - 1] == Cold(cfg, r, j - 1).tokens
    ensures Cold(cfg, r, n).tokens[|Input(r)| + j - 1] == ColdToken(cfg, r, j)
  {
    FreeRunLength(cfg, Input(r), r.sampler, n);
    FreeRunLength(cfg, Input(r), r.sampler, n - 1);
    FreeRunLength(cfg, Input(r), r.sampler, j - 1);
    if j < n {
      ColdTokens(cfg, r, n - 1, j);
    }
  }

  /** The output, token by token: the input, then what the sampler makes of the logits of all tokens before, up to the
      first token that ends generation or to the limit. */
  lemma ColdExact(cfg: Config, r: EngineRequest)
    ensures var (out, start) := (ColdOutput(cfg, r), |Input(r)|);
            && Input(r) <= out && |out| <= start + r.maxTokens
            && (|out| == start + r.maxTokens || (|out| > start && cfg.endsGeneration(out[|out| - 1])))
            && (forall i :: start <= i < |out| - 1 ==> !cfg.endsGeneration(out[i]))
            && (forall i :: start <= i < |out| ==> SampledAt(cfg, r, out, i))
  {
    var n := ColdEnd(cfg, r, 0);
    var (out, start) := (ColdOutput(cfg, r), |Input(r)|);
    FreeRunLength(cfg, Input(r), r.sampler, n);
    if n > 0 {
      ColdTokens(cfg, r, n, n);
    }
    forall i | start <= i < |out|
      ensures SampledAt(cfg, r, out, i) && (i < |out| - 1 ==> !cfg.endsGeneration(out[i]))
    {
      ColdTokenAt(cfg, r, n, i);
    }
  }

  lemma ColdTokenAt(cfg: Config, r: EngineRequest, n: nat, i: nat)
    requires |Input(r)| <= i < |Input(r)| + n && GoesOnUntil(cfg, r, n)
    ensures |Cold(cfg, r, n).tokens| == |Input(r)| + n && SampledAt(cfg, r, Cold(cfg, r, n).tokens, i)
    ensures i + 1 < |Input(r)| + n ==> !cfg.endsGeneration(Cold(cfg, r, n).tokens[i])
  {
    ColdTokens(cfg, r, n, i - |Input(r)| + 1);
    ColdSampled(cfg, r, n, i - |Input(r)| + 1);
  }

  /** The states of the sampler, each from the logits of all tokens so far. */
  function SamplerAt(cfg: Config, r: EngineRequest, out: seq<Token>, k: nat): SamplerState
    requires |Input(r)| + k <= |out| + 1
  {
    if k == 0 then r.sampler
    else cfg.sample(SamplerAt(cfg, r, out, k - 1), cfg.model(out[..|Input(r)| + k - 1])).0
  }

  predicate SampledAt(cfg: Config, r: EngineRequest, out: seq<Token>, i: nat)
    requires |Input(r)| <= i < |out|
  {
    out[i] == cfg.sample(SamplerAt(cfg, r, out, i - |Input(r)|), cfg.model(out[..i])).1
  }

  lemma {:induction false} ColdSampler(cfg: Config, r: EngineRequest, n: nat, k: nat)
    requires k <= n
    ensures |Cold(cfg, r, n).tokens| == |Input(r)| + n
    ensures SamplerAt(cfg, r, Cold(cfg, r, n).tokens, k) == Cold(cfg, r, k).sampler
  {
    FreeRunLength(cfg, Input(r), r.sampler, n);
    if k > 0 {
      ColdSampler(cfg, r, n, k - 1);
      ColdTokens(cfg, r, n, k);
    }
  }

  lemma ColdSampled(cfg: Config, r: EngineRequest, n: nat, j: nat)
    requires 0 < j <= n
    ensures |Cold(cfg, r, n).tokens| == |Input(r)| + n
    ensures SampledAt(cfg, r, Cold(cfg, r, n).tokens, |Input(r)| + j - 1)
  {
    ColdTokens(cfg, r, n, j);
    ColdSampler(cfg, r, n, j - 1);
    var p := Cold(cfg, r, j - 1);
    var (sampler, token) := cfg.sample(p.sampler, cfg.model(p.tokens));
    ColdStep(cfg, r, j - 1, sampler, token);
  }

  // ---- the invariant of a session ----

  /** Prior tokens, prompt and everything that may be generated fit the context window. */
  predicate FitsWindow(cfg: Config, r: EngineRequest) {
    |r.priorTokens| + |r.prompt| + r.maxTokens <= cfg.contextCapacity
  }

  /** The tokens are those of the cold run, which fits the window, and the sampler has seen just these. */
  ghost predicate OnColdRun(cfg: Config, r: EngineRequest, s: Session) {
    && s.tokens == Cold(cfg, r, s.generated).tokens
    && (s.sampler.Some? ==> s.sampler.value == Cold(cfg, r, s.generated).sampler)
    && s.generated <= r.maxTokens
    && GoesOnUntil(cfg, r, s.generated)
    && FitsWindow(cfg, r)
  }

  /** The request's context is what its tokens are. */
  ghost predicate HasContext(cfg: Config, v: StoreView, c: ContextId, tokens: seq<Token>) {
    c in v.contexts && v.contexts[c].tokens == tokens && v.contexts[c].epochs == cfg.epochs
  }

  /** The request's mapping is its own and holds exactly the tokens evaluated so far, the logits are theirs, and
      `parent` is the published prefix of their whole blocks. */
  ghost predicate Evaluated(cfg: Config, sh: Shared, ticket: nat, s: Session)
    requires cfg.blockSize > 0
  {
    && s.mapping.Some? && s.context.Some?
    && s.evaluated <= |s.tokens|
    && BranchHolds(sh, ticket, s.mapping.value, s.tokens[..s.evaluated])
    && HasContext(cfg, sh.store, s.context.value, s.tokens)
    && CoversBlocks(cfg, sh.store.published, s.parent, s.tokens[..s.evaluated])
    && s.next == (if s.evaluated > 0 then Some(cfg.model(s.tokens[..s.evaluated])) else None)
  }

  ghost predicate StageHolds(cfg: Config, r: EngineRequest, s: Session) {
    match s.stage
    case Preparation => s.mapping.None? && s.context.None? && s.sampler.None? && s.tokens == [] && s.generated == 0
    case Prefill => s.generated == 0 && s.sampler.None?
    case Decoding =>
      && s.sampler.Some? && s.evaluated == |s.tokens|
      && GoesOnUntil(cfg, r, s.generated + 1)
      && (s.generated < r.maxTokens ==> s.next.Some?)
    case Publication => EndsAt(cfg, r, s.generated)
    case Finished => s.mapping.None?
  }

  /** A session has started when it has its context, and runs until it is published. */
  predicate Running(s: Session) {
    s.stage == Prefill || s.stage == Decoding || s.stage == Publication
  }

  ghost predicate SessionHolds(cfg: Config, sh: Shared, ticket: nat, r: EngineRequest, s: Session)
    requires cfg.blockSize > 0
  {
    && StageHolds(cfg, r, s)
    && (if s.context.Some? then OnColdRun(cfg, r, s) else s.tokens == [])
    && (Running(s) ==> Evaluated(cfg, sh, ticket, s))
  }

  /** A session that failed is only ever dropped: all that matters is what it still holds. */
  ghost predicate ClosedHolds(sh: Shared, ticket: nat, s: Session) {
    s.mapping.Some? ==> s.mapping.value in sh.owners && sh.owners[s.mapping.value] == Request(ticket)
  }

  /** What others do does not touch a session: they have other tickets and other contexts. */
  lemma SessionFrame(cfg: Config, a: Shared, b: Shared, mine: Option<nat>, context: Option<ContextId>,
                     ticket: nat, r: EngineRequest, s: Session)
    requires cfg.blockSize > 0
    requires Undisturbed(a, b, mine, context)
    requires mine != Some(ticket) && (context.None? || context != s.context)
    ensures SessionHolds(cfg, a, ticket, r, s) ==> SessionHolds(cfg, b, ticket, r, s)
    ensures ClosedHolds(a, ticket, s) ==> ClosedHolds(b, ticket, s)
  {
    UndisturbedFacts(a, b, mine, context);
    if s.parent.Some? {
      assert PrefixKept(a.store, b.store, s.parent.value);
    }
    if s.context.Some? && Running(s) {
      assert ContextKept(a.store, b.store, s.context.value);
    }
    if s.mapping.Some? {
      assert s.mapping.value in a.owners && a.owners[s.mapping.value] == Request(ticket) ==>
          KeptAt(a.exec, a.owners, b.exec, b.owners, s.mapping.value);
    }
  }

  /** A session that has just branched off is on the cold run. */
  lemma BegunHolds(cfg: Config, sh: Shared, ticket: nat, r: EngineRequest, s: Session)
    requires cfg.blockSize > 0 && s.stage == Prefill && s.generated == 0 && s.sampler.None?
    requires s.tokens == Input(r) && FitsWindow(cfg, r) && Evaluated(cfg, sh, ticket, s)
    ensures SessionHolds(cfg, sh, ticket, r, s)
  {
  }

  /** Evaluated further, still in prefill. */
  lemma PrefilledHolds(cfg: Config, a: Shared, b: Shared, ticket: nat, r: EngineRequest, s: Session, end: nat,
                       prefix: Option<Id>)
    requires cfg.blockSize > 0 && SessionHolds(cfg, a, ticket, r, s) && s.stage == Prefill
    requires 0 < end <= |s.tokens|
    requires BranchHolds(b, ticket, s.mapping.value, s.tokens[..end])
    requires HasContext(cfg, b.store, s.context.value, s.tokens)
    requires CoversBlocks(cfg, b.store.published, prefix, s.tokens[..end])
    ensures SessionHolds(cfg, b, ticket, r,
                         s.(parent := prefix, next := Some(cfg.model(s.tokens[..end])), evaluated := end))
  {
  }

  /** All of the input is evaluated: the first token can be sampled. */
  lemma DecodingHolds(cfg: Config, sh: Shared, ticket: nat, r: EngineRequest, s: Session)
    requires cfg.blockSize > 0 && SessionHolds(cfg, sh, ticket, r, s) && s.stage == Prefill
    requires s.evaluated >= |s.tokens| && (r.maxTokens > 0 ==> s.next.Some?)
    ensures SessionHolds(cfg, sh, ticket, r, s.(sampler := Some(r.sampler), stage := Decoding))
    ensures s.next.None? ==> Input(r) == []
  {
  }

  /** A token has been sampled and recorded, and is not yet evaluated. */
  ghost predicate SampledHolds(cfg: Config, sh: Shared, ticket: nat, r: EngineRequest, s: Session)
    requires cfg.blockSize > 0
  {
    && s.stage == Decoding && s.sampler.Some? && s.generated > 0
    && OnColdRun(cfg, r, s) && Evaluated(cfg, sh, ticket, s)
    && s.evaluated + 1 == |s.tokens|
    && s.tokens[s.evaluated] == ColdToken(cfg, r, s.generated)
  }

  lemma SampledOnRun(cfg: Config, a: Shared, b: Shared, ticket: nat, r: EngineRequest, s: Session,
                     sampler: SamplerState, token: Token)
    requires cfg.blockSize > 0 && SessionHolds(cfg, a, ticket, r, s)
    requires s.stage == Decoding && s.generated < r.maxTokens
    requires (sampler, token) == cfg.sample(s.sampler.value, s.next.value)
    requires Undisturbed(a, b, None, s.context)
    requires HasContext(cfg, b.store, s.context.value, s.tokens + [token])
    ensures SampledHolds(cfg, b, ticket, r,
                         s.(tokens := s.tokens + [token], sampler := Some(sampler), generated := s.generated + 1))
    ensures token == ColdToken(cfg, r, s.generated + 1)
  {
    var more := s.tokens + [token];
    UndisturbedFacts(a, b, None, s.context);
    assert s.tokens[..|s.tokens|] == s.tokens && more[..|s.tokens|] == s.tokens;
    ColdStep(cfg, r, s.generated, sampler, token);
    if s.parent.Some? {
      assert PrefixKept(a.store, b.store, s.parent.value);
    }
    assert KeptAt(a.exec, a.owners, b.exec, b.owners, s.mapping.value);
  }

  /** The sampled token ends the run. */
  lemma EndedHolds(cfg: Config, sh: Shared, ticket: nat, r: EngineRequest, s: Session)
    requires cfg.blockSize > 0 && SampledHolds(cfg, sh, ticket, r, s)
    requires cfg.endsGeneration(s.tokens[s.evaluated]) || s.generated == r.maxTokens
    ensures SessionHolds(cfg, sh, ticket, r, s.(stage := Publication)) && EndsAt(cfg, r, s.generated)
  {
  }

  /** The sampled token is evaluated, and decoding goes on. */
  lemma ContinuedHolds(cfg: Config, a: Shared, b: Shared, ticket: nat, r: EngineRequest, s: Session, prefix: Option<Id>)
    requires cfg.blockSize > 0 && SampledHolds(cfg, a, ticket, r, s)
    requires !cfg.endsGeneration(s.tokens[s.evaluated]) && s.generated != r.maxTokens
    requires BranchHolds(b, ticket, s.mapping.value, s.tokens)
    requires HasContext(cfg, b.store, s.context.value, s.tokens)
    requires CoversBlocks(cfg, b.store.published, prefix, s.tokens)
    ensures SessionHolds(cfg, b, ticket, r,
                         s.(parent := prefix, next := Some(cfg.model(s.tokens)), evaluated := s.evaluated + 1))
    ensures !EndsAt(cfg, r, s.generated)
  {
    assert s.tokens[..|s.tokens|] == s.tokens;
  }

  /** A session that gives up its mapping. */
  lemma RetiredHolds(cfg: Config, a: Shared, b: Shared, ticket: nat, r: EngineRequest, s: Session)
    requires cfg.blockSize > 0 && SessionHolds(cfg, a, ticket, r, s)
    ensures SessionHolds(cfg, b, ticket, r, s.(sampler := None, mapping := None, stage := Finished))
  {
  }

  /** No running session's branch, and no session's tokens, ever go beyond the context window. */
  lemma RunningFits(cfg: Config, sh: Shared, ticket: nat, r: EngineRequest, s: Session)
    requires cfg.blockSize > 0 && SessionHolds(cfg, sh, ticket, r, s)
    ensures |s.tokens| <= |r.priorTokens| + |r.prompt| + s.generated
    ensures s.context.Some? ==> |s.tokens| <= cfg.contextCapacity
    ensures Running(s) ==>
              && s.mapping.Some? && s.mapping.value in sh.exec.mappings
              && |sh.exec.mappings[s.mapping.value].content| <= cfg.contextCapacity
  {
    if s.context.Some? {
      FreeRunLength(cfg, Input(r), r.sampler, s.generated);
    }
  }

  /** What a session may return at any point, and when that is the whole output. */
  lemma OutputOf(cfg: Config, sh: Shared, ticket: nat, r: EngineRequest, s: Session)
    requires cfg.blockSize > 0 && SessionHolds(cfg, sh, ticket, r, s)
    ensures s.tokens <= ColdOutput(cfg, r)
    ensures s.context.Some? && EndsAt(cfg, r, s.generated) ==> s.tokens == ColdOutput(cfg, r)
  {
    if s.context.Some? {
      ColdPrefix(cfg, r, s.generated, 0);
    }
  }

  /** Fits the context window, and leaves something to sample from. */
  predicate Servable(cfg: Config, r: EngineRequest) {
    && FitsWindow(cfg, r)
    && (Input(r) == [] ==> r.maxTokens == 0)
  }

  function StageRank(stage: Stage): nat {
    match stage
    case Preparation => 0
    case Prefill => 1
    case Decoding => 2
    case Publication => 3
    case Finished => 4
  }

  /** Closer to the end. */
  predicate Ahead(s: Session, t: Session) {
    || StageRank(t.stage) > StageRank(s.stage)
    || (t.stage == s.stage == Prefill && t.evaluated > s.evaluated)
    || (t.stage == s.stage == Decoding && t.generated > s.generated)
  }

  // ---- many sessions ----

  /** One session among others. */
  datatype Party = Party(ticket: nat, request: EngineRequest, session: Session, closed: bool)

  ghost predicate PartyHolds(cfg: Config, sh: Shared, p: Party)
    requires cfg.blockSize > 0
  {
    if p.closed then ClosedHolds(sh, p.ticket, p.session) else SessionHolds(cfg, sh, p.ticket, p.request, p.session)
  }

  /** Different requests have different tickets and different contexts. */
  predicate Apart(p: Party, q: Party) {
    p.ticket != q.ticket && (p.session.context.Some? ==> p.session.context != q.session.context)
  }

  predicate ContextGiven(next: ContextId, p: Party) {
    p.session.context.Some? ==> p.session.context.value < next
  }

  ghost predicate AllHold(cfg: Config, sh: Shared, ps: seq<Party>)
    requires cfg.blockSize > 0
  {
    && (forall i {:trigger PartyHolds(cfg, sh, ps[i])} :: 0 <= i < |ps| ==> PartyHolds(cfg, sh, ps[i]))
    && (forall i {:trigger ContextGiven(sh.store.next, ps[i])} :: 0 <= i < |ps| ==> ContextGiven(sh.store.next, ps[i]))
    && (forall i, j {:trigger Apart(ps[i], ps[j])} :: 0 <= i < |ps| && 0 <= j < |ps| && i != j ==> Apart(ps[i], ps[j]))
  }

  /** What a step may do to the context of its session: take a new one, once. */
  predicate ContextStep(before: ContextId, after: ContextId, p: Party, q: Party) {
    && q.ticket == p.ticket && q.request == p.request
    && (q.session.context == p.session.context
        || (p.session.context.None? && q.session.context == Some(before) && before < after))
  }

  /** A step of one session keeps the invariants of all. */
  lemma OneStepsAllHold(cfg: Config, a: Shared, b: Shared, ps: seq<Party>, i: nat, q: Party)
    requires cfg.blockSize > 0 && AllHold(cfg, a, ps) && i < |ps|
    requires PartyHolds(cfg, b, q) && Undisturbed(a, b, Some(q.ticket), q.session.context)
    requires ContextStep(a.store.next, b.store.next, ps[i], q)
    ensures AllHold(cfg, b, ps[i := q])
  {
    UndisturbedFacts(a, b, Some(q.ticket), q.session.context);
    assert ContextGiven(a.store.next, ps[i]);
    forall j | 0 <= j < |ps|
      ensures PartyHolds(cfg, b, ps[i := q][j]) && ContextGiven(b.store.next, ps[i := q][j])
      ensures j != i ==> Apart(ps[j], q) && Apart(q, ps[j])
    {
      if j != i {
        assert Apart(ps[i], ps[j]) && Apart(ps[j], ps[i]);
        assert PartyHolds(cfg, a, ps[j]) && ContextGiven(a.store.next, ps[j]);
        PartyFrame(cfg, a, b, Some(q.ticket), q.session.context, ps[j]);
      }
    }
    forall j, k {:trigger Apart(ps[i := q][j], ps[i := q][k])} | 0 <= j < |ps| && 0 <= k < |ps| && j != k
      ensures Apart(ps[i := q][j], ps[i := q][k])
    {
      if j != i && k != i {
        assert Apart(ps[j], ps[k]);
      }
    }
  }

  lemma PartyFrame(cfg: Config, a: Shared, b: Shared, mine: Option<nat>, context: Option<ContextId>, p: Party)
    requires cfg.blockSize > 0 && PartyHolds(cfg, a, p) && Undisturbed(a, b, mine, context)
    requires mine != Some(p.ticket) && (context.None? || context != p.session.context)
    ensures PartyHolds(cfg, b, p)
  {
    SessionFrame(cfg, a, b, mine, context, p.ticket, p.request, p.session);
  }

  /** So does what no session does: spilling. */
  lemma NoneStepsAllHold(cfg: Config, a: Shared, b: Shared, ps: seq<Party>)
    requires cfg.blockSize > 0 && AllHold(cfg, a, ps)
    requires Undisturbed(a, b, None, None)
    ensures AllHold(cfg, b, ps)
  {
    UndisturbedFacts(a, b, None, None);
    forall i | 0 <= i < |ps|
      ensures PartyHolds(cfg, b, ps[i]) && ContextGiven(b.store.next, ps[i])
    {
      assert PartyHolds(cfg, a, ps[i]) && ContextGiven(a.store.next, ps[i]);
      PartyFrame(cfg, a, b, None, None, ps[i]);
    }
  }

  // ---- block arithmetic ----

  /** From `evaluated` to `end` within one block. */
  lemma WithinBlock(evaluated: nat, end: nat, size: nat)
    requires size > 0 && evaluated < end <= (evaluated / size + 1) * size
    ensures end % size == 0 ==> end >= size && end - size == evaluated - evaluated % size
    ensures end % size != 0 ==> end - end % size == evaluated - evaluated % size
  {
    var q := evaluated / size;
    assert evaluated == size * q + evaluated % size;
    assert (q + 1) * size == size * q + size;
    if end == size * q + size {
      assert size * (q + 1) == size * q + size;
      ModUnique(end, size, q + 1, 0);
    } else {
      ModUnique(end, size, q, end - size * q);
    }
  }

  /** As far as the tokens, the block and the chunk go, and no less. */
  function ChunkEnd(tokens: nat, evaluated: nat, size: nat, chunk: nat): (end: nat)
    requires size > 0 && chunk > 0 && evaluated < tokens
    ensures evaluated < end <= tokens && end <= (evaluated / size + 1) * size && end <= evaluated + chunk
    ensures end == tokens || end == (evaluated / size + 1) * size || end == evaluated + chunk
  {
    NextBlockAfter(evaluated, size);
    Min(Min(tokens, (evaluated / size + 1) * size), evaluated + chunk)
  }

  function Min(a: nat, b: nat): nat {
    if a <= b then a else b
  }

  lemma NextBlockAfter(evaluated: nat, size: nat)
    requires size > 0
    ensures evaluated < (evaluated / size + 1) * size
  {
    assert evaluated == size * (evaluated / size) + evaluated % size;
    assert (evaluated / size + 1) * size == size * (evaluated / size) + size;
  }

  /** What evaluating up to `end` does to the cover: within a block nothing, at its end the block comes next. */
  lemma CoverStep(cfg: Config, p: Published, parent: Option<Id>, tokens: seq<Token>, evaluated: nat, end: nat)
    requires cfg.blockSize > 0
    requires evaluated < end <= |tokens| && end <= (evaluated / cfg.blockSize + 1) * cfg.blockSize
    requires CoversBlocks(cfg, p, parent, tokens[..evaluated])
    ensures end % cfg.blockSize != 0 ==> CoversBlocks(cfg, p, parent, tokens[..end])
    ensures end % cfg.blockSize == 0 ==>
              end >= cfg.blockSize && CoversBlocks(cfg, p, parent, tokens[..end - cfg.blockSize])
  {
    WithinBlock(evaluated, end, cfg.blockSize);
    var whole := evaluated - evaluated % cfg.blockSize;
    assert tokens[..evaluated][..whole] == tokens[..whole];
    if end % cfg.blockSize == 0 {
      BlocksLess(end, cfg.blockSize);
      assert tokens[..end - cfg.blockSize][..whole] == tokens[..whole];
    } else {
      assert tokens[..end][..whole] == tokens[..whole];
    }
  }
}

module MappedSessions {
  import opened Options
  import opened TokenSequence
  import opened PrefixForest
  import opened StoreAccounting
  import opened ContextStore
  import opened Execution
  import opened EngineModel
  import opened MappedEngine
  import opened SessionModel

  datatype StepResult = Advanced | Sampled(token: Token, terminal: bool) | Done(successor: seq<Token>) | Failed

  /** What every step keeps: all that other sessions rely on. What it lets out: only what the cold run would. When it
      fails: on a fault, on a digest collision or for a request that cannot be served. */
  ghost predicate StepKeeps(cfg: Config, a: Shared, b: Shared, p: Party, q: Party, faults: Faults, r: StepResult) {
    && Undisturbed(a, b, Some(p.ticket), q.session.context)
    && ContextStep(a.store.next, b.store.next, p, q)
    && (q.closed <==> r == Failed)
    && (r == Failed && faults == NO_FAULTS && DigestsDiffer(cfg.ids) ==> !Servable(cfg, p.request))
    && (p.session.stage == Preparation && !FitsWindow(cfg, p.request) ==> r == Failed && b == a)
    && (r.Done? && p.session.stage != Finished ==> p.session.context.Some?)
    && (if r.Sampled?
        then q.session.generated == p.session.generated + 1
             && r.token == ColdToken(cfg, p.request, q.session.generated)
             && r.terminal == cfg.endsGeneration(r.token)
        else q.session.generated == p.session.generated || r == Failed)
    && (r.Done? && p.session.stage != Finished ==> r.successor == ColdOutput(cfg, p.request))
    && (r == Failed || r.Done? || (Ahead(p.session, q.session) && q.session.stage != Finished))
  }

  predicate BlockFaults(faults: Faults) {
    faults.capacity || faults.prepare || faults.commit
  }

  /** Every step but making the sampler and returning what is finished looks for cancellation first. */
  predicate Checked(s: Session) {
    s.stage != Finished && !(s.stage == Prefill && s.evaluated >= |s.tokens|)
  }

  predicate Samples(s: Session, maxTokens: nat) {
    (s.stage == Prefill && s.evaluated >= |s.tokens|) || (s.stage == Decoding && s.generated < maxTokens)
  }

  /** The tokens up to `end` can be evaluated and, where a block ends, published. */
  predicate GoesThrough(cfg: Config, faults: Faults, end: nat)
    requires cfg.blockSize > 0
  {
    !faults.cancel && !faults.late && (end % cfg.blockSize == 0 ==> !BlockFaults(faults))
  }

  /** No fault that a step meets goes unnoticed. What is seen before the step begins leaves the engine as it is; tokens are
      only evaluated by a decode that was not cancelled, and a block is only complete if it could be published. */
  ghost predicate FaultsTell(cfg: Config, a: Shared, b: Shared, p: Session, q: Session, maxTokens: nat, faults: Faults,
                             r: StepResult)
    requires cfg.blockSize > 0
  {
    && (faults.check && Checked(p) ==> r == Failed && b == a)
    && (faults.tokenize && p.stage == Preparation ==> r == Failed && b == a)
    && (faults.sampler && Samples(p, maxTokens) ==> r == Failed)
    && (r != Failed && p.stage != Preparation && q.evaluated > p.evaluated ==> GoesThrough(cfg, faults, q.evaluated))
  }

  /** Publishes the block that ends at `end`, if one ends there. */
  method PublishWhole(engine: Engine, ghost ticket: nat, m: Mapping, c: ContextId, ghost tokens: seq<Token>, end: nat,
                      parent: Option<Id>, logits: Logits, faults: Faults)
    returns (ok: bool, prefix: Option<Id>)
    requires engine.Valid() && end <= |tokens|
    requires BranchHolds(engine.State(), ticket, m, tokens[..end])
    requires HasContext(engine.cfg, engine.State().store, c, tokens)
    requires if end % engine.cfg.blockSize == 0
             then end >= engine.cfg.blockSize
                  && CoversBlocks(engine.cfg, engine.State().store.published, parent, tokens[..end - engine.cfg.blockSize])
             else CoversBlocks(engine.cfg, engine.State().store.published, parent, tokens[..end])
    requires logits == engine.cfg.model(tokens[..end])
    modifies engine`resident, engine.native, engine.native.exec, engine.store
    ensures engine.Valid()
    ensures Undisturbed(old(engine.State()), engine.State(), None, Some(c))
    ensures BranchHolds(engine.State(), ticket, m, tokens[..end])
    ensures ok ==> HasContext(engine.cfg, engine.State().store, c, tokens)
    ensures ok ==> CoversBlocks(engine.cfg, engine.State().store.published, prefix, tokens[..end])
    ensures !ok ==> prefix == parent && (faults != NO_FAULTS || !DigestsDiffer(engine.cfg.ids))
    ensures ok && end % engine.cfg.blockSize == 0 ==> !BlockFaults(faults)
  {
    ghost var before := engine.State();
    if end % engine.cfg.blockSize != 0 {
      NothingDisturbed(before, None, Some(c));
      return true, parent;
    }
    prefix := engine.CompleteBlock(m, c, end, parent, logits, faults);
    BranchKept(before, engine.State(), ticket, m, tokens[..end]);
    ok := prefix.Some?;
    if !ok {
      prefix := parent;
    }
  }

  /** Decodes `tokens[from..end]` on a request's branch and publishes the block it completes, if any. No logits: a step failed,
      and the branch is only good for dropping. */
  method EvaluateTo(engine: Engine, ticket: nat, m: Mapping, c: ContextId, tokens: seq<Token>, from: nat, end: nat,
                    parent: Option<Id>, faults: Faults)
    returns (logits: Option<Logits>, prefix: Option<Id>)
    requires engine.Valid() && from < end <= |tokens|
    requires end <= (from / engine.cfg.blockSize + 1) * engine.cfg.blockSize
    requires BranchHolds(engine.State(), ticket, m, tokens[..from])
    requires HasContext(engine.cfg, engine.State().store, c, tokens)
    requires CoversBlocks(engine.cfg, engine.State().store.published, parent, tokens[..from])
    modifies engine`resident, engine.native, engine.native.exec, engine.store
    ensures engine.Valid()
    ensures Undisturbed(old(engine.State()), engine.State(), Some(ticket), Some(c))
    ensures m in engine.native.owners && engine.native.owners[m] == Request(ticket)
    ensures logits.Some? ==>
              && logits == Some(engine.cfg.model(tokens[..end]))
              && BranchHolds(engine.State(), ticket, m, tokens[..end])
              && HasContext(engine.cfg, engine.State().store, c, tokens)
              && CoversBlocks(engine.cfg, engine.State().store.published, prefix, tokens[..end])
    ensures logits.None? ==> prefix == parent && (faults != NO_FAULTS || !DigestsDiffer(engine.cfg.ids))
    ensures logits.Some? ==> GoesThrough(engine.cfg, faults, end)
  {
    ghost var before := engine.State();
    TakeMore(tokens, from, end);
    CoverStep(engine.cfg, before.store.published, parent, tokens, from, end);
    logits := engine.Evaluate(ticket, m, tokens[from..end], faults.cancel);
    ghost var between := engine.State();
    prefix := parent;
    EvaluateUndisturbed(before, between, ticket, c);
    if logits.None? || faults.late {
      return None, parent;
    }
    var ok;
    ok, prefix := PublishWhole(engine, ticket, m, c, tokens, end, parent, logits.value, faults);
    BlockUndisturbed(before, between, engine.State(), ticket, c);
    if !ok {
      logits := None;
    }
  }

  class MappedSession {
    const engine: Engine
    const ticket: nat
    const request: EngineRequest
    var stage: Stage
    var tokens: seq<Token>
    var context: Option<ContextId>
    var mapping: Option<Mapping>
    var parent: Option<Id>
    var next: Option<Logits>
    var sampler: Option<SamplerState>
    var evaluated: nat
    var generated: nat
    /** Set when a step fails and when the session is dropped: no further step is made. */
    var closed: bool

    function View(): Session
      reads this
    {
      Session(stage, tokens, context, mapping, parent, next, sampler, evaluated, generated)
    }

    function Me(): Party
      reads this
    {
      Party(ticket, request, View(), closed)
    }

    ghost predicate Holds()
      reads this, engine, engine.native, engine.native.exec, engine.store
    {
      && engine.Valid()
      && (if closed then ClosedHolds(engine.State(), ticket, View())
          else SessionHolds(engine.cfg, engine.State(), ticket, request, View()))
    }

    /** A session starts with nothing. */
    constructor (engine: Engine, ticket: nat, request: EngineRequest)
      requires engine.Valid()
      ensures Holds() && !closed
      ensures this.engine == engine && this.ticket == ticket && this.request == request
      ensures stage == Preparation && context.None?
    {
      this.engine := engine;
      this.ticket := ticket;
      this.request := request;
      stage := Preparation;
      tokens := [];
      context, mapping, parent, next, sampler := None, None, None, None, None;
      evaluated, generated := 0, 0;
      closed := false;
    }

    /** A step failed. */
    method Fail()
      requires engine.Valid() && ClosedHolds(engine.State(), ticket, View())
      modifies this`closed
      ensures Holds() && closed && engine.State() == old(engine.State())
    {
      closed := true;
      assert engine.State() == old(engine.State());
    }

    twostate predicate Told(faults: Faults, r: StepResult)
      requires old(engine.native.Valid()) && engine.native.Valid() && engine.cfg.blockSize > 0
      reads this, engine, engine.native, engine.native.exec, engine.store
    {
      FaultsTell(engine.cfg, old(engine.State()), engine.State(), old(View()), View(), request.maxTokens, faults, r)
    }

    /** What every step keeps. */
    twostate predicate Stepped(faults: Faults, r: StepResult)
      requires old(engine.native.Valid()) && engine.native.Valid()
      reads this, engine, engine.native, engine.native.exec, engine.store
    {
      StepKeeps(engine.cfg, old(engine.State()), engine.State(), old(Me()), Me(), faults, r)
    }

    // ---- preparation ----

    /** The branch the engine gave out becomes the session's. */
    method TakeBranch(input: seq<Token>, c: ContextId, m: Mapping, prefix: Option<Id>, cached: nat,
                      logits: Option<Logits>, ghost after: Session)
      requires engine.Valid() && !closed && SessionHolds(engine.cfg, engine.State(), ticket, request, after)
      requires after == View().(tokens := input, context := Some(c), mapping := Some(m), parent := prefix,
                                evaluated := cached, next := logits, stage := Prefill)
      modifies this`tokens, this`context, this`mapping, this`parent, this`evaluated, this`next, this`stage
      ensures Holds() && View() == after && engine.State() == old(engine.State())
    {
      SetBranch(input, c, m, prefix, cached, logits);
    }

    method SetBranch(input: seq<Token>, c: ContextId, m: Mapping, prefix: Option<Id>, cached: nat, logits: Option<Logits>)
      modifies this`tokens, this`context, this`mapping, this`parent, this`evaluated, this`next, this`stage
      ensures View() == old(View()).(tokens := input, context := Some(c), mapping := Some(m), parent := prefix,
                                     evaluated := cached, next := logits, stage := Prefill)
    {
      tokens := input;
      context, mapping, parent, evaluated, next := Some(c), Some(m), prefix, cached, logits;
      stage := Prefill;
    }

    /** Looks up the longest published prefix, activates it and branches off it. */
    method Prepare(faults: Faults) returns (r: StepResult)
      requires Holds() && !closed && stage == Preparation
      modifies this`tokens, this`context, this`mapping, this`parent, this`evaluated, this`next, this`stage, this`closed
      modifies engine`resident, engine`files, engine`spillBytes, engine.native, engine.native.exec, engine.store
      ensures Holds() && Stepped(faults, r) && Told(faults, r)
      ensures !closed ==> stage == Prefill
      ensures |request.priorTokens| + |request.prompt| + request.maxTokens > engine.cfg.contextCapacity ==>
                r == Failed && engine.State() == old(engine.State())
      ensures |request.priorTokens| + |request.prompt| + request.maxTokens <= engine.cfg.contextCapacity ==>
                faults == NO_FAULTS ==> r == Advanced
    {
      ghost var before := engine.State();
      var total := |request.priorTokens| + |request.prompt| + request.maxTokens;
      if faults.check || faults.tokenize || total > engine.cfg.contextCapacity {
        NothingDisturbed(before, Some(ticket), None);
        closed := true;
        assert engine.State() == before;
        return Failed;
      }
      r := BranchOff(faults);
    }

    method BranchOff(faults: Faults) returns (r: StepResult)
      requires Holds() && !closed && stage == Preparation && FitsWindow(engine.cfg, request)
      modifies this`tokens, this`context, this`mapping, this`parent, this`evaluated, this`next, this`stage, this`closed
      modifies engine`resident, engine`files, engine`spillBytes, engine.native, engine.native.exec, engine.store
      ensures Holds()
      ensures r == if closed then Failed else Advanced
      ensures closed ==> faults != NO_FAULTS
      ensures if closed then context.None?
              else context == Some(old(engine.State()).store.next) && context.value < engine.State().store.next
      ensures !closed ==> stage == Prefill
      ensures Undisturbed(old(engine.State()), engine.State(), Some(ticket), context)
    {
      ghost var before := engine.State();
      var input := request.priorTokens + request.prompt;
      var c, m, prefix, cached, logits := engine.Begin(ticket, input, faults);
      UndisturbedByNone(before, engine.State(), Some(ticket), if m.None? then None else Some(c));
      if m.None? {
        Fail();
        return Failed;
      }
      ghost var begun := View().(tokens := input, context := Some(c), mapping := Some(m.value), parent := prefix,
                                 evaluated := cached, next := logits, stage := Prefill);
      BegunHolds(engine.cfg, engine.State(), ticket, request, begun);
      TakeBranch(input, c, m.value, prefix, cached, logits, begun);
      return Advanced;
    }

    // ---- prefill ----

    /** Decodes the next chunk, which ends at the latest with its block; with nothing left, makes the sampler. */
    method PrefillStep(faults: Faults) returns (r: StepResult)
      requires Holds() && !closed && stage == Prefill
      modifies this`parent, this`next, this`evaluated, this`sampler, this`stage, this`closed
      modifies engine`resident, engine.native, engine.native.exec, engine.store
      ensures Holds() && Stepped(faults, r) && Told(faults, r)
    {
      if evaluated >= |tokens| {
        r := StartDecoding(faults);
      } else if faults.check {
        NothingDisturbed(engine.State(), Some(ticket), context);
        Fail();
        r := Failed;
      } else {
        r := EvaluateMore(faults);
      }
    }

    method StartDecoding(faults: Faults) returns (r: StepResult)
      requires Holds() && !closed && stage == Prefill && evaluated >= |tokens|
      modifies this`sampler, this`stage, this`closed
      ensures Holds() && Stepped(faults, r) && Told(faults, r)
    {
      NothingDisturbed(engine.State(), Some(ticket), context);
      if (request.maxTokens > 0 && next.None?) || faults.sampler {
        Fail();
        return Failed;
      }
      MakeSampler();
      return Advanced;
    }

    method MakeSampler()
      requires Holds() && !closed && stage == Prefill && evaluated >= |tokens|
      requires request.maxTokens > 0 ==> next.Some?
      modifies this`sampler, this`stage
      ensures Holds() && engine.State() == old(engine.State())
      ensures View() == old(View()).(sampler := Some(request.sampler), stage := Decoding)
    {
      ghost var before := engine.State();
      DecodingHolds(engine.cfg, before, ticket, request, View());
      sampler := Some(request.sampler);
      stage := Decoding;
    }

    method EvaluateMore(faults: Faults) returns (r: StepResult)
      requires Holds() && !closed && stage == Prefill && evaluated < |tokens| && !faults.check
      modifies this`parent, this`next, this`evaluated, this`closed
      modifies engine`resident, engine.native, engine.native.exec, engine.store
      ensures Holds() && Stepped(faults, r) && Told(faults, r)
    {
      var logits, prefix, end := EvaluateChunk(faults);
      Proceed(logits, prefix, end);
      return if closed then Failed else Advanced;
    }

    method EvaluateChunk(faults: Faults) returns (logits: Option<Logits>, prefix: Option<Id>, end: nat)
      requires Holds() && !closed && stage == Prefill && evaluated < |tokens|
      modifies engine`resident, engine.native, engine.native.exec, engine.store
      ensures engine.Valid()
      ensures Undisturbed(old(engine.State()), engine.State(), Some(ticket), context)
      ensures evaluated < end <= |tokens| && end <= evaluated + request.chunkTokens
      ensures logits.None? ==> ClosedHolds(engine.State(), ticket, View())
      ensures logits.None? && faults == NO_FAULTS ==> !DigestsDiffer(engine.cfg.ids)
      ensures logits.Some? ==> GoesThrough(engine.cfg, faults, end)
      ensures logits.Some? ==>
                SessionHolds(engine.cfg, engine.State(), ticket, request,
                             View().(parent := prefix, next := logits, evaluated := end))
    {
      ghost var before := engine.State();
      end := ChunkEnd(|tokens|, evaluated, engine.cfg.blockSize, request.chunkTokens);
      logits, prefix := EvaluateTo(engine, ticket, mapping.value, context.value, tokens, evaluated, end, parent, faults);
      if logits.Some? {
        PrefilledHolds(engine.cfg, before, engine.State(), ticket, request, View(), end, prefix);
      }
    }

    /** The session takes what was evaluated up to `end`, or has failed. */
    method Proceed(logits: Option<Logits>, prefix: Option<Id>, end: nat)
      requires engine.Valid() && !closed
      requires logits.None? ==> ClosedHolds(engine.State(), ticket, View())
      requires logits.Some? ==>
                 SessionHolds(engine.cfg, engine.State(), ticket, request,
                              View().(parent := prefix, next := logits, evaluated := end))
      modifies this`parent, this`next, this`evaluated, this`closed
      ensures Holds() && engine.State() == old(engine.State()) && closed == logits.None?
      ensures View() == if closed then old(View())
                        else old(View()).(parent := prefix, next := logits, evaluated := end)
    {
      closed := logits.None?;
      if logits.Some? {
        parent, next, evaluated := prefix, logits, end;
      }
    }

    // ---- decoding ----

    /** Samples one token and records it; none if a call fails before the token is recorded. */
    method SampleToken(faults: Faults) returns (token: Option<Token>)
      requires Holds() && !closed && stage == Decoding && generated < request.maxTokens
      modifies this`tokens, this`sampler, this`generated, engine.native.exec, engine.store
      ensures engine.Valid()
      ensures Undisturbed(old(engine.State()), engine.State(), Some(ticket), context)
      ensures token.None? ==> ClosedHolds(engine.State(), ticket, View()) && faults != NO_FAULTS
      ensures token.Some? <==> !faults.check && !faults.sampler
      ensures faults.check ==> engine.State() == old(engine.State())
      ensures token.Some? ==> evaluated == old(evaluated)
      ensures token.Some? ==>
                && SampledHolds(engine.cfg, engine.State(), ticket, request, View())
                && generated == old(generated) + 1
    {
      ghost var before := engine.State();
      if faults.check {
        NothingDisturbed(before, Some(ticket), context);
        return None;
      }
      engine.Resume(mapping.value);
      ghost var between := engine.State();
      SessionFrame(engine.cfg, before, between, None, None, ticket, request, View());
      var (state, sampled) := engine.cfg.sample(sampler.value, next.value);
      if faults.sampler {
        return None;
      }
      RecordToken(state, sampled);
      UndisturbedByOwn(before, between, engine.State(), ticket, context.value);
      return Some(sampled);
    }

    method RecordToken(state: SamplerState, token: Token)
      requires Holds() && !closed && stage == Decoding && generated < request.maxTokens
      requires (state, token) == engine.cfg.sample(sampler.value, next.value)
      modifies this`tokens, this`sampler, this`generated, engine.store
      ensures engine.Valid()
      ensures Undisturbed(old(engine.State()), engine.State(), None, context)
      ensures SampledHolds(engine.cfg, engine.State(), ticket, request, View())
      ensures generated == old(generated) + 1
    {
      ghost var before := engine.State();
      ghost var me := View();
      engine.AppendToken(context.value, token);
      assert View() == me;
      SampledOnRun(engine.cfg, before, engine.State(), ticket, request, me, state, token);
      Push(token, state, View().(tokens := tokens + [token], sampler := Some(state), generated := generated + 1));
    }

    method Push(token: Token, state: SamplerState, ghost after: Session)
      requires engine.Valid() && SampledHolds(engine.cfg, engine.State(), ticket, request, after)
      requires after == View().(tokens := tokens + [token], sampler := Some(state), generated := generated + 1)
      modifies this`tokens, this`sampler, this`generated
      ensures engine.Valid() && engine.State() == old(engine.State())
      ensures View() == after && SampledHolds(engine.cfg, engine.State(), ticket, request, View())
    {
      tokens, sampler, generated := tokens + [token], Some(state), generated + 1;
    }

    /** The sampled token is let out; the session goes on, or is at its end. */
    ghost predicate Concluded(faults: Faults, r: StepResult)
      reads this
    {
      if closed then r == Failed && (faults != NO_FAULTS || !DigestsDiffer(engine.cfg.ids))
      else
        && 0 < generated <= request.maxTokens
        && r == Sampled(ColdToken(engine.cfg, request, generated),
                        engine.cfg.endsGeneration(ColdToken(engine.cfg, request, generated)))
        && stage == if EndsAt(engine.cfg, request, generated) then Publication else Decoding
    }

    /** Evaluates the sampled token, which does not end the request. */
    method EvaluateSampled(faults: Faults) returns (r: StepResult)
      requires engine.Valid() && SampledHolds(engine.cfg, engine.State(), ticket, request, View()) && !closed
      requires !engine.cfg.endsGeneration(tokens[evaluated]) && generated != request.maxTokens
      modifies this`parent, this`next, this`evaluated, this`closed
      modifies engine`resident, engine.native, engine.native.exec, engine.store
      ensures Holds() && Concluded(faults, r)
      ensures !closed && evaluated > old(evaluated) ==> GoesThrough(engine.cfg, faults, evaluated)
      ensures Undisturbed(old(engine.State()), engine.State(), Some(ticket), context)
    {
      var token := tokens[evaluated];
      var logits, prefix := EvaluateToken(faults);
      Proceed(logits, prefix, evaluated + 1);
      return if closed then Failed else Sampled(token, false);
    }

    method EndSampled(ghost faults: Faults) returns (r: StepResult)
      requires engine.Valid() && SampledHolds(engine.cfg, engine.State(), ticket, request, View()) && !closed
      requires engine.cfg.endsGeneration(tokens[evaluated]) || generated == request.maxTokens
      modifies this`stage
      ensures Holds() && Concluded(faults, r)
      ensures Undisturbed(old(engine.State()), engine.State(), Some(ticket), context)
    {
      ghost var before := engine.State();
      NothingDisturbed(before, Some(ticket), context);
      EndedHolds(engine.cfg, before, ticket, request, View());
      r := Sampled(tokens[evaluated], engine.cfg.endsGeneration(tokens[evaluated]));
      stage := Publication;
    }

    method EvaluateToken(faults: Faults) returns (logits: Option<Logits>, prefix: Option<Id>)
      requires engine.Valid() && SampledHolds(engine.cfg, engine.State(), ticket, request, View())
      requires !engine.cfg.endsGeneration(tokens[evaluated]) && generated != request.maxTokens
      modifies engine`resident, engine.native, engine.native.exec, engine.store
      ensures engine.Valid()
      ensures Undisturbed(old(engine.State()), engine.State(), Some(ticket), context)
      ensures logits.None? ==> ClosedHolds(engine.State(), ticket, View())
      ensures logits.None? && faults == NO_FAULTS ==> !DigestsDiffer(engine.cfg.ids)
      ensures logits.Some? ==> GoesThrough(engine.cfg, faults, evaluated + 1)
      ensures logits.Some? ==>
                SessionHolds(engine.cfg, engine.State(), ticket, request,
                             View().(parent := prefix, next := logits, evaluated := evaluated + 1))
      ensures !EndsAt(engine.cfg, request, generated)
    {
      ghost var before := engine.State();
      ghost var me := View();
      NextBlockAfter(evaluated, engine.cfg.blockSize);
      logits, prefix := EvaluateTo(engine, ticket, mapping.value, context.value, tokens, evaluated, evaluated + 1,
                                   parent, faults);
      assert View() == me && tokens[..evaluated + 1] == tokens;
      if logits.Some? {
        ContinuedHolds(engine.cfg, before, engine.State(), ticket, request, me, prefix);
      }
    }

    method DecodeStep(faults: Faults) returns (r: StepResult)
      requires Holds() && !closed && stage == Decoding && generated < request.maxTokens
      modifies this`tokens, this`sampler, this`generated, this`parent, this`next, this`evaluated, this`stage, this`closed
      modifies engine`resident, engine.native, engine.native.exec, engine.store
      ensures Holds() && Stepped(faults, r) && Told(faults, r)
    {
      r := DecodeToken(faults);
    }

    /** Samples, records and, unless the request ends, evaluates a token. */
    method DecodeToken(faults: Faults) returns (r: StepResult)
      requires Holds() && !closed && stage == Decoding && generated < request.maxTokens
      modifies this`tokens, this`sampler, this`generated, this`parent, this`next, this`evaluated, this`stage, this`closed
      modifies engine`resident, engine.native, engine.native.exec, engine.store
      ensures Holds() && Concluded(faults, r) && Told(faults, r)
      ensures Undisturbed(old(engine.State()), engine.State(), Some(ticket), context)
      ensures !closed ==> generated == old(generated) + 1
    {
      ghost var before := engine.State();
      var token := SampleToken(faults);
      if token.None? {
        Fail();
        return Failed;
      }
      ghost var between := engine.State();
      r := Conclude(faults);
      UndisturbedTransitive(before, between, engine.State(), Some(ticket), context);
    }

    method Conclude(faults: Faults) returns (r: StepResult)
      requires engine.Valid() && SampledHolds(engine.cfg, engine.State(), ticket, request, View()) && !closed
      modifies this`parent, this`next, this`evaluated, this`stage, this`closed
      modifies engine`resident, engine.native, engine.native.exec, engine.store
      ensures Holds() && Concluded(faults, r)
      ensures !closed && evaluated > old(evaluated) ==> GoesThrough(engine.cfg, faults, evaluated)
      ensures Undisturbed(old(engine.State()), engine.State(), Some(ticket), context)
    {
      if engine.cfg.endsGeneration(tokens[evaluated]) || generated == request.maxTokens {
        r := EndSampled(faults);
      } else {
        r := EvaluateSampled(faults);
      }
    }

    // ---- publication and the end ----

    method GiveUpBranch(toRoot: bool)
      requires engine.Valid() && ClosedHolds(engine.State(), ticket, View())
      modifies this`sampler, this`mapping, engine.native, engine.native.exec
      ensures engine.Valid() && View() == old(View()).(sampler := None, mapping := None)
      ensures old(mapping).Some? ==>
                engine.native.exec.activeMapping
                == engine.Fallback(parent, if toRoot then 0 else old(engine.native.exec.activeMapping))
      ensures Undisturbed(old(engine.State()), engine.State(), Some(ticket), context)
      ensures engine.State().store == old(engine.State()).store
    {
      ghost var before := engine.State();
      NothingDisturbed(before, Some(ticket), context);
      if mapping.Some? {
        engine.Retire(ticket, mapping.value, parent, toRoot);
      }
      ghost var after := engine.State();
      sampler, mapping := None, None;
      assert engine.State() == after;
    }

    method EndRun()
      requires Holds() && !closed
      modifies this`sampler, this`mapping, this`stage, engine.native, engine.native.exec
      ensures Holds() && stage == Finished
      ensures old(mapping).Some? ==>
                engine.native.exec.activeMapping == engine.Fallback(parent, old(engine.native.exec.activeMapping))
      ensures Undisturbed(old(engine.State()), engine.State(), Some(ticket), context)
      ensures engine.State().store == old(engine.State()).store
    {
      ghost var before := engine.State();
      ghost var running := View();
      GiveUpBranch(false);
      ghost var after := engine.State();
      RetiredHolds(engine.cfg, before, after, ticket, request, running);
      stage := Finished;
    }

    /** Returns the tokens; the slot goes back to the parent's mapping, and the request's mapping is dropped. */
    method Publish(faults: Faults) returns (r: StepResult)
      requires Holds() && !closed
      modifies this`sampler, this`mapping, this`stage, this`closed, engine.native, engine.native.exec
      ensures Holds()
      ensures Undisturbed(old(engine.State()), engine.State(), Some(ticket), context)
      ensures faults.check && old(stage) != Finished ==> r == Failed && engine.State() == old(engine.State())
      ensures evaluated == old(evaluated)
      ensures if closed then r == Failed && faults != NO_FAULTS else r == Done(tokens) && stage == Finished
      ensures !closed && old(mapping).Some? ==>
                engine.native.exec.activeMapping == engine.Fallback(parent, old(engine.native.exec.activeMapping))
      ensures !closed ==> tokens <= ColdOutput(engine.cfg, request)
      ensures !closed && context.Some? && EndsAt(engine.cfg, request, generated) ==>
                tokens == ColdOutput(engine.cfg, request)
    {
      OutputOf(engine.cfg, engine.State(), ticket, request, View());
      if stage == Finished {
        NothingDisturbed(engine.State(), Some(ticket), context);
        return Done(tokens);
      }
      if faults.check {
        NothingDisturbed(engine.State(), Some(ticket), context);
        Fail();
        return Failed;
      }
      EndRun();
      return Done(tokens);
    }

    /** Ends the session, whatever its state: the slot goes to the parent's mapping or to the root. */
    method Drop()
      requires Holds()
      modifies this`sampler, this`mapping, this`closed, engine.native, engine.native.exec
      ensures Holds() && closed && mapping.None?
      ensures old(mapping).Some? ==> engine.native.exec.activeMapping == engine.Fallback(parent, 0)
      ensures Undisturbed(old(engine.State()), engine.State(), Some(ticket), context)
      ensures engine.State().store == old(engine.State()).store
    {
      GiveUpBranch(true);
      Fail();
    }

    // ---- steps ----

    /** One step, whatever the stage. */
    method Step(faults: Faults) returns (r: StepResult)
      requires Holds() && !closed
      modifies this, engine`resident, engine`files, engine`spillBytes, engine.native, engine.native.exec, engine.store
      ensures Holds() && Stepped(faults, r) && Told(faults, r)
    {
      match stage
      case Preparation => r := Prepare(faults);
      case Prefill => r := PrefillStep(faults);
      case Decoding =>
        if generated >= request.maxTokens {
          r := PublishStep(faults);
        } else {
          r := DecodeStep(faults);
        }
      case _ => r := PublishStep(faults);
    }

    method PublishStep(faults: Faults) returns (r: StepResult)
      requires Holds() && !closed
      requires stage == Publication || stage == Finished || (stage == Decoding && generated >= request.maxTokens)
      modifies this`sampler, this`mapping, this`stage, this`closed, engine.native, engine.native.exec
      ensures Holds() && Stepped(faults, r) && Told(faults, r)
    {
      ghost var (before, me) := (engine.State(), Me());
      r := Publish(faults);
      PublishedKeeps(engine.cfg, before, engine.State(), me, Me(), faults, r);
    }
  }

  lemma PublishedKeeps(cfg: Config, a: Shared, b: Shared, p: Party, q: Party, faults: Faults, r: StepResult)
    requires cfg.blockSize > 0 && PartyHolds(cfg, a, p) && !p.closed
    requires p.session.stage in {Publication, Finished}
             || (p.session.stage == Decoding && p.session.generated >= p.request.maxTokens)
    requires Undisturbed(a, b, Some(p.ticket), q.session.context)
    requires b.store.next == a.store.next && q.ticket == p.ticket && q.request == p.request
    requires q.session == p.session.(sampler := q.session.sampler, mapping := q.session.mapping, stage := q.session.stage)
    requires faults.check && p.session.stage != Finished ==> r == Failed && b == a
    requires if q.closed then r == Failed && faults != NO_FAULTS else r.Done? && q.session.stage == Finished
    requires r.Done? && p.session.stage != Finished ==> r.successor == ColdOutput(cfg, p.request)
    ensures StepKeeps(cfg, a, b, p, q, faults, r)
    ensures FaultsTell(cfg, a, b, p.session, q.session, p.request.maxTokens, faults, r)
  {
  }

  lemma NothingDisturbed(a: Shared, mine: Option<nat>, context: Option<ContextId>)
    requires Held(a.exec, a.owners)
    ensures Undisturbed(a, a, mine, context)
  {
    NothingMoved(a, mine);
  }

  lemma EvaluateUndisturbed(a: Shared, b: Shared, ticket: nat, c: ContextId)
    requires RequestsKept(a, b, Some(ticket)) && b.store == a.store
    ensures Undisturbed(a, b, Some(ticket), Some(c))
  {
  }

  lemma BlockUndisturbed(a: Shared, b: Shared, d: Shared, ticket: nat, c: ContextId)
    requires Undisturbed(a, b, Some(ticket), Some(c)) && Undisturbed(b, d, None, Some(c))
    ensures Undisturbed(a, d, Some(ticket), Some(c))
  {
    UndisturbedFacts(a, b, Some(ticket), Some(c));
    UndisturbedFacts(b, d, None, Some(c));
    assert RequestsKept(b, d, Some(ticket));
    RequestsKeptTransitive(a, b, d, Some(ticket));
    StoreGrowsTransitive(a.store, b.store, d.store, Some(c));
  }

  lemma UndisturbedByOwn(a: Shared, b: Shared, d: Shared, ticket: nat, c: ContextId)
    requires RequestsKept(a, b, None) && b.store == a.store && Undisturbed(b, d, None, Some(c))
    ensures Undisturbed(a, d, Some(ticket), Some(c))
  {
    RequestsKeptTransitive(a, b, d, None);
  }

  lemma BranchKept(a: Shared, b: Shared, ticket: nat, m: Mapping, tokens: seq<Token>)
    requires RequestsKept(a, b, None) && BranchHolds(a, ticket, m, tokens)
    ensures BranchHolds(b, ticket, m, tokens)
  {
    assert KeptAt(a.exec, a.owners, b.exec, b.owners, m);
  }

  lemma TakeMore(tokens: seq<Token>, from: nat, end: nat)
    requires from <= end <= |tokens|
    ensures tokens[..from] + tokens[from..end] == tokens[..end]
  {
  }
}
