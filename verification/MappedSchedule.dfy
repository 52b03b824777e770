/**
 Many sessions on one engine, in any order.

 The program locks the engine for each step, so what can happen is any sequence of steps, early ends, drops and
 spills. Whatever the sequence, every session lets out exactly the tokens of its own cold run.
 */
module MappedSchedule {
  import opened Options
  import opened TokenSequence
  import opened PrefixForest
  import opened ContextStore
  import opened EngineModel
  import opened MappedEngine
  import opened SessionModel
  import opened MappedSessions

  datatype Action =
    | StepOf(session: nat, faults: Faults)
    | FinishOf(session: nat, faults: Faults)
    | DropOf(session: nat)
    | Spill(writeFails: set<Id>, demoteFails: set<Id>)

  function Parties(sessions: seq<MappedSession>): (ps: seq<Party>)
    reads sessions
    ensures |ps| == |sessions| && forall i :: 0 <= i < |ps| ==> ps[i] == sessions[i].Me()
  {
    seq(|sessions|, i requires 0 <= i < |sessions| reads sessions => sessions[i].Me())
  }

  /** Different sessions of one engine. */
  ghost predicate OfEngine(engine: Engine, sessions: seq<MappedSession>) {
    && (forall s :: s in sessions ==> s.engine == engine)
    && (forall i, j :: 0 <= i < |sessions| && 0 <= j < |sessions| && i != j ==> sessions[i] != sessions[j])
  }

  ghost predicate Together(engine: Engine, sessions: seq<MappedSession>)
    reads engine, engine.native, engine.native.exec, engine.store, sessions
  {
    && engine.Valid()
    && AllHold(engine.cfg, engine.State(), Parties(sessions))
  }

  /** One step of one session. */
  method TakeStep(engine: Engine, sessions: seq<MappedSession>, i: nat, faults: Faults) returns (r: StepResult)
    requires OfEngine(engine, sessions) && Together(engine, sessions) && i < |sessions| && !sessions[i].closed
    modifies sessions[i], engine`resident, engine`files, engine`spillBytes
    modifies engine.native, engine.native.exec, engine.store
    ensures Together(engine, sessions)
    ensures Parties(sessions) == old(Parties(sessions))[i := sessions[i].Me()]
    ensures StepKeeps(engine.cfg, old(engine.State()), engine.State(), old(sessions[i].Me()), sessions[i].Me(), faults, r)
  {
    ghost var before := engine.State();
    ghost var parties := Parties(sessions);
    assert PartyHolds(engine.cfg, before, parties[i]);
    r := sessions[i].Step(faults);
    OneStepsAllHold(engine.cfg, before, engine.State(), parties, i, sessions[i].Me());
    assert Parties(sessions) == parties[i := sessions[i].Me()];
  }

  /** Ends one session before it is done. */
  method TakeFinish(engine: Engine, sessions: seq<MappedSession>, i: nat, faults: Faults) returns (r: StepResult)
    requires OfEngine(engine, sessions) && Together(engine, sessions) && i < |sessions| && !sessions[i].closed
    modifies sessions[i], engine.native, engine.native.exec
    ensures Together(engine, sessions)
    ensures Parties(sessions) == old(Parties(sessions))[i := sessions[i].Me()]
    ensures sessions[i].generated == old(sessions[i].generated)
    ensures r.Done? ==> r.successor <= ColdOutput(engine.cfg, sessions[i].request)
  {
    ghost var before := engine.State();
    ghost var parties := Parties(sessions);
    assert PartyHolds(engine.cfg, before, parties[i]);
    r := sessions[i].Publish(faults);
    OneStepsAllHold(engine.cfg, before, engine.State(), parties, i, sessions[i].Me());
    assert Parties(sessions) == parties[i := sessions[i].Me()];
  }

  method TakeDrop(engine: Engine, sessions: seq<MappedSession>, i: nat)
    requires OfEngine(engine, sessions) && Together(engine, sessions) && i < |sessions|
    modifies sessions[i], engine.native, engine.native.exec
    ensures Together(engine, sessions)
    ensures Parties(sessions) == old(Parties(sessions))[i := sessions[i].Me()]
    ensures sessions[i].closed && sessions[i].mapping.None?
  {
    ghost var before := engine.State();
    ghost var parties := Parties(sessions);
    assert PartyHolds(engine.cfg, before, parties[i]);
    sessions[i].Drop();
    OneStepsAllHold(engine.cfg, before, engine.State(), parties, i, sessions[i].Me());
    assert Parties(sessions) == parties[i := sessions[i].Me()];
  }

  method TakeSpill(engine: Engine, sessions: seq<MappedSession>, writeFails: set<Id>, demoteFails: set<Id>)
    requires OfEngine(engine, sessions) && Together(engine, sessions)
    modifies engine`resident, engine`files, engine`spillBytes, engine.native, engine.native.exec
    ensures Together(engine, sessions)
    ensures Parties(sessions) == old(Parties(sessions))
  {
    ghost var before := engine.State();
    ghost var parties := Parties(sessions);
    var spilled, failed, gone := engine.SpillInactive(writeFails, demoteFails);
    NoneStepsAllHold(engine.cfg, before, engine.State(), parties);
    assert Parties(sessions) == parties;
  }

  /** What a session has returned, and whether it ran to its end. */
  datatype Output = Output(tokens: seq<Token>, whole: bool)

  /** What one session has let out: the tokens of its cold run, one by one, and none after the one that ends it. What it
      returns is a prefix of that run, and if it ran to its end, all of it. */
  ghost predicate OutputHolds(cfg: Config, p: Party, streamed: seq<Token>, output: Option<Output>) {
    && (forall k :: 0 <= k < |streamed| ==> streamed[k] == ColdToken(cfg, p.request, k + 1))
    && |streamed| <= p.request.maxTokens && GoesOnUntil(cfg, p.request, |streamed|)
    && (streamed != [] || (output.Some? && output.value.whole) ==> FitsWindow(cfg, p.request))
    && (!p.closed ==> |streamed| == p.session.generated)
    && (output.Some? ==>
          && output.value.tokens <= ColdOutput(cfg, p.request)
          && (output.value.whole ==> output.value.tokens == ColdOutput(cfg, p.request)))
  }

  ghost predicate AllOut(cfg: Config, ps: seq<Party>, streamed: seq<seq<Token>>, outputs: seq<Option<Output>>) {
    && |streamed| == |outputs| == |ps|
    && forall i {:trigger OutputHolds(cfg, ps[i], streamed[i], outputs[i])} ::
         0 <= i < |ps| ==> OutputHolds(cfg, ps[i], streamed[i], outputs[i])
  }

  lemma OneLetsOut(cfg: Config, ps: seq<Party>, streamed: seq<seq<Token>>, outputs: seq<Option<Output>>, i: nat,
                   q: Party, more: seq<Token>, output: Option<Output>)
    requires AllOut(cfg, ps, streamed, outputs) && i < |ps| && OutputHolds(cfg, q, more, output)
    ensures AllOut(cfg, ps[i := q], streamed[i := more], outputs[i := output])
  {
    forall j {:trigger OutputHolds(cfg, ps[i := q][j], streamed[i := more][j], outputs[i := output][j])} | 0 <= j < |ps|
      ensures OutputHolds(cfg, ps[i := q][j], streamed[i := more][j], outputs[i := output][j])
    {
      if j != i {
        assert OutputHolds(cfg, ps[j], streamed[j], outputs[j]);
      }
    }
  }

  /** What a step lets out is the cold run's. */
  lemma StepLetsOut(cfg: Config, a: Shared, b: Shared, p: Party, q: Party, faults: Faults, r: StepResult,
                    streamed: seq<Token>, output: Option<Output>)
    requires cfg.blockSize > 0 && PartyHolds(cfg, a, p) && PartyHolds(cfg, b, q)
    requires StepKeeps(cfg, a, b, p, q, faults, r) && !p.closed && OutputHolds(cfg, p, streamed, output)
    ensures r.Sampled? ==> OutputHolds(cfg, q, streamed + [r.token], output)
    ensures !r.Sampled? ==> OutputHolds(cfg, q, streamed, output)
    ensures r.Done? && p.session.stage != Finished ==> OutputHolds(cfg, q, streamed, Some(Output(r.successor, true)))
  {
  }

  method LetStep(engine: Engine, sessions: seq<MappedSession>, i: nat, faults: Faults,
                 streamed: seq<seq<Token>>, outputs: seq<Option<Output>>)
    returns (more: seq<seq<Token>>, ends: seq<Option<Output>>)
    requires OfEngine(engine, sessions) && Together(engine, sessions) && i < |sessions| && !sessions[i].closed
    requires AllOut(engine.cfg, Parties(sessions), streamed, outputs)
    modifies sessions[i], engine`resident, engine`files, engine`spillBytes
    modifies engine.native, engine.native.exec, engine.store
    ensures Together(engine, sessions) && AllOut(engine.cfg, Parties(sessions), more, ends)
  {
    more, ends := streamed, outputs;
    var unfinished := sessions[i].stage != Finished;
    ghost var before := engine.State();
    ghost var parties := Parties(sessions);
    assert OutputHolds(engine.cfg, parties[i], streamed[i], outputs[i]);
    var r := TakeStep(engine, sessions, i, faults);
    ghost var q := sessions[i].Me();
    StepLetsOut(engine.cfg, before, engine.State(), parties[i], q, faults, r, streamed[i], outputs[i]);
    if r.Sampled? {
      more := streamed[i := streamed[i] + [r.token]];
    } else if r.Done? && unfinished {
      ends := outputs[i := Some(Output(r.successor, true))];
    }
    OneLetsOut(engine.cfg, parties, streamed, outputs, i, q, more[i], ends[i]);
    assert more == streamed[i := more[i]] && ends == outputs[i := ends[i]];
  }

  /** A session that is ended before it is done returns what it has. */
  method LetFinish(engine: Engine, sessions: seq<MappedSession>, i: nat, faults: Faults,
                   ghost streamed: seq<seq<Token>>, outputs: seq<Option<Output>>)
    returns (ends: seq<Option<Output>>)
    requires OfEngine(engine, sessions) && Together(engine, sessions) && i < |sessions| && !sessions[i].closed
    requires AllOut(engine.cfg, Parties(sessions), streamed, outputs)
    modifies sessions[i], engine.native, engine.native.exec
    ensures Together(engine, sessions) && AllOut(engine.cfg, Parties(sessions), streamed, ends)
  {
    var unfinished := sessions[i].stage != Finished;
    ghost var parties := Parties(sessions);
    assert OutputHolds(engine.cfg, parties[i], streamed[i], outputs[i]);
    var r := TakeFinish(engine, sessions, i, faults);
    ends := if r.Done? && unfinished then outputs[i := Some(Output(r.successor, false))] else outputs;
    OneLetsOut(engine.cfg, parties, streamed, outputs, i, sessions[i].Me(), streamed[i], ends[i]);
    assert streamed == streamed[i := streamed[i]] && ends == outputs[i := ends[i]];
  }

  /** What is dropped lets nothing out. */
  method LetDrop(engine: Engine, sessions: seq<MappedSession>, i: nat,
                 ghost streamed: seq<seq<Token>>, ghost outputs: seq<Option<Output>>)
    requires OfEngine(engine, sessions) && Together(engine, sessions) && i < |sessions|
    requires AllOut(engine.cfg, Parties(sessions), streamed, outputs)
    modifies sessions[i], engine.native, engine.native.exec
    ensures Together(engine, sessions) && AllOut(engine.cfg, Parties(sessions), streamed, outputs)
  {
    ghost var parties := Parties(sessions);
    assert OutputHolds(engine.cfg, parties[i], streamed[i], outputs[i]);
    TakeDrop(engine, sessions, i);
    OneLetsOut(engine.cfg, parties, streamed, outputs, i, sessions[i].Me(), streamed[i], outputs[i]);
    assert streamed == streamed[i := streamed[i]] && outputs == outputs[i := outputs[i]];
  }

  /** Any schedule of any sessions. Every session streams a prefix of its own cold run and never goes on after its end;
      what it returns is a prefix too, and if it ran to its end, all of it: the cache, the spills, the faults and the
      other sessions are never seen. */
  method Interleave(engine: Engine, sessions: seq<MappedSession>, schedule: seq<Action>)
    returns (streamed: seq<seq<Token>>, outputs: seq<Option<Output>>)
    requires OfEngine(engine, sessions) && Together(engine, sessions)
    requires forall s :: s in sessions ==> s.generated == 0
    modifies sessions, engine`resident, engine`files, engine`spillBytes
    modifies engine.native, engine.native.exec, engine.store
    ensures Together(engine, sessions) && AllOut(engine.cfg, Parties(sessions), streamed, outputs)
  {
    streamed := seq(|sessions|, i => []);
    outputs := seq(|sessions|, i => None);
    for n := 0 to |schedule|
      invariant Together(engine, sessions) && AllOut(engine.cfg, Parties(sessions), streamed, outputs)
    {
      match schedule[n]
      case StepOf(i, faults) =>
        if i < |sessions| && !sessions[i].closed {
          streamed, outputs := LetStep(engine, sessions, i, faults, streamed, outputs);
        }
      case FinishOf(i, faults) =>
        if i < |sessions| && !sessions[i].closed {
          outputs := LetFinish(engine, sessions, i, faults, streamed, outputs);
        }
      case DropOf(i) =>
        if i < |sessions| {
          LetDrop(engine, sessions, i, streamed, outputs);
        }
      case Spill(writeFails, demoteFails) =>
        TakeSpill(engine, sessions, writeFails, demoteFails);
    }
  }

  /** Left to itself, without faults and digest collisions, a request that can be served runs to its end in finitely
      many steps and returns its whole cold run, whatever the cache held when it came. */
  method Complete(session: MappedSession) returns (output: seq<Token>)
    requires session.Holds() && !session.closed && session.stage == Preparation
    requires Servable(session.engine.cfg, session.request) && DigestsDiffer(session.engine.cfg.ids)
    modifies session, session.engine`resident, session.engine`files, session.engine`spillBytes
    modifies session.engine.native, session.engine.native.exec, session.engine.store
    ensures session.Holds() && output == ColdOutput(session.engine.cfg, session.request)
  {
    var r := Advanced;
    while true
      invariant session.Holds() && !session.closed && session.stage != Finished
      decreases 4 - StageRank(session.stage), |session.tokens| - session.evaluated,
                session.request.maxTokens - session.generated
    {
      r := session.Step(NO_FAULTS);
      if r.Done? {
        return r.successor;
      }
    }
  }
}
