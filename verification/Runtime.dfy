/** The runtime objects: the contract engine with its violation log, and the belief runtime that
    drives one update after another under its locks. */
module Runtimes {
  import opened Wrappers
  import opened Sequences
  import opened Projections
  import opened Beliefs
  import opened Diffs
  import opened Quads
  import opened System1
  import opened Revision
  import opened Runs
  import opened Contracts

  // ---- Recovery ----------------------------------------------------------------------------------------

  method FindLatest(cps: seq<Checkpoint>, target: nat) returns (best: Option<Checkpoint>)
    ensures best == LatestAtOrBefore(cps, target)
  {
    best := None;
    var i := 0;
    while i < |cps|
      invariant 0 <= i <= |cps|
      invariant best == LatestAtOrBefore(cps[..i], target)
    {
      assert cps[..i + 1][..i] == cps[..i];
      if cps[i].version <= target && (best.None? || cps[i].version >= best.value.version) {
        best := Some(cps[i]);
      }
      i := i + 1;
    }
    assert cps[..i] == cps;
  }

  method Degrade(q: BeliefQuad, floor: real)
    modifies q`nodes
    ensures q.nodes == RaiseFloor(old(q.nodes), floor)
  {
    ghost var start := q.nodes;
    var rest := q.nodes.Keys;
    while rest != {}
      invariant rest <= start.Keys && q.nodes.Keys == start.Keys
      invariant forall id :: id in start ==>
        q.nodes[id] == if id in rest then start[id] else RaiseFloor(start, floor)[id]
      decreases rest
    {
      var id :| id in rest;
      if q.nodes[id].fast < floor {
        q.nodes := q.nodes[id := q.nodes[id].(fast := floor)];
      }
      rest := rest - {id};
    }
  }

  method RollbackStep(q: BeliefQuad, cid: CheckpointId) returns (err: Option<RuntimeError>, diff: Option<Diff>)
    requires q.Separate()
    modifies q.Owned()
    ensures (q.State(), err) == RollbackRecovery(old(q.State()), cid)
    ensures diff.Some? <==> err.None?
  {
    hide RollbackTo, IsDiff;
    var r := q.Rollback(cid);
    match r
    case Ok(d) => err, diff := None, Some(d);
    case Err(e) => err, diff := Some(RecoveryFailed(RollbackRefused(e))), None;
  }

  method ExecuteRecovery(q: BeliefQuad, v: Violation, policy: Policy)
    returns (err: Option<RuntimeError>, diff: Option<Diff>)
    requires q.Separate()
    modifies q.Owned()
    ensures (q.State(), err) == Recover(old(q.State()), v, policy)
  {
    hide RollbackRecovery, LatestAtOrBefore, RaiseFloor;
    diff := None;
    match policy {
      case RollbackToLastCheckpoint =>
        if v.lastValid.None? {
          err := Some(RecoveryFailed(NoCheckpoint));
        } else {
          err, diff := RollbackStep(q, v.lastValid.value);
        }
      case RollbackToCheckpoint(cid) =>
        err, diff := RollbackStep(q, cid);
      case RollbackToVersion(target) =>
        var cp := FindLatest(q.checkpoints, target);
        if cp.None? {
          err := Some(RecoveryFailed(NoCheckpointAtVersion));
        } else {
          err, diff := RollbackStep(q, cp.value.id);
        }
      case DegradeAndContinue(floor) =>
        Degrade(q, floor);
        err := None;
      case EmitCausalDiffAndHalt =>
        err := Some(ContractHalt("EmitCausalDiffAndHalt", v.description, v.atVersion));
    }
  }

  // ---- The engine ----------------------------------------------------------------------------------------

  class ContractEngine {
    const contracts: seq<Contract>
    var log: Log

    constructor (contracts: seq<Contract>)
      ensures this.contracts == contracts && log == Log([], [], [], 0)
    {
      this.contracts := contracts;
      log := Log([], [], [], 0);
    }

    method PreUpdate(q: Quad) returns (failing: Option<Contract>)
      ensures failing == FirstFailing(contracts, q)
    {
      var i := 0;
      assert contracts[0..] == contracts;
      while i < |contracts|
        invariant 0 <= i <= |contracts|
        invariant FirstFailing(contracts[i..], q) == FirstFailing(contracts, q)
      {
        assert contracts[i..][1..] == contracts[i + 1..];
        if !HoldAll(contracts[i].preconditions, q) {
          return Some(contracts[i]);
        }
        i := i + 1;
      }
      return None;
    }

    /** One violation: soft ones are logged, the first hard one is recovered from, critical ones
        halt. */
    method Handle(q: BeliefQuad, c: Contract, v: Violation, outcome: Option<Outcome>, sawHard: bool)
      returns (err: Option<RuntimeError>, outcome': Option<Outcome>, sawHard': bool)
      requires q.Separate() && this !in q.Owned()
      requires sawHard ==> outcome.Some?
      modifies q.Owned(), this`log
      ensures (Scan(q.State(), log, outcome'), err)
        == ScanOne(Scan(old(q.State()), old(log), outcome), c, v)
      ensures sawHard' ==> outcome'.Some?
    {
      hide Recover;
      err, outcome', sawHard' := None, outcome, sawHard;
      match v.severity {
        case Soft =>
          log := log.(soft := log.soft + [v]);
        case Hard =>
          if !sawHard && outcome.None? {
            var diff;
            err, diff := ExecuteRecovery(q, v, c.recovery);
            if err.Some? {
              return;
            }
            log := log.(hard := log.hard + [v], recoveries := log.recoveries + 1);
            outcome' := Some(Outcome(v, c.recovery));
            sawHard' := true;
          } else {
            log := log.(hard := log.hard + [v]);
          }
        case Critical =>
          log := log.(critical := log.critical + [v]);
          err := Some(ContractHalt(c.domain, v.description, v.atVersion));
      }
    }

    method HandleAll(q: BeliefQuad, c: Contract, vs: seq<Violation>, outcome: Option<Outcome>)
      returns (err: Option<RuntimeError>, outcome': Option<Outcome>)
      requires q.Separate() && this !in q.Owned()
      modifies q.Owned(), this`log
      ensures (Scan(q.State(), log, outcome'), err)
        == ScanAll(Scan(old(q.State()), old(log), outcome), c, vs)
    {
      hide ScanOne;
      ghost var start := Scan(q.State(), log, outcome);
      err, outcome' := None, outcome;
      var sawHard := false;
      var i := 0;
      assert vs[0..] == vs;
      while i < |vs|
        invariant 0 <= i <= |vs|
        invariant err.None? && (sawHard ==> outcome'.Some?)
        invariant ScanAll(Scan(q.State(), log, outcome'), c, vs[i..]) == ScanAll(start, c, vs)
      {
        assert vs[i..][1..] == vs[i + 1..];
        err, outcome', sawHard := Handle(q, c, vs[i], outcome', sawHard);
        if err.Some? {
          return;
        }
        i := i + 1;
      }
    }

    method PostUpdate(q: BeliefQuad, cp: Option<CheckpointId>)
      returns (err: Option<RuntimeError>, outcome: Option<Outcome>)
      requires q.Separate() && this !in q.Owned()
      modifies q.Owned(), this`log
      ensures (Scan(q.State(), log, outcome), err)
        == ScanContracts(Scan(old(q.State()), old(log), None), contracts, cp)
    {
      hide ScanAll, CollectAll;
      ghost var start := Scan(q.State(), log, None);
      err, outcome := None, None;
      var i := 0;
      assert contracts[0..] == contracts;
      while i < |contracts|
        invariant 0 <= i <= |contracts|
        invariant err.None?
        invariant ScanContracts(Scan(q.State(), log, outcome), contracts[i..], cp)
          == ScanContracts(start, contracts, cp)
      {
        assert contracts[i..][1..] == contracts[i + 1..];
        var violations := CollectAll(contracts[i].invariants, q.State(), cp);
        err, outcome := HandleAll(q, contracts[i], violations, outcome);
        if err.Some? {
          return;
        }
        i := i + 1;
      }
    }
  }

  // ---- The runtime ---------------------------------------------------------------------------------------

  /** Checkpoint, revision and System 1 propagation. */
  method ReviseAndPropagate(
    q: BeliefQuad, sem: Semantics, id: BeliefId, value: BeliefValue, prov: Provenance, confidence: real,
    authorized: bool, cid: CheckpointId, decay: Decay)
    returns (err: Option<RevisionError>, fast: real, ghost env: Env)
    requires q.Separate() && ValidQuad(q.State()) && UnusedCheckpointId(q.State(), cid)
    modifies q.Owned()
    ensures ValidQuad(q.State())
    ensures env == Env(authorized, cid, decay, env.trace)
    ensures
      var (q2, r) := Revised(old(q.State()), sem, id, value, prov, confidence, env);
      && (err.Some? ==> q.State() == q2 && r == Err(err.value))
      && (err.None? ==>
            && r.Ok? && q.State() == Propagated(q2, env) && id in q.nodes && fast == q.nodes[id].fast
            && ValidProj(q2.causal) && IsVisitOrder(q2.causal, id, env.trace))
  {
    hide ValidQuad, Revise, VisitAll, IsVisitOrder, AllInStep, ValidProj;
    env, fast := Env(authorized, cid, decay, []), 0.0;
    CheckpointKeepsValid(q.State(), cid);
    q.SaveCheckpoint(cid);
    ghost var q1 := q.State();
    ReviseKeepsValid(q1, sem, id, value, prov, confidence);
    ValidIsInStep(q1);
    var record := ReviseQuad(q, sem, id, value, prov, confidence);
    if record.Err? {
      return Some(record.error), fast, env;
    }
    ghost var q2 := q.State();
    RevisedIsLive(q1, sem, id, value, prov, confidence);
    ValidIsInStep(q2);
    ghost var trace := PropagateSystem1(q, id, decay);
    env := Env(authorized, cid, decay, trace);
    PropagateKeepsValid(q2, trace, decay);
    VisitOrderStarts(q2.causal, id, trace);
    VisitAllFrame(q2.nodes, q2.causal, trace, decay);
    fast := q.nodes[id].fast;
    err := None;
  }

  datatype UpdateResult = System1Only | System2Pending(fast: real, divergence: real)

  class BeliefRuntime {
    const quad: BeliefQuad
    const engine: ContractEngine
    const hasClient: bool
    const baseline: real
    const defaultThreshold: real
    var tokensUsed: nat

    ghost predicate Valid()
      reads this, quad, quad.semantic, quad.temporal, quad.causal, quad.entity
    {
      && quad.Separate() && ValidQuad(quad.State())
      && engine !in quad.Owned() && this as object !in quad.Owned() && this as object != engine
    }

    function State(): Runtime
      reads this, engine, quad, quad.semantic, quad.temporal, quad.causal, quad.entity
    {
      Runtime(quad.State(), engine.log, tokensUsed)
    }

    constructor (quad: BeliefQuad, engine: ContractEngine, hasClient: bool, baseline: real, tau: real)
      ensures this.quad == quad && this.engine == engine && tokensUsed == 0
    {
      this.quad, this.engine, this.hasClient := quad, engine, hasClient;
      this.baseline, this.defaultThreshold, this.tokensUsed := baseline, tau, 0;
    }

    /** The update up to and including contract enforcement.  The ghosts report the visiting order
        that propagation took and the recovery, if one ran. */
    method Commit(
      sem: Semantics, id: BeliefId, value: BeliefValue, prov: Provenance, confidence: real,
      authorized: bool, cid: CheckpointId, decay: Decay)
      returns (err: Option<RuntimeError>, fast: real, ghost env: Env, ghost outcome: Option<Outcome>)
      requires Valid() && UnusedCheckpointId(quad.State(), cid)
      modifies this`tokensUsed, engine`log, quad.Owned()
      ensures Valid()
      ensures env == Env(authorized, cid, decay, env.trace)
      ensures (State(), if err.Some? then Err(err.value) else Ok(outcome))
        == UpdateBelief(old(State()), engine.contracts, sem, id, value, prov, confidence, env)
      ensures err.None? ==>
        && VisitsInOrder(Revised(old(quad.State()), sem, id, value, prov, confidence, env).0, id, env)
        && var q3 := Proposed(old(quad.State()), sem, id, value, prov, confidence, env);
           id in q3.nodes && fast == q3.nodes[id].fast
    {
      hide ValidQuad, ScanContracts, FirstFailing, Revised, Propagated, Proposed, UnusedCheckpointId, TokenLimit,
           IsVisitOrder, ValidProj;
      env, outcome, fast := Env(authorized, cid, decay, []), None, 0.0;
      if !authorized {
        return Some(SovereigntyViolation), fast, env, None;
      }
      var failing := engine.PreUpdate(quad.State());
      if failing.Some? {
        return Some(PreconditionFailed(failing.value.domain)), fast, env, None;
      }
      var limit := TokenLimit(engine.contracts);
      var prev := tokensUsed;
      tokensUsed := tokensUsed + 1;
      if limit.Some? && prev >= limit.value {
        return Some(GovernanceLimitExceeded(limit.value, prev + 1)), fast, env, None;
      }
      var failed;
      failed, fast, env := ReviseAndPropagate(quad, sem, id, value, prov, confidence, authorized, cid, decay);
      if failed.Some? {
        return Some(Core(failed.value)), fast, env, None;
      }
      ProposedIs(old(quad.State()), sem, id, value, prov, confidence, env);
      ScanContractsKeepsValid(Scan(quad.State(), engine.log, None), engine.contracts, Some(cid));
      err, outcome := engine.PostUpdate(quad, Some(cid));
    }

    /** An update, and whether System 2 is to reflect on it. */
    method Update(
      sem: Semantics, id: BeliefId, value: BeliefValue, prov: Provenance, confidence: real,
      authorized: bool, cid: CheckpointId, decay: Decay)
      returns (r: Result<UpdateResult, RuntimeError>, ghost env: Env, ghost outcome: Option<Outcome>)
      requires Valid() && UnusedCheckpointId(quad.State(), cid)
      modifies this`tokensUsed, engine`log, quad.Owned()
      ensures Valid()
      ensures (State(), if r.Err? then Err(r.error) else Ok(outcome))
        == UpdateBelief(old(State()), engine.contracts, sem, id, value, prov, confidence, env)
      ensures r.Ok? ==>
        var q3 := Proposed(old(quad.State()), sem, id, value, prov, confidence, env);
        && VisitsInOrder(Revised(old(quad.State()), sem, id, value, prov, confidence, env).0, id, env)
        && id in q3.nodes
        && var fast := q3.nodes[id].fast;
           var tau := if id in quad.nodes then quad.nodes[id].reflectionThreshold else defaultThreshold;
           if hasClient && (fast - baseline > tau || baseline - fast > tau) then
             r.value == System2Pending(fast, if fast >= baseline then fast - baseline else baseline - fast)
           else r.value == System1Only
    {
      hide ValidQuad, UpdateBelief, Proposed, Revised, UnusedCheckpointId, VisitsInOrder;
      var err, fast;
      err, fast, env, outcome := Commit(sem, id, value, prov, confidence, authorized, cid, decay);
      if err.Some? {
        return Err(err.value), env, outcome;
      }
      r := Ok(Decide(fast, id));
    }

    /** System 2 is wanted when a client is attached and the confidence before enforcement is further
        from the baseline than the belief's threshold. */
    function Decide(fast: real, id: BeliefId): UpdateResult
      reads quad
    {
      var divergence := Abs(fast - baseline);
      if hasClient && divergence > Threshold(id) then System2Pending(fast, divergence) else System1Only
    }

    /** The belief's own reflection threshold, read after enforcement; the default when it is gone. */
    function Threshold(id: BeliefId): real
      reads quad
    {
      if id in quad.nodes then quad.nodes[id].reflectionThreshold else defaultThreshold
    }
  }

  lemma ValidIsInStep(q: Quad)
    requires ValidQuad(q)
    ensures AllInStep(q) && ValidProj(q.causal)
  {
  }

  lemma RevisedIsLive(
    q: Quad, sem: Semantics, id: BeliefId, value: BeliefValue, prov: Provenance, confidence: real)
    requires Revise(q, sem, id, value, prov, confidence).1.Ok?
    ensures id in Revise(q, sem, id, value, prov, confidence).0.nodes
  {
    ReviseEffect(q, sem, id, value, prov, confidence);
  }

  lemma VisitOrderStarts(causal: Proj<CausalEdge>, id: BeliefId, trace: seq<BeliefId>)
    requires ValidProj(causal) && IsVisitOrder(causal, id, trace)
    ensures trace != [] && trace[0] == id && Distinct(trace)
  {
    VisitOrderVisitsOnce(causal, id, trace);
  }
}
