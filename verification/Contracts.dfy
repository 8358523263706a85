/** Contract enforcement around an update: preconditions, violation accounting, recovery.

    Predicates are functions of the quad's state.  Violation ids, log messages and the recovery
    verifier's verdict, which is only recorded, are not modelled. */
module Contracts {
  import opened Wrappers
  import opened Sequences
  import opened Projections
  import opened Beliefs
  import opened Diffs
  import opened NoisyOr
  import opened Quads
  import opened System1
  import opened Revision
  import opened Runs

  datatype ViolationClass = Soft | Hard | Critical

  datatype Policy =
    | RollbackToLastCheckpoint
    | RollbackToVersion(target: nat)
    | EmitCausalDiffAndHalt
    | DegradeAndContinue(minConfidence: real)
    | RollbackToCheckpoint(cid: CheckpointId)

  datatype Invariant = Invariant(description: string, severity: ViolationClass, holds: Quad -> bool)

  datatype Contract = Contract(
    domain: string,
    preconditions: seq<Quad -> bool>,
    invariants: seq<Invariant>,
    maxTokens: Option<nat>,
    recovery: Policy)

  datatype Violation = Violation(
    description: string, severity: ViolationClass, atVersion: nat, lastValid: Option<CheckpointId>)

  datatype Log = Log(soft: seq<Violation>, hard: seq<Violation>, critical: seq<Violation>, recoveries: nat)

  datatype Outcome = Outcome(violation: Violation, applied: Policy)

  datatype RecoveryFailure = NoCheckpoint | NoCheckpointAtVersion | RollbackRefused(error: RollbackError)

  datatype RuntimeError =
    | SovereigntyViolation
    | PreconditionFailed(domain: string)
    | GovernanceLimitExceeded(limit: nat, used: nat)
    | Core(error: RevisionError)
    | RecoveryFailed(reason: RecoveryFailure)
    | ContractHalt(domain: string, invariant_: string, atVersion: nat)

  // ---- Violations ------------------------------------------------------------------------------------

  /** Every invariant that does not hold, whatever its class, in order. */
  function CollectAll(invs: seq<Invariant>, q: Quad, cp: Option<CheckpointId>): seq<Violation> {
    if invs == [] then []
    else
      var rest := CollectAll(invs[1..], q, cp);
      if invs[0].holds(q) then rest
      else [Violation(invs[0].description, invs[0].severity, q.version, cp)] + rest
  }

  /** The positions, from one on, of the invariants that do not hold. */
  ghost function Broken(invs: seq<Invariant>, q: Quad, from: nat): set<nat> {
    set i: nat | from <= i < |invs| && !invs[i].holds(q)
  }

  /** One violation for each broken invariant from a position on, in order, with its description and
      severity and the quad's version. */
  ghost predicate Reports(
    vs: seq<Violation>, invs: seq<Invariant>, q: Quad, cp: Option<CheckpointId>, from: nat, ps: seq<nat>)
  {
    && Enumerates(ps, Broken(invs, q, from)) && |vs| == |ps|
    && forall k :: 0 <= k < |ps| ==>
         ps[k] < |invs| && vs[k] == Violation(invs[ps[k]].description, invs[ps[k]].severity, q.version, cp)
  }

  /** The violations collected are exactly the broken invariants. */
  lemma {:induction false} CollectsBroken(invs: seq<Invariant>, q: Quad, cp: Option<CheckpointId>, from: nat)
    returns (ps: seq<nat>)
    requires from <= |invs|
    ensures Reports(CollectAll(invs[from..], q, cp), invs, q, cp, from, ps)
    decreases |invs| - from
  {
    if from == |invs| {
      ps := [];
    } else {
      var rest := CollectsBroken(invs, q, cp, from + 1);
      assert invs[from..][1..] == invs[from + 1..];
      var later := Broken(invs, q, from + 1);
      if invs[from].holds(q) {
        assert Broken(invs, q, from) == later;
        ps := rest;
      } else {
        EnumeratesInFront(rest, later, from);
        assert Broken(invs, q, from) == later + {from};
        ps := [from] + rest;
      }
    }
  }

  predicate HoldAll(ps: seq<Quad -> bool>, q: Quad) {
    forall i :: 0 <= i < |ps| ==> ps[i](q)
  }

  function FirstFailing(contracts: seq<Contract>, q: Quad): Option<Contract> {
    if contracts == [] then None
    else if HoldAll(contracts[0].preconditions, q) then FirstFailing(contracts[1..], q)
    else Some(contracts[0])
  }

  // ---- Recovery --------------------------------------------------------------------------------------

  /** The last of the highest versions at or below the target. */
  function LatestAtOrBefore(cps: seq<Checkpoint>, target: nat): Option<Checkpoint> {
    if cps == [] then None
    else
      var n := |cps| - 1;
      var before := LatestAtOrBefore(cps[..n], target);
      if cps[n].version <= target && (before.None? || cps[n].version >= before.value.version)
      then Some(cps[n]) else before
  }

  function RaiseFloor(nodes: Arena, floor: real): Arena {
    map id | id in nodes :: if nodes[id].fast < floor then nodes[id].(fast := floor) else nodes[id]
  }

  ghost function RollbackRecovery(q: Quad, cid: CheckpointId): (Quad, Option<RuntimeError>) {
    var (q', r) := RollbackTo(q, cid);
    (q', if r.Ok? then None else Some(RecoveryFailed(RollbackRefused(r.error))))
  }

  /** The new state, and the error if recovery failed or halted. */
  ghost function Recover(q: Quad, v: Violation, policy: Policy): (Quad, Option<RuntimeError>) {
    match policy
    case RollbackToLastCheckpoint =>
      if v.lastValid.None? then (q, Some(RecoveryFailed(NoCheckpoint)))
      else RollbackRecovery(q, v.lastValid.value)
    case RollbackToCheckpoint(cid) => RollbackRecovery(q, cid)
    case RollbackToVersion(target) =>
      var cp := LatestAtOrBefore(q.checkpoints, target);
      if cp.None? then (q, Some(RecoveryFailed(NoCheckpointAtVersion)))
      else RollbackRecovery(q, cp.value.id)
    case DegradeAndContinue(floor) => (q.(nodes := RaiseFloor(q.nodes, floor)), None)
    case EmitCausalDiffAndHalt =>
      (q, Some(ContractHalt("EmitCausalDiffAndHalt", v.description, v.atVersion)))
  }

  ghost predicate LatestAt(cps: seq<Checkpoint>, target: nat, i: nat) {
    i < |cps| && cps[i].version <= target && forall j :: i < j < |cps| ==> cps[j].version > target
  }

  /** With versions in order, RollbackToVersion goes to the most recent checkpoint at or before its
      target, and finds none only when there is none. */
  lemma {:induction false} LatestIsMostRecent(cps: seq<Checkpoint>, target: nat)
    requires forall i, j :: 0 <= i < j < |cps| ==> cps[i].version <= cps[j].version
    ensures
      var r := LatestAtOrBefore(cps, target);
      && (r.None? ==> forall i :: 0 <= i < |cps| ==> cps[i].version > target)
      && (r.Some? ==> exists i: nat :: LatestAt(cps, target, i) && cps[i] == r.value)
    decreases |cps|
  {
    if cps != [] {
      var n := |cps| - 1;
      LatestIsMostRecent(cps[..n], target);
      var r := LatestAtOrBefore(cps, target);
      if r.Some? && r.value == cps[n] && cps[n].version <= target {
        assert LatestAt(cps, target, n);
      } else if r.Some? {
        var i: nat :| LatestAt(cps[..n], target, i) && cps[..n][i] == r.value;
        forall j | i < j < |cps| ensures cps[j].version > target {
          if j < n { assert cps[..n][j].version > target; }
        }
        assert LatestAt(cps, target, i);
      } else {
        forall i | 0 <= i < |cps| ensures cps[i].version > target {
          if i < n { assert cps[..n][i].version > target; }
        }
      }
    }
  }

  /** The rollback then lands on that checkpoint's own snapshot. */
  lemma RollbackToVersionLands(q: Quad, target: nat, v: Violation)
    requires OrderedHistory(q)
    ensures
      var cp := LatestAtOrBefore(q.checkpoints, target);
      var (q', err) := Recover(q, v, RollbackToVersion(target));
      err.None? ==> cp.Some? && q' == cp.value.quad && q'.version <= target
  {
    var cp := LatestAtOrBefore(q.checkpoints, target);
    if cp.Some? {
      LatestIsMostRecent(q.checkpoints, target);
      var i: nat :| LatestAt(q.checkpoints, target, i) && q.checkpoints[i] == cp.value;
      FindIsFirst(q.checkpoints, cp.value.id, i);
    }
  }

  lemma RecoverKeepsValid(q: Quad, v: Violation, policy: Policy)
    requires ValidQuad(q)
    ensures ValidQuad(Recover(q, v, policy).0)
  {
    hide ValidQuad, RollbackTo;
    match policy
    case RollbackToLastCheckpoint => if v.lastValid.Some? { RollbackKeepsValid(q, v.lastValid.value); }
    case RollbackToCheckpoint(cid) => RollbackKeepsValid(q, cid);
    case RollbackToVersion(target) =>
      var cp := LatestAtOrBefore(q.checkpoints, target);
      if cp.Some? { RollbackKeepsValid(q, cp.value.id); }
    case DegradeAndContinue(floor) => DegradeKeepsValid(q, floor);
    case EmitCausalDiffAndHalt =>
  }

  lemma DegradeKeepsValid(q: Quad, floor: real)
    requires ValidQuad(q)
    ensures ValidQuad(q.(nodes := RaiseFloor(q.nodes, floor)))
  {
    UpdateKeepsValid(q, q.(nodes := RaiseFloor(q.nodes, floor)));
  }

  /** Degrading raises a confidence below the floor to the floor, and nothing else. */
  lemma RaiseFloorEffect(nodes: Arena, floor: real, id: BeliefId)
    requires id in nodes
    ensures RaiseFloor(nodes, floor).Keys == nodes.Keys
    ensures
      var node := RaiseFloor(nodes, floor)[id];
      && node == nodes[id].(fast := node.fast)
      && nodes[id].fast <= node.fast && floor <= node.fast
      && (node.fast == nodes[id].fast || node.fast == floor)
  {
  }

  /** Why a recovery is refused. */
  lemma RecoveryRefused(q: Quad, v: Violation, policy: Policy)
    ensures
      var err := Recover(q, v, policy).1;
      match policy
      case RollbackToLastCheckpoint =>
        && (v.lastValid.None? <==> err == Some(RecoveryFailed(NoCheckpoint)))
        && (v.lastValid.Some? ==> err == RollbackOutcome(q, v.lastValid.value))
      case RollbackToCheckpoint(cid) => err == RollbackOutcome(q, cid)
      case RollbackToVersion(target) =>
        && ((forall c :: c in q.checkpoints ==> c.version > target)
              <==> err == Some(RecoveryFailed(NoCheckpointAtVersion)))
      case DegradeAndContinue(_) => err == None
      case EmitCausalDiffAndHalt =>
        err == Some(ContractHalt("EmitCausalDiffAndHalt", v.description, v.atVersion))
  {
    LatestExistsIff(q.checkpoints, if policy.RollbackToVersion? then policy.target else 0);
    hide Agree, LatestAtOrBefore;
  }

  /** A rollback fails when the checkpoint is gone or the diff sees nothing to undo. */
  ghost function RollbackOutcome(q: Quad, cid: CheckpointId): Option<RuntimeError> {
    if forall c :: c in q.checkpoints ==> c.id != cid then
      Some(RecoveryFailed(RollbackRefused(CheckpointNotFound)))
    else if Agree(ByKey(q.nodes), ByKey(Find(q.checkpoints, cid).value.nodes)) then
      Some(RecoveryFailed(RollbackRefused(UnnecessaryContraction)))
    else None
  }

  lemma {:induction false} LatestExistsIff(cps: seq<Checkpoint>, target: nat)
    ensures LatestAtOrBefore(cps, target).None? <==> forall c :: c in cps ==> c.version > target
    decreases |cps|
  {
    if cps != [] {
      LatestExistsIff(cps[..|cps| - 1], target);
      assert cps == cps[..|cps| - 1] + [cps[|cps| - 1]];
    }
  }

  /** The floor is not clamped: confidences stay in [0, 1] exactly when the floor is at most one. */
  lemma DegradeConfidentIff(nodes: Arena, floor: real)
    requires Confident(nodes)
    ensures Confident(RaiseFloor(nodes, floor)) <==> floor <= 1.0 || nodes == map[]
  {
    if floor > 1.0 && nodes != map[] {
      var id :| id in nodes;
      assert RaiseFloor(nodes, floor)[id].fast == floor;
    }
  }

  // ---- The scan over contracts and violations ---------------------------------------------------------

  datatype Scan = Scan(quad: Quad, log: Log, outcome: Option<Outcome>)

  ghost function ScanOne(s: Scan, c: Contract, v: Violation): (Scan, Option<RuntimeError>) {
    match v.severity
    case Soft => (s.(log := s.log.(soft := s.log.soft + [v])), None)
    case Hard =>
      if s.outcome.Some? then (s.(log := s.log.(hard := s.log.hard + [v])), None)
      else
        var (q', err) := Recover(s.quad, v, c.recovery);
        if err.Some? then (s.(quad := q'), err)
        else (Scan(q', s.log.(hard := s.log.hard + [v], recoveries := s.log.recoveries + 1),
                   Some(Outcome(v, c.recovery))), None)
    case Critical =>
      (s.(log := s.log.(critical := s.log.critical + [v])),
       Some(ContractHalt(c.domain, v.description, v.atVersion)))
  }

  ghost function ScanAll(s: Scan, c: Contract, vs: seq<Violation>): (Scan, Option<RuntimeError>)
    decreases |vs|
  {
    if vs == [] then (s, None)
    else
      var (s', err) := ScanOne(s, c, vs[0]);
      if err.Some? then (s', err) else ScanAll(s', c, vs[1..])
  }

  ghost function ScanContracts(s: Scan, cs: seq<Contract>, cp: Option<CheckpointId>)
    : (Scan, Option<RuntimeError>)
    decreases |cs|
  {
    if cs == [] then (s, None)
    else
      var (s', err) := ScanAll(s, cs[0], CollectAll(cs[0].invariants, s.quad, cp));
      if err.Some? then (s', err) else ScanContracts(s', cs[1..], cp)
  }

  /** A violation, with the contract under which it was found. */
  datatype Finding = Finding(contract: Contract, violation: Violation)

  ghost function Found(c: Contract, vs: seq<Violation>): seq<Finding> {
    if vs == [] then [] else [Finding(c, vs[0])] + Found(c, vs[1..])
  }

  /** Everything that a scan collects, in order: each contract is evaluated on the state that it finds,
      so contracts after a recovery see the recovered state, and an error leaves the later contracts
      unevaluated. */
  ghost function Findings(s: Scan, cs: seq<Contract>, cp: Option<CheckpointId>): seq<Finding>
    decreases |cs|
  {
    if cs == [] then []
    else
      var vs := CollectAll(cs[0].invariants, s.quad, cp);
      var (s', err) := ScanAll(s, cs[0], vs);
      Found(cs[0], vs) + if err.Some? then [] else Findings(s', cs[1..], cp)
  }

  ghost function OfClass(fs: seq<Finding>, severity: ViolationClass): seq<Violation> {
    if fs == [] then []
    else if fs[0].violation.severity == severity then [fs[0].violation] + OfClass(fs[1..], severity)
    else OfClass(fs[1..], severity)
  }

  ghost function FirstHard(fs: seq<Finding>): Option<Finding> {
    if fs == [] then None
    else if fs[0].violation.severity.Hard? then Some(fs[0])
    else FirstHard(fs[1..])
  }

  lemma {:induction false} OfClassConcat(a: seq<Finding>, b: seq<Finding>, severity: ViolationClass)
    ensures OfClass(a + b, severity) == OfClass(a, severity) + OfClass(b, severity)
    decreases |a|
  {
    if a == [] {
      assert a + b == b;
    } else {
      OfClassConcat(a[1..], b, severity);
      assert (a + b)[1..] == a[1..] + b;
    }
  }

  lemma {:induction false} FirstHardConcat(a: seq<Finding>, b: seq<Finding>)
    ensures FirstHard(a + b) == if FirstHard(a).Some? then FirstHard(a) else FirstHard(b)
    decreases |a|
  {
    if a == [] {
      assert a + b == b;
    } else {
      FirstHardConcat(a[1..], b);
      assert (a + b)[1..] == a[1..] + b;
    }
  }

  /** What dealing with some findings did: soft and hard ones are logged exactly once and in order, and
      the quad is untouched, or the result of one recovery, for the first hard one, by the policy of
      the contract that it was found under. */
  ghost predicate Handled(s: Scan, s': Scan, fs: seq<Finding>) {
    && s'.log.soft == s.log.soft + OfClass(fs, Soft)
    && s'.log.hard == s.log.hard + OfClass(fs, Hard)
    && OfClass(fs, Critical) == []
    && var f := FirstHard(fs);
       if s.outcome.Some? || f.None? then
         s'.outcome == s.outcome && s'.quad == s.quad && s'.log.recoveries == s.log.recoveries
       else
         && s'.outcome == Some(Outcome(f.value.violation, f.value.contract.recovery))
         && s'.log.recoveries == s.log.recoveries + 1
         && Recover(s.quad, f.value.violation, f.value.contract.recovery) == (s'.quad, None)
  }

  ghost predicate Completed(s: Scan, s': Scan, fs: seq<Finding>) {
    Handled(s, s', fs) && s'.log.critical == s.log.critical
  }

  /** The finding at n was critical: it is logged and named in the error. */
  ghost predicate Halted(s: Scan, s': Scan, f: Finding, err: RuntimeError) {
    && f.violation.severity.Critical?
    && s'.log.critical == s.log.critical + [f.violation]
    && err == ContractHalt(f.contract.domain, f.violation.description, f.violation.atVersion)
  }

  /** The finding was the first hard one, and its recovery failed or halted: nothing is logged. */
  ghost predicate Refused(s: Scan, s': Scan, before: seq<Finding>, f: Finding, err: RuntimeError) {
    && f.violation.severity.Hard? && s.outcome.None? && FirstHard(before).None?
    && s'.log.critical == s.log.critical
    && Recover(s.quad, f.violation, f.contract.recovery) == (s.quad, Some(err))
  }

  /** The findings before the n-th were handled, and that one ended the scan. */
  ghost predicate StopsAt(s: Scan, s': Scan, fs: seq<Finding>, n: nat, err: RuntimeError) {
    && n < |fs| && Handled(s, s', fs[..n])
    && (Halted(s, s', fs[n], err) || Refused(s, s', fs[..n], fs[n], err))
  }

  lemma HandledJoin(s: Scan, m: Scan, t: Scan, a: seq<Finding>, b: seq<Finding>)
    requires Handled(s, m, a) && Handled(m, t, b)
    ensures Handled(s, t, a + b)
  {
    hide OfClass, FirstHard, Recover;
    OfClassConcat(a, b, Soft);
    OfClassConcat(a, b, Hard);
    OfClassConcat(a, b, Critical);
    FirstHardConcat(a, b);
  }

  lemma StopsLater(s: Scan, m: Scan, t: Scan, a: seq<Finding>, b: seq<Finding>, n: nat, err: RuntimeError)
    requires Completed(s, m, a) && StopsAt(m, t, b, n, err)
    ensures StopsAt(s, t, a + b, |a| + n, err)
  {
    assert (a + b)[..|a| + n] == a + b[..n];
    HandledJoin(s, m, t, a, b[..n]);
    FirstHardConcat(a, b[..n]);
    hide OfClass, FirstHard, Recover;
  }

  lemma FailedRecoveryKeepsQuad(q: Quad, v: Violation, policy: Policy)
    requires Recover(q, v, policy).1.Some?
    ensures Recover(q, v, policy).0 == q
  {
  }

  lemma HandlesOne(s: Scan, c: Contract, v: Violation)
    requires ScanOne(s, c, v).1.None?
    ensures Completed(s, ScanOne(s, c, v).0, [Finding(c, v)])
  {
    hide Recover;
    var fs := [Finding(c, v)];
    assert fs[1..] == [] && FirstHard([]) == None;
    forall severity ensures OfClass(fs, severity) == if v.severity == severity then [v] else [] {
      assert OfClass([], severity) == [];
    }
  }

  lemma StopsAtOne(s: Scan, c: Contract, v: Violation, rest: seq<Finding>)
    requires ScanOne(s, c, v).1.Some?
    ensures StopsAt(s, ScanOne(s, c, v).0, [Finding(c, v)] + rest, 0, ScanOne(s, c, v).1.value)
  {
    if v.severity.Hard? { FailedRecoveryKeepsQuad(s.quad, v, c.recovery); }
    hide Recover;
    assert ([Finding(c, v)] + rest)[..0] == [];
  }

  ghost predicate Stops(s: Scan, s': Scan, fs: seq<Finding>, err: RuntimeError) {
    exists n: nat :: StopsAt(s, s', fs, n, err)
  }

  ghost predicate Accounted(s: Scan, s': Scan, err: Option<RuntimeError>, fs: seq<Finding>) {
    if err.None? then Completed(s, s', fs) else Stops(s, s', fs, err.value)
  }

  lemma AccountedJoin(s: Scan, m: Scan, t: Scan, err: Option<RuntimeError>, a: seq<Finding>, b: seq<Finding>)
    requires Completed(s, m, a) && Accounted(m, t, err, b)
    ensures Accounted(s, t, err, a + b)
  {
    if err.None? {
      HandledJoin(s, m, t, a, b);
    } else {
      hide Completed, StopsAt;
      var n: nat :| StopsAt(m, t, b, n, err.value);
      StopsLater(s, m, t, a, b, n, err.value);
    }
    hide Handled;
  }

  lemma {:induction false} AllAccounted(s: Scan, c: Contract, vs: seq<Violation>)
    ensures Accounted(s, ScanAll(s, c, vs).0, ScanAll(s, c, vs).1, Found(c, vs))
    decreases |vs|
  {
    if vs == [] {
      assert OfClass([], Soft) == OfClass([], Hard) == OfClass([], Critical) == [] && FirstHard([]) == None;
    } else {
      var (mid, err) := ScanOne(s, c, vs[0]);
      hide Completed, StopsAt, ScanOne;
      if err.Some? {
        StopsAtOne(s, c, vs[0], Found(c, vs[1..]));
      } else {
        HandlesOne(s, c, vs[0]);
        AllAccounted(mid, c, vs[1..]);
        hide Accounted;
        var (t, err') := ScanAll(mid, c, vs[1..]);
        AccountedJoin(s, mid, t, err', [Finding(c, vs[0])], Found(c, vs[1..]));
      }
    }
  }

  lemma AtMostOneRecovery(s: Scan, s': Scan, err: Option<RuntimeError>, fs: seq<Finding>)
    requires Accounted(s, s', err, fs)
    ensures s'.log.recoveries <= s.log.recoveries + 1
  {
    hide OfClass, FirstHard, Recover;
  }

  /** Accounting over a whole post-update pass, whatever its result.  At most one recovery ran.  On Ok,
      every soft and every hard violation that was collected is logged exactly once and in order, there
      was no critical one, and the quad is untouched or recovered for the first hard one.  On an error
      the same holds of the violations before the one that caused it; a critical one is logged and
      named, a hard one whose recovery was refused is not logged and changes nothing. */
  lemma {:induction false} PostUpdateAccounting(s: Scan, cs: seq<Contract>, cp: Option<CheckpointId>)
    ensures
      var (s', err) := ScanContracts(s, cs, cp);
      s'.log.recoveries <= s.log.recoveries + 1 && Accounted(s, s', err, Findings(s, cs, cp))
    decreases |cs|
  {
    var (t, err) := ScanContracts(s, cs, cp);
    if cs == [] {
      assert OfClass([], Soft) == OfClass([], Hard) == OfClass([], Critical) == [] && FirstHard([]) == None;
    } else {
      hide ScanAll, CollectAll, Found;
      var vs := CollectAll(cs[0].invariants, s.quad, cp);
      var (mid, err') := ScanAll(s, cs[0], vs);
      AllAccounted(s, cs[0], vs);
      PostUpdateAccounting(mid, cs[1..], cp);
      hide Completed, Stops;
      if err'.Some? {
        assert Found(cs[0], vs) + [] == Found(cs[0], vs);
      } else {
        AccountedJoin(s, mid, t, err, Found(cs[0], vs), Findings(mid, cs[1..], cp));
      }
    }
    AtMostOneRecovery(s, t, err, Findings(s, cs, cp));
  }

  // ---- Which invariants matter ---------------------------------------------------------------------------

  ghost predicate AllHold(c: Contract, q: Quad) {
    forall i :: 0 <= i < |c.invariants| ==> c.invariants[i].holds(q)
  }

  lemma {:induction false} NothingCollected(invs: seq<Invariant>, q: Quad, cp: Option<CheckpointId>)
    requires forall i :: 0 <= i < |invs| ==> invs[i].holds(q)
    ensures CollectAll(invs, q, cp) == []
    decreases |invs|
  {
    if invs != [] {
      assert forall i :: 0 <= i < |invs| - 1 ==> invs[1..][i] == invs[i + 1];
      NothingCollected(invs[1..], q, cp);
    }
  }

  /** When every invariant of every contract holds, enforcement does nothing. */
  lemma {:induction false} QuietPass(s: Scan, cs: seq<Contract>, cp: Option<CheckpointId>)
    requires forall c :: c in cs ==> AllHold(c, s.quad)
    ensures ScanContracts(s, cs, cp) == (s, None)
    decreases |cs|
  {
    if cs != [] {
      assert cs[0] in cs && forall c :: c in cs[1..] ==> c in cs;
      NothingCollected(cs[0].invariants, s.quad, cp);
      QuietPass(s, cs[1..], cp);
    }
  }

  /** The first broken invariant of a contract that is more than soft. */
  ghost predicate FirstSevere(c: Contract, q: Quad, i: nat) {
    && i < |c.invariants| && !c.invariants[i].holds(q) && !c.invariants[i].severity.Soft?
    && forall j :: 0 <= j < i ==> c.invariants[j].holds(q) || c.invariants[j].severity.Soft?
  }

  ghost predicate NoneSevere(c: Contract, q: Quad) {
    forall j :: 0 <= j < |c.invariants| ==> c.invariants[j].holds(q) || c.invariants[j].severity.Soft?
  }

  /** Soft violations are only logged, so that scanning them leaves quad and outcome. */
  lemma {:induction false} SoftOnly(s: Scan, c: Contract, vs: seq<Violation>)
    requires forall v :: v in vs ==> v.severity.Soft?
    ensures ScanAll(s, c, vs) == (s.(log := s.log.(soft := s.log.soft + vs)), None)
    decreases |vs|
  {
    if vs != [] {
      assert vs[0] in vs && vs == [vs[0]] + vs[1..];
      SoftOnly(s.(log := s.log.(soft := s.log.soft + [vs[0]])), c, vs[1..]);
      assert s.log.soft + [vs[0]] + vs[1..] == s.log.soft + vs;
    } else {
      assert s.log.soft + vs == s.log.soft;
    }
  }

  lemma {:induction false} SoftCollected(invs: seq<Invariant>, q: Quad, cp: Option<CheckpointId>)
    requires forall j :: 0 <= j < |invs| ==> invs[j].holds(q) || invs[j].severity.Soft?
    ensures forall v :: v in CollectAll(invs, q, cp) ==> v.severity.Soft?
    decreases |invs|
  {
    if invs != [] {
      assert forall i :: 0 <= i < |invs| - 1 ==> invs[1..][i] == invs[i + 1];
      SoftCollected(invs[1..], q, cp);
    }
  }

  lemma {:induction false} ScanAllConcat(s: Scan, c: Contract, a: seq<Violation>, b: seq<Violation>)
    ensures
      var (m, err) := ScanAll(s, c, a);
      ScanAll(s, c, a + b) == if err.Some? then (m, err) else ScanAll(m, c, b)
    decreases |a|
  {
    if a == [] {
      assert a + b == b;
    } else {
      assert (a + b)[1..] == a[1..] + b;
      ScanAllConcat(ScanOne(s, c, a[0]).0, c, a[1..], b);
    }
  }

  lemma {:induction false} CollectAllConcat(a: seq<Invariant>, b: seq<Invariant>, q: Quad, cp: Option<CheckpointId>)
    ensures CollectAll(a + b, q, cp) == CollectAll(a, q, cp) + CollectAll(b, q, cp)
    decreases |a|
  {
    if a == [] {
      assert a + b == b;
    } else {
      assert (a + b)[1..] == a[1..] + b;
      CollectAllConcat(a[1..], b, q, cp);
    }
  }

  /** What the first severe violation of a contract does: a critical one halts, and a hard one is recovered
      from by the contract's policy, after which quad and outcome stand. */
  ghost predicate DealtWith(
    s: Scan, s': Scan, err: Option<RuntimeError>, c: Contract, v: Violation)
  {
    if v.severity.Critical? then
      && s'.quad == s.quad && s'.outcome == s.outcome
      && err == Some(ContractHalt(c.domain, v.description, v.atVersion))
    else
      var (q', refused) := Recover(s.quad, v, c.recovery);
      && s'.quad == q'
      && if refused.Some? then err == refused && s'.outcome == None
         else s'.outcome == Some(Outcome(v, c.recovery))
  }

  /** Once an outcome is set, nothing changes it or the quad. */
  lemma OutcomeStands(s: Scan, s': Scan, err: Option<RuntimeError>, fs: seq<Finding>)
    requires s.outcome.Some? && Accounted(s, s', err, fs)
    ensures s'.quad == s.quad && s'.outcome == s.outcome
  {
    hide OfClass, FirstHard, Recover;
  }

  lemma SevereScanned(s: Scan, c: Contract, v: Violation, vs: seq<Violation>)
    requires s.outcome.None? && !v.severity.Soft?
    ensures DealtWith(s, ScanAll(s, c, [v] + vs).0, ScanAll(s, c, [v] + vs).1, c, v)
  {
    var (m, err) := ScanOne(s, c, v);
    assert ([v] + vs)[1..] == vs;
    if err.None? {
      AllAccounted(m, c, vs);
      hide Accounted;
      OutcomeStands(m, ScanAll(m, c, vs).0, ScanAll(m, c, vs).1, Found(c, vs));
    }
    hide Recover;
  }

  lemma SevereInContract(s: Scan, c: Contract, i: nat, cp: Option<CheckpointId>)
    requires s.outcome.None? && FirstSevere(c, s.quad, i)
    ensures
      var inv := c.invariants[i];
      var (s', err) := ScanAll(s, c, CollectAll(c.invariants, s.quad, cp));
      DealtWith(s, s', err, c, Violation(inv.description, inv.severity, s.quad.version, cp))
  {
    var before, inv, after := c.invariants[..i], c.invariants[i], c.invariants[i + 1..];
    var v := Violation(inv.description, inv.severity, s.quad.version, cp);
    assert c.invariants == before + ([inv] + after) && ([inv] + after)[1..] == after;
    CollectAllConcat(before, [inv] + after, s.quad, cp);
    var soft, rest := CollectAll(before, s.quad, cp), CollectAll(after, s.quad, cp);
    assert CollectAll(c.invariants, s.quad, cp) == soft + ([v] + rest);
    SoftCollected(before, s.quad, cp);
    hide CollectAll, DealtWith, ScanAll, Recover;
    SoftOnly(s, c, soft);
    ScanAllConcat(s, c, soft, [v] + rest);
    var m := ScanAll(s, c, soft).0;
    SevereScanned(m, c, v, rest);
    SameDealing(s, m, ScanAll(m, c, [v] + rest).0, ScanAll(m, c, [v] + rest).1, c, v);
  }

  lemma SameDealing(s: Scan, m: Scan, s': Scan, err: Option<RuntimeError>, c: Contract, v: Violation)
    requires m.quad == s.quad && m.outcome == s.outcome && DealtWith(m, s', err, c, v)
    ensures DealtWith(s, s', err, c, v)
  {
    hide Recover;
  }

  /** Which violation decides a pass: the first broken invariant that is more than soft, of the first
      contract that has one.  If it is critical, the pass halts naming it, and if it is hard, its
      contract's policy runs on the quad. */
  lemma {:induction false} FirstSevereDecides(
    s: Scan, cs: seq<Contract>, cp: Option<CheckpointId>, k: nat, i: nat)
    requires s.outcome.None? && k < |cs| && FirstSevere(cs[k], s.quad, i)
    requires forall j :: 0 <= j < k ==> NoneSevere(cs[j], s.quad)
    ensures
      var inv := cs[k].invariants[i];
      var (s', err) := ScanContracts(s, cs, cp);
      DealtWith(s, s', err, cs[k], Violation(inv.description, inv.severity, s.quad.version, cp))
    decreases k
  {
    var inv := cs[k].invariants[i];
    var v := Violation(inv.description, inv.severity, s.quad.version, cp);
    var vs := CollectAll(cs[0].invariants, s.quad, cp);
    var (m, err) := ScanAll(s, cs[0], vs);
    if k == 0 {
      SevereInContract(s, cs[0], i, cp);
      if err.None? {
        PostUpdateAccounting(m, cs[1..], cp);
        hide ScanAll, CollectAll, Findings, Accounted;
        DealingStands(s, m, cs[1..], cp, cs[0], v);
      }
    } else {
      SoftCollected(cs[0].invariants, s.quad, cp);
      SoftOnly(s, cs[0], vs);
      hide DealtWith, CollectAll, FirstSevere;
      FirstSevereDecides(m, cs[1..], cp, k - 1, i);
      SameDealing(s, m, ScanContracts(m, cs[1..], cp).0, ScanContracts(m, cs[1..], cp).1, cs[k], v);
    }
  }

  lemma DealingStands(s: Scan, m: Scan, cs: seq<Contract>, cp: Option<CheckpointId>, c: Contract, v: Violation)
    requires DealtWith(s, m, None, c, v)
    ensures DealtWith(s, ScanContracts(m, cs, cp).0, ScanContracts(m, cs, cp).1, c, v)
  {
    PostUpdateAccounting(m, cs, cp);
    hide Accounted, ScanContracts, Findings, Recover;
    if m.outcome.Some? {
      OutcomeStands(m, ScanContracts(m, cs, cp).0, ScanContracts(m, cs, cp).1, Findings(m, cs, cp));
    }
  }

  // ---- One update, sequentially --------------------------------------------------------------------------

  /** What the runtime around the quad decides or draws: the write check, the checkpoint id, and the
      decay factors and visiting order of propagation. */
  datatype Env = Env(authorized: bool, cid: CheckpointId, decay: Decay, trace: seq<BeliefId>)

  datatype Runtime = Runtime(quad: Quad, log: Log, tokensUsed: nat)

  ghost function Revised(
    q: Quad, sem: Semantics, id: BeliefId, value: BeliefValue, prov: Provenance, confidence: real, env: Env)
    : (Quad, Result<RevisionRecord, RevisionError>)
  {
    Revise(TakeCheckpoint(q, env.cid), sem, id, value, prov, confidence)
  }

  /** Propagation from `id` can take the visiting order that the environment names. */
  ghost predicate VisitsInOrder(q: Quad, id: BeliefId, env: Env) {
    ValidProj(q.causal) && IsVisitOrder(q.causal, id, env.trace)
  }

  ghost function Propagated(q: Quad, env: Env): Quad {
    q.(nodes := VisitAll(q.nodes, q.causal, env.trace, env.decay))
  }

  function TokenLimit(contracts: seq<Contract>): Option<nat> {
    if contracts == [] then None else contracts[0].maxTokens
  }

  ghost function UpdateBelief(
    rt: Runtime, contracts: seq<Contract>, sem: Semantics,
    id: BeliefId, value: BeliefValue, prov: Provenance, confidence: real, env: Env)
    : (Runtime, Result<Option<Outcome>, RuntimeError>)
  {
    if !env.authorized then (rt, Err(SovereigntyViolation))
    else if FirstFailing(contracts, rt.quad).Some? then
      (rt, Err(PreconditionFailed(FirstFailing(contracts, rt.quad).value.domain)))
    else
      var limit := TokenLimit(contracts);
      var rt1 := rt.(tokensUsed := rt.tokensUsed + 1);
      if limit.Some? && rt.tokensUsed >= limit.value then
        (rt1, Err(GovernanceLimitExceeded(limit.value, rt.tokensUsed + 1)))
      else
        var (q2, r) := Revised(rt.quad, sem, id, value, prov, confidence, env);
        if r.Err? then (rt1.(quad := q2), Err(Core(r.error)))
        else
          var q3 := Propagated(q2, env);
          var (s, err) := ScanContracts(Scan(q3, rt.log, None), contracts, Some(env.cid));
          (rt1.(quad := s.quad, log := s.log), if err.Some? then Err(err.value) else Ok(s.outcome))
  }

  /** The state that the invariants are evaluated on. */
  ghost function Proposed(
    q: Quad, sem: Semantics, id: BeliefId, value: BeliefValue, prov: Provenance, confidence: real, env: Env)
    : Quad
  {
    Propagated(Revised(q, sem, id, value, prov, confidence, env).0, env)
  }

  lemma ProposedKeepsCheckpoints(
    q: Quad, sem: Semantics, id: BeliefId, value: BeliefValue, prov: Provenance, confidence: real, env: Env)
    ensures Proposed(q, sem, id, value, prov, confidence, env).checkpoints
      == TakeCheckpoint(q, env.cid).checkpoints
  {
    hide Audit, CheckContradiction, ContractionSet, RemoveNodes;
  }

  /** Rolling back to the checkpoint that the update took first restores the state before the
      update, or is refused because the diff cannot see a difference. */
  lemma OwnCheckpointRollback(
    q: Quad, sem: Semantics, id: BeliefId, value: BeliefValue, prov: Provenance, confidence: real, env: Env)
    requires UnusedCheckpointId(q, env.cid)
    ensures
      var q3 := Proposed(q, sem, id, value, prov, confidence, env);
      RollbackTo(q3, env.cid) ==
        if Agree(ByKey(q3.nodes), ByKey(q.nodes)) then (q3, Err(UnnecessaryContraction))
        else (q.(checkpoints := []), Ok(()))
  {
    hide Proposed;
    ProposedKeepsCheckpoints(q, sem, id, value, prov, confidence, env);
    var cps := TakeCheckpoint(q, env.cid).checkpoints;
    forall j | 0 <= j < |q.checkpoints| ensures cps[j].id != env.cid {
      assert q.checkpoints[j] in q.checkpoints;
    }
    FindIsFirst(cps, env.cid, |q.checkpoints|);
  }

  /** The collected violations all carry the checkpoint that the update took. */
  lemma {:induction false} CollectAllStamped(invs: seq<Invariant>, q: Quad, cp: Option<CheckpointId>)
    ensures forall v :: v in CollectAll(invs, q, cp) ==> v.lastValid == cp
    decreases |invs|
  {
    if invs != [] {
      CollectAllStamped(invs[1..], q, cp);
    }
  }

  lemma {:induction false} FoundIn(c: Contract, vs: seq<Violation>)
    ensures forall f :: f in Found(c, vs) ==> f.contract == c && f.violation in vs
    decreases |vs|
  {
    if vs != [] {
      FoundIn(c, vs[1..]);
    }
  }

  lemma {:induction false} FindingsStamped(s: Scan, cs: seq<Contract>, cp: Option<CheckpointId>)
    ensures forall f :: f in Findings(s, cs, cp) ==> f.contract in cs && f.violation.lastValid == cp
    decreases |cs|
  {
    hide CollectAll, ScanAll, Found;
    if cs != [] {
      var vs := CollectAll(cs[0].invariants, s.quad, cp);
      CollectAllStamped(cs[0].invariants, s.quad, cp);
      FoundIn(cs[0], vs);
      FindingsStamped(ScanAll(s, cs[0], vs).0, cs[1..], cp);
    }
  }

  lemma {:induction false} FirstHardIn(fs: seq<Finding>)
    ensures FirstHard(fs).Some? ==> FirstHard(fs).value in fs
    decreases |fs|
  {
    if fs != [] {
      FirstHardIn(fs[1..]);
    }
  }

  // ---- Where an update ends -----------------------------------------------------------------------------------

  /** The state that a successful recovery leaves: `q` is the state before the update and `q3` the
      proposed one.  The update's own checkpoint is the latest, so a rollback by version goes there
      unless its target lies in the past. */
  ghost predicate LandsOn(q: Quad, cid: CheckpointId, q3: Quad, policy: Policy, q': Quad) {
    match policy
    case RollbackToLastCheckpoint => q' == q.(checkpoints := [])
    case RollbackToCheckpoint(c) =>
      if c == cid then q' == q.(checkpoints := [])
      else exists i :: 0 <= i < |q.checkpoints| && q.checkpoints[i].id == c && q' == q.checkpoints[i].quad
    case RollbackToVersion(target) =>
      if q.version <= target then q' == q.(checkpoints := [])
      else exists i: nat :: LatestAt(q.checkpoints, target, i) && q' == q.checkpoints[i].quad
    case DegradeAndContinue(floor) => q' == q3.(nodes := RaiseFloor(q3.nodes, floor))
    case EmitCausalDiffAndHalt => false
  }

  lemma ProposedHistory(
    q: Quad, sem: Semantics, id: BeliefId, value: BeliefValue, prov: Provenance, confidence: real, env: Env)
    ensures
      var cps := Proposed(q, sem, id, value, prov, confidence, env).checkpoints;
      cps == q.checkpoints + [Capture(q, env.cid)] && cps[..|q.checkpoints|] == q.checkpoints
  {
    hide Proposed;
    ProposedKeepsCheckpoints(q, sem, id, value, prov, confidence, env);
  }

  /** A rollback to an older checkpoint lands on its snapshot. */
  lemma OlderRollback(q: Quad, q3: Quad, cid: CheckpointId, c: CheckpointId)
    requires q3.checkpoints == q.checkpoints + [Capture(q, cid)] && c != cid
    requires RollbackTo(q3, c).1.Ok?
    ensures
      var q' := RollbackTo(q3, c).0;
      exists i :: 0 <= i < |q.checkpoints| && q.checkpoints[i].id == c && q' == q.checkpoints[i].quad
  {
    FoundIsStored(q3.checkpoints, c);
    var i :| 0 <= i < |q3.checkpoints| && q3.checkpoints[i].id == c
      && q3.checkpoints[i].quad == Find(q3.checkpoints, c).value;
    assert q.checkpoints[i].id == c;
  }

  /** With a target in the past, the latest checkpoint is one that was there before the update. */
  lemma OlderVersionRollback(q: Quad, q3: Quad, cid: CheckpointId, target: nat)
    requires OrderedHistory(q) && UnusedCheckpointId(q, cid) && target < q.version
    requires q3.checkpoints == q.checkpoints + [Capture(q, cid)]
    ensures
      var cp := LatestAtOrBefore(q3.checkpoints, target);
      cp.Some? && RollbackTo(q3, cp.value.id).1.Ok? ==>
        exists i: nat :: LatestAt(q.checkpoints, target, i)
          && RollbackTo(q3, cp.value.id).0 == q.checkpoints[i].quad
  {
    hide Synced;
    var n := |q.checkpoints|;
    assert q3.checkpoints[..n] == q.checkpoints;
    LatestIsMostRecent(q.checkpoints, target);
    var cp := LatestAtOrBefore(q3.checkpoints, target);
    assert cp == LatestAtOrBefore(q.checkpoints, target);
    if cp.Some? {
      var i: nat :| LatestAt(q.checkpoints, target, i) && q.checkpoints[i] == cp.value;
      FindIsFirst(q3.checkpoints, cp.value.id, i);
    }
  }

  lemma OwnIsLatest(q: Quad, q3: Quad, cid: CheckpointId, target: nat)
    requires OrderedHistory(q) && q.version <= target
    requires q3.checkpoints == q.checkpoints + [Capture(q, cid)]
    ensures LatestAtOrBefore(q3.checkpoints, target) == Some(Capture(q, cid))
  {
    hide Synced;
    assert q3.checkpoints[..|q.checkpoints|] == q.checkpoints;
    LatestIsMostRecent(q.checkpoints, target);
  }

  /** Where a successful recovery of an update lands. */
  lemma RecoveryLands(
    q: Quad, sem: Semantics, id: BeliefId, value: BeliefValue, prov: Provenance, confidence: real, env: Env,
    v: Violation, policy: Policy)
    requires OrderedHistory(q) && UnusedCheckpointId(q, env.cid) && v.lastValid == Some(env.cid)
    ensures
      var q3 := Proposed(q, sem, id, value, prov, confidence, env);
      var (q', err) := Recover(q3, v, policy);
      err.None? ==> LandsOn(q, env.cid, q3, policy, q')
  {
    hide Proposed, OrderedHistory, RollbackTo, LatestAtOrBefore;
    var q3 := Proposed(q, sem, id, value, prov, confidence, env);
    OwnCheckpointRollback(q, sem, id, value, prov, confidence, env);
    ProposedHistory(q, sem, id, value, prov, confidence, env);
    match policy
    case RollbackToCheckpoint(c) =>
      if c != env.cid && RollbackTo(q3, c).1.Ok? { OlderRollback(q, q3, env.cid, c); }
    case RollbackToVersion(target) =>
      if target < q.version {
        OlderVersionRollback(q, q3, env.cid, target);
      } else {
        OwnIsLatest(q, q3, env.cid, target);
      }
    case _ =>
  }

  /** The quad after enforcement: the proposed one, or where the one recovery landed. */
  ghost predicate Enforced(q: Quad, cid: CheckpointId, q3: Quad, first: Option<Finding>, q': Quad) {
    if first.None? then q' == q3 else LandsOn(q, cid, q3, first.value.contract.recovery, q')
  }

  /** An error ended enforcement at the n-th finding. */
  ghost predicate BrokenOff(
    q: Quad, cid: CheckpointId, start: Scan, rt': Runtime, fs: seq<Finding>, e: RuntimeError,
    n: nat, outcome: Option<Outcome>)
  {
    && StopsAt(start, Scan(rt'.quad, rt'.log, outcome), fs, n, e)
    && Enforced(q, cid, start.quad, FirstHard(fs[..n]), rt'.quad)
  }

  /** What a failed revision leaves: the new checkpoint, and without the beliefs that it contracted when
      the revised belief turned out to be among them. */
  ghost predicate RevisionAbandoned(q1: Quad, id: BeliefId, e: RevisionError, q': Quad) {
    if e.BeliefNotFound? && id in q1.nodes
    then q' == Revision.Contract(q1, ContractionSet(q1, id)) && id !in q'.nodes
    else q' == q1
  }

  lemma FailedRevision(
    q: Quad, sem: Semantics, id: BeliefId, value: BeliefValue, prov: Provenance, confidence: real)
    ensures
      var (q', r) := Revise(q, sem, id, value, prov, confidence);
      r.Err? ==> RevisionAbandoned(q, id, r.error, q')
  {
    hide Audit, CheckContradiction, ContractionSet, Revision.Contract;
  }

  lemma EnforcementLands(
    q: Quad, sem: Semantics, id: BeliefId, value: BeliefValue, prov: Provenance, confidence: real, env: Env,
    log: Log, s': Scan, contracts: seq<Contract>, n: nat)
    requires OrderedHistory(q) && UnusedCheckpointId(q, env.cid)
    requires
      var q3 := Proposed(q, sem, id, value, prov, confidence, env);
      var fs := Findings(Scan(q3, log, None), contracts, Some(env.cid));
      n <= |fs| && Handled(Scan(q3, log, None), s', fs[..n])
    ensures
      var q3 := Proposed(q, sem, id, value, prov, confidence, env);
      var fs := Findings(Scan(q3, log, None), contracts, Some(env.cid));
      Enforced(q, env.cid, q3, FirstHard(fs[..n]), s'.quad)
  {
    hide Proposed, OrderedHistory, Findings, Recover, OfClass, LandsOn, FirstHard;
    var q3 := Proposed(q, sem, id, value, prov, confidence, env);
    var fs := Findings(Scan(q3, log, None), contracts, Some(env.cid));
    FindingsStamped(Scan(q3, log, None), contracts, Some(env.cid));
    FirstHardIn(fs[..n]);
    var first := FirstHard(fs[..n]);
    if first.Some? {
      assert first.value in fs;
      RecoveryLands(q, sem, id, value, prov, confidence, env, first.value.violation, first.value.contract.recovery);
    }
  }

  // ---- When an update is turned away ---------------------------------------------------------------------------

  ghost predicate Meets(c: Contract, q: Quad) {
    forall i :: 0 <= i < |c.preconditions| ==> c.preconditions[i](q)
  }

  /** The first contract with a precondition that fails. */
  ghost predicate FirstUnmet(cs: seq<Contract>, q: Quad, k: nat) {
    k < |cs| && !Meets(cs[k], q) && forall j :: 0 <= j < k ==> Meets(cs[j], q)
  }

  lemma {:induction false} FirstFailingIsFirst(cs: seq<Contract>, q: Quad)
    ensures FirstFailing(cs, q).None? <==> forall c :: c in cs ==> Meets(c, q)
    ensures FirstFailing(cs, q).Some? ==> exists k: nat :: FirstUnmet(cs, q, k) && FirstFailing(cs, q).value == cs[k]
    decreases |cs|
  {
    if cs != [] {
      assert cs == [cs[0]] + cs[1..];
      FirstFailingIsFirst(cs[1..], q);
      if HoldAll(cs[0].preconditions, q) {
        if FirstFailing(cs[1..], q).Some? {
          var k: nat :| FirstUnmet(cs[1..], q, k) && FirstFailing(cs[1..], q).value == cs[1..][k];
          assert forall j :: 0 < j <= k ==> cs[j] == cs[1..][j - 1];
          assert FirstUnmet(cs, q, k + 1) && cs[k + 1] == cs[1..][k];
        }
      } else {
        assert FirstUnmet(cs, q, 0) && cs[0] in cs;
      }
    }
  }

  ghost predicate OverLimit(cs: seq<Contract>, used: nat) {
    cs != [] && cs[0].maxTokens.Some? && cs[0].maxTokens.value <= used
  }

  /** Which updates are turned away before the revision, and with what error: unauthorized ones, ones that
      find a precondition unmet, and ones over the token limit of the first contract, in that order. */
  lemma TurnedAwayIff(
    rt: Runtime, contracts: seq<Contract>, sem: Semantics,
    id: BeliefId, value: BeliefValue, prov: Provenance, confidence: real, env: Env)
    ensures
      var r := UpdateBelief(rt, contracts, sem, id, value, prov, confidence, env).1;
      var revised := Revised(rt.quad, sem, id, value, prov, confidence, env).1;
      var met := forall c :: c in contracts ==> Meets(c, rt.quad);
      && (r == Err(SovereigntyViolation) <==> !env.authorized)
      && (r.Err? && r.error.PreconditionFailed? <==> env.authorized && !met)
      && (r.Err? && r.error.PreconditionFailed? ==>
            exists k: nat :: FirstUnmet(contracts, rt.quad, k) && r.error.domain == contracts[k].domain)
      && (r.Err? && r.error.GovernanceLimitExceeded? <==>
            env.authorized && met && OverLimit(contracts, rt.tokensUsed))
      && (r.Err? && r.error.GovernanceLimitExceeded? ==>
            r.error.limit == contracts[0].maxTokens.value && r.error.used == rt.tokensUsed + 1)
      && (r.Err? && r.error.Core? <==>
            env.authorized && met && !OverLimit(contracts, rt.tokensUsed) && revised.Err?)
      && (r.Err? && r.error.Core? ==> r == Err(Core(revised.error)))
  {
    FirstFailingIsFirst(contracts, rt.quad);
    hide FirstFailing, Meets, Revised, Propagated, ScanContracts, Findings;
    var q3 := Propagated(Revised(rt.quad, sem, id, value, prov, confidence, env).0, env);
    var start := Scan(q3, rt.log, None);
    var cp := Some(env.cid);
    PostUpdateAccounting(start, contracts, cp);
    var (s', err) := ScanContracts(start, contracts, cp);
    if err.Some? {
      hide StopsAt;
      var n: nat :| StopsAt(start, s', Findings(start, contracts, cp), n, err.value);
      EnforcementErrors(start, s', Findings(start, contracts, cp), n, err.value);
    }
  }

  /** Contract-governed update as a transaction, whatever its result.  Denied and over-limit updates
      leave the quad alone, and a failed revision leaves no more than its checkpoint and contraction.
      Otherwise the quad is the proposed state or, when a first hard violation was recovered from, the
      state where that recovery lands: for RollbackToLastCheckpoint exactly the nodes, graphs and
      version from before the update.  That also holds when a later critical violation makes the
      update fail. */
  lemma UpdateIsTransaction(
    rt: Runtime, contracts: seq<Contract>, sem: Semantics,
    id: BeliefId, value: BeliefValue, prov: Provenance, confidence: real, env: Env)
    requires OrderedHistory(rt.quad) && UnusedCheckpointId(rt.quad, env.cid)
    ensures
      var (rt', r) := UpdateBelief(rt, contracts, sem, id, value, prov, confidence, env);
      var start := Scan(Proposed(rt.quad, sem, id, value, prov, confidence, env), rt.log, None);
      var fs := Findings(start, contracts, Some(env.cid));
      match r
      case Ok(outcome) =>
        && rt'.tokensUsed == rt.tokensUsed + 1
        && Completed(start, Scan(rt'.quad, rt'.log, outcome), fs)
        && Enforced(rt.quad, env.cid, start.quad, FirstHard(fs), rt'.quad)
      case Err(SovereigntyViolation) => rt' == rt
      case Err(PreconditionFailed(_)) => rt' == rt
      case Err(GovernanceLimitExceeded(_, _)) => rt' == rt.(tokensUsed := rt.tokensUsed + 1)
      case Err(Core(e)) =>
        && rt' == rt.(quad := rt'.quad, tokensUsed := rt.tokensUsed + 1)
        && RevisionAbandoned(TakeCheckpoint(rt.quad, env.cid), id, e, rt'.quad)
      case Err(e) =>
        && rt'.tokensUsed == rt.tokensUsed + 1
        && exists n: nat, outcome :: BrokenOff(rt.quad, env.cid, start, rt', fs, e, n, outcome)
  {
    hide Proposed, CollectAll, ScanContracts, Findings, FirstFailing, Revised, Propagated, RollbackTo,
         OrderedHistory, Handled, Halted, Refused, Enforced, RevisionAbandoned, TokenLimit;
    var q3 := Proposed(rt.quad, sem, id, value, prov, confidence, env);
    ProposedIs(rt.quad, sem, id, value, prov, confidence, env);
    var start := Scan(q3, rt.log, None);
    var fs := Findings(start, contracts, Some(env.cid));
    PostUpdateAccounting(start, contracts, Some(env.cid));
    RevisedFails(rt.quad, sem, id, value, prov, confidence, env);
    var (s', err) := ScanContracts(start, contracts, Some(env.cid));
    if err.None? {
      assert fs[..|fs|] == fs;
      EnforcementLands(rt.quad, sem, id, value, prov, confidence, env, rt.log, s', contracts, |fs|);
    } else {
      var n: nat :| StopsAt(start, s', fs, n, err.value);
      EnforcementLands(rt.quad, sem, id, value, prov, confidence, env, rt.log, s', contracts, n);
      EnforcementErrors(start, s', fs, n, err.value);
      var rt' := Runtime(s'.quad, s'.log, rt.tokensUsed + 1);
      assert BrokenOff(rt.quad, env.cid, start, rt', fs, err.value, n, s'.outcome);
    }
  }

  lemma RevisedFails(
    q: Quad, sem: Semantics, id: BeliefId, value: BeliefValue, prov: Provenance, confidence: real, env: Env)
    ensures
      var (q', r) := Revised(q, sem, id, value, prov, confidence, env);
      r.Err? ==> RevisionAbandoned(TakeCheckpoint(q, env.cid), id, r.error, q')
  {
    hide Revise, RevisionAbandoned;
    FailedRevision(TakeCheckpoint(q, env.cid), sem, id, value, prov, confidence);
  }

  /** Enforcement fails in two ways only. */
  lemma EnforcementErrors(s: Scan, s': Scan, fs: seq<Finding>, n: nat, err: RuntimeError)
    requires StopsAt(s, s', fs, n, err)
    ensures err.RecoveryFailed? || err.ContractHalt?
  {
    hide Handled, RollbackTo;
  }

  lemma ProposedIs(
    q: Quad, sem: Semantics, id: BeliefId, value: BeliefValue, prov: Provenance, confidence: real, env: Env)
    ensures Proposed(q, sem, id, value, prov, confidence, env)
      == Propagated(Revised(q, sem, id, value, prov, confidence, env).0, env)
  {
  }

  /** When that recovery is refused: for the first hard violation under RollbackToLastCheckpoint, it
      succeeds exactly when the proposed state differs from the old one by key, value or confidence
      beyond tolerance.  A change of graphs, version or provenance alone makes the update fail and
      leaves the proposed state in place. */
  lemma RecoverySucceedsIff(
    q: Quad, sem: Semantics, id: BeliefId, value: BeliefValue, prov: Provenance, confidence: real,
    env: Env, v: Violation)
    requires UnusedCheckpointId(q, env.cid) && v.lastValid == Some(env.cid)
    ensures
      var q3 := Proposed(q, sem, id, value, prov, confidence, env);
      var (q', err) := Recover(q3, v, RollbackToLastCheckpoint);
      && (err.None? <==> !Agree(ByKey(q3.nodes), ByKey(q.nodes)))
      && (err.Some? ==> q' == q3)
  {
    hide Proposed, RollbackTo;
    OwnCheckpointRollback(q, sem, id, value, prov, confidence, env);
  }

  /** What the update stores as fast confidence: propagation starts at the updated belief itself, so
      the caller's confidence survives only if nothing is left that the belief was inferred from. */
  lemma StoredConfidence(
    q: Quad, sem: Semantics, id: BeliefId, value: BeliefValue, prov: Provenance, confidence: real, env: Env)
    requires Revised(q, sem, id, value, prov, confidence, env).1.Ok?
    requires VisitsInOrder(Revised(q, sem, id, value, prov, confidence, env).0, id, env)
    ensures
      var q2 := Revised(q, sem, id, value, prov, confidence, env).0;
      var q3 := Proposed(q, sem, id, value, prov, confidence, env);
      && id in q3.nodes && q3.nodes[id].value == value
      && if InferredFromPremises(q2.causal, id) == [] then q3.nodes[id].fast == Clamp01(confidence)
         else Stores(q3.nodes[id].fast, q2.nodes, q2.causal, id, env.decay)
  {
    hide Revise, Derived, Stores;
    var q2 := Revised(q, sem, id, value, prov, confidence, env).0;
    VisitOrderVisitsOnce(q2.causal, id, env.trace);
    hide IsVisitOrder, ValidProj;
    ReviseEffect(TakeCheckpoint(q, env.cid), sem, id, value, prov, confidence);
    var mid := Visit(q2.nodes, q2.causal, id, env.decay);
    VisitAllFrame(mid, q2.causal, env.trace[1..], env.decay);
    assert id !in env.trace[1..];
    DerivedStores(q2.nodes, q2.causal, id, env.decay, mid[id].fast);
  }

  // ---- The invariant survives updates ------------------------------------------------------------------------

  lemma ScanOneKeepsValid(s: Scan, c: Contract, v: Violation)
    requires ValidQuad(s.quad)
    ensures ValidQuad(ScanOne(s, c, v).0.quad)
  {
    hide ValidQuad, Recover;
    RecoverKeepsValid(s.quad, v, c.recovery);
  }

  lemma {:induction false} ScanAllKeepsValid(s: Scan, c: Contract, vs: seq<Violation>)
    requires ValidQuad(s.quad)
    ensures ValidQuad(ScanAll(s, c, vs).0.quad)
    decreases |vs|
  {
    hide ValidQuad, ScanOne;
    if vs != [] {
      ScanOneKeepsValid(s, c, vs[0]);
      ScanAllKeepsValid(ScanOne(s, c, vs[0]).0, c, vs[1..]);
    }
  }

  lemma {:induction false} ScanContractsKeepsValid(s: Scan, cs: seq<Contract>, cp: Option<CheckpointId>)
    requires ValidQuad(s.quad)
    ensures ValidQuad(ScanContracts(s, cs, cp).0.quad)
    decreases |cs|
  {
    hide ValidQuad, ScanAll, CollectAll;
    if cs != [] {
      var vs := CollectAll(cs[0].invariants, s.quad, cp);
      ScanAllKeepsValid(s, cs[0], vs);
      ScanContractsKeepsValid(ScanAll(s, cs[0], vs).0, cs[1..], cp);
    }
  }

  /** Whatever happens in it, an update leaves a valid quad. */
  lemma UpdateKeepsQuadValid(
    rt: Runtime, contracts: seq<Contract>, sem: Semantics,
    id: BeliefId, value: BeliefValue, prov: Provenance, confidence: real, env: Env)
    requires ValidQuad(rt.quad) && UnusedCheckpointId(rt.quad, env.cid)
    ensures ValidQuad(UpdateBelief(rt, contracts, sem, id, value, prov, confidence, env).0.quad)
  {
    hide ValidQuad, UnusedCheckpointId, ScanContracts, FirstFailing, Revise, TakeCheckpoint, VisitAll;
    var q1 := TakeCheckpoint(rt.quad, env.cid);
    CheckpointKeepsValid(rt.quad, env.cid);
    ReviseKeepsValid(q1, sem, id, value, prov, confidence);
    var q2 := Revise(q1, sem, id, value, prov, confidence).0;
    PropagateKeepsValid(q2, env.trace, env.decay);
    ScanContractsKeepsValid(Scan(Propagated(q2, env), rt.log, None), contracts, Some(env.cid));
  }
}
