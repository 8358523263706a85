/** Runs of the quad: what every sequence of operations keeps, and what a rollback undoes. */
module Runs {
  import opened Wrappers
  import opened Projections
  import opened Beliefs
  import opened Diffs
  import opened Quads
  import opened System1
  import opened Revision

  datatype Op =
    | Insert(node: BeliefNode, alloc: Alloc)
    | Remove(id: BeliefId)
    | LinkSemantic(from: BeliefId, to: BeliefId, se: SemanticEdge)
    | LinkTemporal(from: BeliefId, to: BeliefId, te: TemporalEdge)
    | LinkCausal(from: BeliefId, to: BeliefId, ce: CausalEdge)
    | LinkEntity(from: BeliefId, to: BeliefId, ee: EntityEdge)
    | Adjust(id: BeliefId, fast: real, slow: Option<real>)
    | ReviseOp(id: BeliefId, value: BeliefValue, prov: Provenance, confidence: real, sem: Semantics)
    | Propagate(changed: BeliefId, trace: seq<BeliefId>, decay: Decay)
    | Checkpointing(cid: CheckpointId)
    | RollingBack(cid: CheckpointId)
    | Clearing

  /** Ids and slots are handed out fresh, and propagation visits in one of the possible orders. */
  ghost predicate Enabled(q: Quad, op: Op) {
    match op
    case Insert(_, alloc) => Fresh(q, alloc)
    case Propagate(changed, trace, _) => ValidProj(q.causal) && IsVisitOrder(q.causal, changed, trace)
    case Checkpointing(cid) => UnusedCheckpointId(q, cid)
    case _ => true
  }

  ghost function Apply(q: Quad, op: Op): Quad {
    match op
    case Insert(node, alloc) => InsertBelief(q, node, alloc)
    case Remove(id) => RemoveBelief(q, id)
    case LinkSemantic(from, to, e) => q.(semantic := AddSemantic(q.semantic, from, to, e))
    case LinkTemporal(from, to, e) => q.(temporal := AddEdge(q.temporal, from, to, e))
    case LinkCausal(from, to, e) => q.(causal := AddEdge(q.causal, from, to, e))
    case LinkEntity(from, to, e) => q.(entity := AddEdge(q.entity, from, to, e))
    case Adjust(id, fast, slow) => SetConfidence(q, id, fast, slow)
    case ReviseOp(id, value, prov, confidence, sem) => Revise(q, sem, id, value, prov, confidence).0
    case Propagate(_, trace, decay) => q.(nodes := VisitAll(q.nodes, q.causal, trace, decay))
    case Checkpointing(cid) => TakeCheckpoint(q, cid)
    case RollingBack(cid) => RollbackTo(q, cid).0
    case Clearing => ClearCheckpoints(q)
  }

  ghost predicate IsRun(q: Quad, ops: seq<Op>)
    decreases |ops|
  {
    ops == [] || (Enabled(q, ops[0]) && IsRun(Apply(q, ops[0]), ops[1..]))
  }

  ghost function RunAll(q: Quad, ops: seq<Op>): Quad
    decreases |ops|
  {
    if ops == [] then q else RunAll(Apply(q, ops[0]), ops[1..])
  }

  // ---- The four projections stay in step ---------------------------------------------------------------

  lemma PropagateKeepsValid(q: Quad, trace: seq<BeliefId>, decay: Decay)
    requires ValidQuad(q)
    ensures ValidQuad(q.(nodes := VisitAll(q.nodes, q.causal, trace, decay)))
  {
    VisitAllFrame(q.nodes, q.causal, trace, decay);
    UpdateKeepsValid(q, q.(nodes := VisitAll(q.nodes, q.causal, trace, decay)));
  }

  lemma AdjustKeepsValid(q: Quad, id: BeliefId, fast: real, slow: Option<real>)
    requires ValidQuad(q)
    ensures ValidQuad(SetConfidence(q, id, fast, slow))
  {
    UpdateKeepsValid(q, SetConfidence(q, id, fast, slow));
  }

  lemma LinkKeepsValid(q: Quad, op: Op)
    requires ValidQuad(q) && (op.LinkTemporal? || op.LinkCausal? || op.LinkEntity?)
    ensures ValidQuad(Apply(q, op))
  {
    hide InStep;
    match op
    case LinkTemporal(f, t, e) => AddEdgeInStep(q.nodes, q.temporal, f, t, e);
    case LinkCausal(f, t, e) => AddEdgeInStep(q.nodes, q.causal, f, t, e);
    case LinkEntity(f, t, e) => AddEdgeInStep(q.nodes, q.entity, f, t, e);
  }

  lemma ClearKeepsValid(q: Quad)
    requires ValidQuad(q)
    ensures ValidQuad(ClearCheckpoints(q))
  {
  }

  lemma StepKeepsValid(q: Quad, op: Op)
    requires ValidQuad(q) && Enabled(q, op)
    ensures ValidQuad(Apply(q, op))
  {
    hide ValidQuad, InsertBelief, RemoveBelief, AddSemantic, AddEdge, SetConfidence, Revise, VisitAll,
         TakeCheckpoint, RollbackTo, ClearCheckpoints, Fresh, UnusedCheckpointId, IsVisitOrder;
    match op
    case Insert(node, alloc) => InsertKeepsValid(q, node, alloc);
    case Remove(id) => RemoveKeepsValid(q, id);
    case LinkSemantic(from, to, e) => AddSemanticKeepsValid(q, from, to, e);
    case LinkTemporal(from, to, e) => LinkKeepsValid(q, op);
    case LinkCausal(from, to, e) => LinkKeepsValid(q, op);
    case LinkEntity(from, to, e) => LinkKeepsValid(q, op);
    case Adjust(id, fast, slow) => AdjustKeepsValid(q, id, fast, slow);
    case ReviseOp(id, value, prov, confidence, sem) => ReviseKeepsValid(q, sem, id, value, prov, confidence);
    case Propagate(_, trace, decay) => PropagateKeepsValid(q, trace, decay);
    case Checkpointing(cid) => CheckpointKeepsValid(q, cid);
    case RollingBack(cid) => RollbackKeepsValid(q, cid);
    case Clearing => ClearKeepsValid(q);
  }

  /** Whatever the operations and their order: arena and projections have the same beliefs, ids and
      slots are mutual inverses, every edge joins live beliefs, contradiction and synonymy are
      symmetric, and the checkpoints are ordered, uniquely named and un-nested. */
  lemma {:induction false} RunsKeepValid(q: Quad, ops: seq<Op>)
    requires ValidQuad(q) && IsRun(q, ops)
    ensures ValidQuad(RunAll(q, ops))
    decreases |ops|
  {
    hide ValidQuad, Apply, Enabled;
    if ops != [] {
      StepKeepsValid(q, ops[0]);
      RunsKeepValid(Apply(q, ops[0]), ops[1..]);
    }
  }

  /** Some run leads from the empty quad to this state. */
  ghost predicate Reachable(q: Quad) {
    exists ops :: IsRun(EMPTY_QUAD, ops) && RunAll(EMPTY_QUAD, ops) == q
  }

  /** In particular every reachable state is valid. */
  lemma ReachableStatesValid(q: Quad)
    requires Reachable(q)
    ensures ValidQuad(q)
  {
    hide ValidQuad;
    var ops :| IsRun(EMPTY_QUAD, ops) && RunAll(EMPTY_QUAD, ops) == q;
    EmptyIsValid();
    RunsKeepValid(EMPTY_QUAD, ops);
  }

  lemma {:induction false} RunOneMore(q: Quad, ops: seq<Op>, op: Op)
    requires IsRun(q, ops) && Enabled(RunAll(q, ops), op)
    ensures IsRun(q, ops + [op]) && RunAll(q, ops + [op]) == Apply(RunAll(q, ops), op)
    decreases |ops|
  {
    hide Enabled, Apply;
    if ops == [] {
      assert ops + [op] == [op] && [op][1..] == [];
    } else {
      RunOneMore(Apply(q, ops[0]), ops[1..], op);
      assert (ops + [op])[1..] == ops[1..] + [op];
    }
  }

  lemma ReachableStep(q: Quad, op: Op)
    requires Reachable(q) && Enabled(q, op)
    ensures Reachable(Apply(q, op))
  {
    hide Enabled, Apply, IsRun, RunAll;
    var ops :| IsRun(EMPTY_QUAD, ops) && RunAll(EMPTY_QUAD, ops) == q;
    RunOneMore(EMPTY_QUAD, ops, op);
  }

  // ---- The version counter -------------------------------------------------------------------------------

  /** Beliefs coming, going or being revised raise the version; edges, confidences and checkpoints
      leave it alone; only a successful rollback can lower it. */
  lemma VersionBehaviour(q: Quad, op: Op)
    requires OrderedHistory(q)
    ensures
      var v := Apply(q, op).version;
      match op
      case Insert(_, _) => v == q.version + 1
      case Remove(id) => v == if id in q.nodes then q.version + 1 else q.version
      case ReviseOp(id, value, prov, confidence, sem) =>
        v >= q.version && (Revise(q, sem, id, value, prov, confidence).1.Ok? ==> v > q.version)
      case RollingBack(cid) => v <= q.version
      case _ => v == q.version
  {
    hide Audit, CheckContradiction, ContractionSet, RemoveNodes, Synced, AddSemantic, VisitAll;
    if op.RollingBack? && Find(q.checkpoints, op.cid).Some? {
      FoundIsStored(q.checkpoints, op.cid);
    }
  }

  // ---- Confidences stay in [0, 1] ------------------------------------------------------------------------

  ghost predicate AllConfident(q: Quad) {
    Confident(q.nodes) && forall c :: c in q.checkpoints ==> Confident(c.quad.nodes)
  }

  /** Inserted and directly written confidences are the caller's; they are not clamped. */
  ghost predicate WritesConfident(op: Op) {
    match op
    case Insert(node, _) => 0.0 <= node.fast <= 1.0
    case Adjust(_, fast, _) => 0.0 <= fast <= 1.0
    case _ => true
  }

  lemma ContractFrame(q: Quad, ids: set<BeliefId>)
    ensures Contract(q, ids).nodes == q.nodes - ids && Contract(q, ids).checkpoints == q.checkpoints
  {
  }

  lemma ReviseKeepsConfident(
    q: Quad, sem: Semantics, id: BeliefId, value: BeliefValue, prov: Provenance, confidence: real)
    requires Confident(q.nodes)
    ensures Confident(Revise(q, sem, id, value, prov, confidence).0.nodes)
    ensures Revise(q, sem, id, value, prov, confidence).0.checkpoints == q.checkpoints
  {
    hide Audit, CheckContradiction, ContractionSet, Contract;
    ContractFrame(q, ContractionSet(q, id));
  }

  lemma StepKeepsConfident(q: Quad, op: Op)
    requires AllConfident(q) && OrderedHistory(q) && WritesConfident(op)
    ensures AllConfident(Apply(q, op))
  {
    hide Synced;
    match op
    case Propagate(_, trace, decay) => VisitAllKeepsConfident(q.nodes, q.causal, trace, decay);
    case ReviseOp(id, value, prov, confidence, sem) =>
      hide Revise, OrderedHistory;
      ReviseKeepsConfident(q, sem, id, value, prov, confidence);
    case RollingBack(cid) =>
      if Find(q.checkpoints, cid).Some? { FoundIsStored(q.checkpoints, cid); }
    case _ => hide AddNode, RemoveNode, AddSemantic, AddEdge, OrderedHistory;
  }

  lemma {:induction false} RunsKeepConfident(q: Quad, ops: seq<Op>)
    requires ValidQuad(q) && AllConfident(q) && IsRun(q, ops)
    requires forall op :: op in ops ==> WritesConfident(op)
    ensures AllConfident(RunAll(q, ops))
    decreases |ops|
  {
    hide ValidQuad, AllConfident, WritesConfident, Apply, Enabled, OrderedHistory;
    if ops != [] {
      assert ops[0] in ops && forall op :: op in ops[1..] ==> op in ops;
      StepKeepsValid(q, ops[0]);
      assert OrderedHistory(q) by { ValidIsOrdered(q); }
      StepKeepsConfident(q, ops[0]);
      RunsKeepConfident(Apply(q, ops[0]), ops[1..]);
    }
  }

  lemma ValidIsOrdered(q: Quad)
    requires ValidQuad(q)
    ensures OrderedHistory(q)
  {
  }

  // ---- Rollback over runs ----------------------------------------------------------------------------------

  /** Neither clears the checkpoints nor rolls back successfully. */
  ghost predicate KeepsHistory(q: Quad, op: Op) {
    !op.Clearing? && (op.RollingBack? ==> RollbackTo(q, op.cid).1.Err?)
  }

  ghost predicate HistoryKept(q: Quad, ops: seq<Op>)
    decreases |ops|
  {
    ops == [] || (KeepsHistory(q, ops[0]) && HistoryKept(Apply(q, ops[0]), ops[1..]))
  }

  ghost predicate StoredAt(q: Quad, k: nat, cp: Checkpoint) {
    k < |q.checkpoints| && q.checkpoints[k] == cp
      && forall j :: 0 <= j < k ==> q.checkpoints[j].id != cp.id
  }

  lemma StepKeepsStored(q: Quad, op: Op, k: nat, cp: Checkpoint)
    requires StoredAt(q, k, cp) && KeepsHistory(q, op)
    ensures StoredAt(Apply(q, op), k, cp)
  {
    hide Audit, CheckContradiction, ContractionSet, RemoveNodes, AddSemantic, VisitAll;
  }

  lemma {:induction false} RunKeepsStored(q: Quad, ops: seq<Op>, k: nat, cp: Checkpoint)
    requires StoredAt(q, k, cp) && HistoryKept(q, ops)
    ensures StoredAt(RunAll(q, ops), k, cp)
    decreases |ops|
  {
    hide StoredAt, Apply, KeepsHistory;
    if ops != [] {
      StepKeepsStored(q, ops[0], k, cp);
      RunKeepsStored(Apply(q, ops[0]), ops[1..], k, cp);
    }
  }

  /** Rollback exactness: take a checkpoint, do anything that keeps the history, and roll back.
      Either the beliefs by key still agree within tolerance and nothing happens, or nodes, graphs
      and version are exactly those of the checkpointed state, with no checkpoints left. */
  lemma RollbackExact(q: Quad, cid: CheckpointId, ops: seq<Op>)
    requires UnusedCheckpointId(q, cid) && HistoryKept(TakeCheckpoint(q, cid), ops)
    ensures
      var q' := RunAll(TakeCheckpoint(q, cid), ops);
      RollbackTo(q', cid) ==
        if Agree(ByKey(q'.nodes), ByKey(q.nodes)) then (q', Err(UnnecessaryContraction))
        else (q.(checkpoints := []), Ok(()))
  {
    var start := TakeCheckpoint(q, cid);
    var k := |q.checkpoints|;
    assert StoredAt(start, k, Capture(q, cid)) by {
      forall j | 0 <= j < k ensures start.checkpoints[j].id != cid {
        assert q.checkpoints[j] in q.checkpoints;
      }
    }
    RunKeepsStored(start, ops, k, Capture(q, cid));
    FindIsFirst(RunAll(start, ops).checkpoints, cid, k);
  }

  /** What the tolerance hides: a run can add edges, revise back and forth or bump the version, and
      rollback will still refuse as long as keys, values and confidences agree. */
  lemma RollbackIgnoresEdges(q: Quad, cid: CheckpointId, from: BeliefId, to: BeliefId, e: CausalEdge)
    requires UnusedCheckpointId(q, cid)
    ensures RollbackTo(RunAll(TakeCheckpoint(q, cid), [LinkCausal(from, to, e)]), cid).1
      == Err(UnnecessaryContraction)
  {
    var ops := [LinkCausal(from, to, e)];
    assert ops[1..] == [];
    assert HistoryKept(TakeCheckpoint(q, cid), ops) by {
      assert HistoryKept(Apply(TakeCheckpoint(q, cid), ops[0]), ops[1..]);
    }
    assert RunAll(TakeCheckpoint(q, cid), ops).nodes == q.nodes by {
      assert RunAll(Apply(TakeCheckpoint(q, cid), ops[0]), ops[1..]).nodes == q.nodes;
    }
    RollbackExact(q, cid, ops);
  }

  // ---- The operations are what the code does ----------------------------------------------------------------

  /** Carries out one operation on the object.  `done` is the operation with the visiting order that
      propagation took. */
  method Perform(q: BeliefQuad, op: Op) returns (ghost done: Op)
    requires q.Separate() && ValidQuad(q.State()) && (!op.Propagate? ==> Enabled(q.State(), op))
    modifies q.Owned()
    ensures Enabled(old(q.State()), done) && q.State() == Apply(old(q.State()), done)
    ensures if op.Propagate? then done.Propagate? && done == op.(trace := done.trace) else done == op
    ensures ValidQuad(q.State())
  {
    hide ValidQuad, Synced, OrderedHistory, InsertBelief, RemoveBelief, AddSemantic, AddEdge, SetConfidence, Revise,
         VisitAll, TakeCheckpoint, RollbackTo, ClearCheckpoints, Fresh, UnusedCheckpointId, IsVisitOrder, AllInStep,
         IsDiff;
    ghost var before := q.State();
    done := op;
    match op {
      case Insert(node, alloc) => var id := q.Insert(node, alloc);
      case Remove(id) => var removed := q.Remove(id);
      case LinkSemantic(from, to, e) => q.AddSemanticEdge(from, to, e);
      case LinkTemporal(from, to, e) => q.AddTemporalEdge(from, to, e);
      case LinkCausal(from, to, e) => q.AddCausalEdge(from, to, e);
      case LinkEntity(from, to, e) => q.AddEntityEdge(from, to, e);
      case Adjust(id, fast, slow) => q.Adjust(id, fast, slow);
      case ReviseOp(id, value, prov, confidence, sem) =>
        ValidParts(before);
        var r := ReviseQuad(q, sem, id, value, prov, confidence);
      case Propagate(changed, _, decay) =>
        ValidParts(before);
        ghost var trace := PropagateSystem1(q, changed, decay);
        done := Propagate(changed, trace, decay);
      case Checkpointing(cid) => q.SaveCheckpoint(cid);
      case RollingBack(cid) => var r := q.Rollback(cid);
      case Clearing => q.Clear();
    }
    StepKeepsValid(before, done);
  }

  lemma ValidParts(q: Quad)
    requires ValidQuad(q)
    ensures AllInStep(q) && ValidProj(q.causal)
  {
  }
}
