/** The belief quad: an arena of beliefs kept in step with four graph projections, a version
    counter, and a list of checkpoints.

    `Quad` is the state as a value; the functions on it say what each operation does.  `BeliefQuad`
    is the object, whose methods are proved to do just that. */
module Quads {
  import opened Wrappers
  import opened Projections
  import opened Beliefs
  import opened Diffs

  type CheckpointId = nat

  datatype Checkpoint = Checkpoint(id: CheckpointId, version: nat, quad: Quad)

  datatype Quad = Quad(
    nodes: Arena,
    semantic: Proj<SemanticEdge>,
    temporal: Proj<TemporalEdge>,
    causal: Proj<CausalEdge>,
    entity: Proj<EntityEdge>,
    version: nat,
    checkpoints: seq<Checkpoint>)

  /** What the arena and the graph library choose for a new belief. */
  datatype Alloc = Alloc(id: BeliefId, semantic: Slot, temporal: Slot, causal: Slot, entity: Slot)

  datatype RollbackError = CheckpointNotFound | UnnecessaryContraction

  // ---- The operations as functions -----------------------------------------------------------------

  const EMPTY_QUAD: Quad := Quad(map[], EmptyProj(), EmptyProj(), EmptyProj(), EmptyProj(), 0, [])

  /** Ids and slots given to a new belief are not in use. */
  predicate Fresh(q: Quad, a: Alloc) {
    && a.id !in q.nodes
    && a.semantic !in q.semantic.slots && a.temporal !in q.temporal.slots
    && a.causal !in q.causal.slots && a.entity !in q.entity.slots
  }

  function InsertBelief(q: Quad, node: BeliefNode, a: Alloc): Quad {
    q.(nodes := q.nodes[a.id := node.(id := a.id)],
       semantic := AddNode(q.semantic, a.id, a.semantic),
       temporal := AddNode(q.temporal, a.id, a.temporal),
       causal := AddNode(q.causal, a.id, a.causal),
       entity := AddNode(q.entity, a.id, a.entity),
       version := q.version + 1)
  }

  function RemoveBelief(q: Quad, id: BeliefId): Quad {
    if id !in q.nodes then q
    else q.(nodes := q.nodes - {id},
            semantic := RemoveNode(q.semantic, id),
            temporal := RemoveNode(q.temporal, id),
            causal := RemoveNode(q.causal, id),
            entity := RemoveNode(q.entity, id),
            version := q.version + 1)
  }

  predicate IsSymmetric(edge: SemanticEdge) { edge.Contradicts? || edge.Synonymous? }

  /** Contradiction and synonymy are stored in both directions. */
  function AddSemantic(p: Proj<SemanticEdge>, from: BeliefId, to: BeliefId, edge: SemanticEdge)
    : Proj<SemanticEdge>
  {
    var one := AddEdge(p, from, to, edge);
    if IsSymmetric(edge) then AddEdge(one, to, from, edge) else one
  }

  /** Overwrites the fields that callers reach through a mutable reference. */
  function SetConfidence(q: Quad, id: BeliefId, fast: real, slow: Option<real>): Quad {
    if id !in q.nodes then q else q.(nodes := q.nodes[id := q.nodes[id].(fast := fast, slow := slow)])
  }

  /** A snapshot carries no checkpoint history of its own. */
  function Capture(q: Quad, cid: CheckpointId): Checkpoint {
    Checkpoint(cid, q.version, q.(checkpoints := []))
  }

  function TakeCheckpoint(q: Quad, cid: CheckpointId): Quad {
    q.(checkpoints := q.checkpoints + [Capture(q, cid)])
  }

  function Find(cps: seq<Checkpoint>, cid: CheckpointId): (r: Option<Quad>)
    ensures r.None? <==> forall c :: c in cps ==> c.id != cid
  {
    if cps == [] then None
    else
      assert cps == [cps[0]] + cps[1..];
      if cps[0].id == cid then Some(cps[0].quad) else Find(cps[1..], cid)
  }

  /** Rollback is refused when there is nothing to undo that the diff can see. */
  ghost function RollbackTo(q: Quad, cid: CheckpointId): (Quad, Result<(), RollbackError>) {
    match Find(q.checkpoints, cid)
    case None => (q, Err(CheckpointNotFound))
    case Some(snap) =>
      if Agree(ByKey(q.nodes), ByKey(snap.nodes)) then (q, Err(UnnecessaryContraction))
      else (snap, Ok(()))
  }

  function ClearCheckpoints(q: Quad): Quad { q.(checkpoints := []) }

  // ---- The invariant ---------------------------------------------------------------------------------

  function Flip<W>(a: Arc<W>): Arc<W> { Arc(a.to, a.from, a.weight) }

  /** Every contradiction or synonymy occurs as often backwards as forwards. */
  ghost predicate SymmetricArcs(arcs: seq<Arc<SemanticEdge>>) {
    forall a: Arc<SemanticEdge> :: IsSymmetric(a.weight) ==> multiset(arcs)[a] == multiset(arcs)[Flip(a)]
  }

  /** A projection in step with the arena. */
  ghost predicate InStep<W>(nodes: Arena, p: Proj<W>) {
    ValidProj(p) && p.indices.Keys == nodes.Keys
  }

  ghost predicate AllInStep(q: Quad) {
    && InStep(q.nodes, q.semantic) && InStep(q.nodes, q.temporal)
    && InStep(q.nodes, q.causal) && InStep(q.nodes, q.entity)
  }

  /** Beliefs, the four projections and the symmetric edges agree with each other. */
  ghost predicate Synced(q: Quad) {
    && (forall id :: id in q.nodes ==> q.nodes[id].id == id)
    && AllInStep(q)
    && SymmetricArcs(Arcs(q.semantic))
  }

  /** Stored checkpoints are un-nested, in step, uniquely named, and in order of version. */
  ghost predicate OrderedHistory(q: Quad) {
    var cps := q.checkpoints;
    && (forall i :: 0 <= i < |cps| ==>
          && cps[i].quad.checkpoints == [] && Synced(cps[i].quad)
          && cps[i].version == cps[i].quad.version <= q.version)
    && (forall i, j :: 0 <= i < j < |cps| ==> cps[i].version <= cps[j].version && cps[i].id != cps[j].id)
  }

  ghost predicate ValidQuad(q: Quad) {
    Synced(q) && OrderedHistory(q)
  }

  /** What the invariant means to a caller: an edge of any projection joins two live beliefs. */
  lemma EdgesJoinLiveBeliefs<W>(nodes: Arena, p: Proj<W>, k: nat)
    requires InStep(nodes, p) && k < |p.edges|
    ensures Arcs(p)[k].from in nodes && Arcs(p)[k].to in nodes
  {
    assert p.edges[k] in p.edges;
  }

  lemma EmptyIsValid()
    ensures ValidQuad(EMPTY_QUAD)
  {
    assert ValidProj(EMPTY_QUAD.semantic) && Arcs(EMPTY_QUAD.semantic) == [];
  }

  lemma AddNodeInStep<W>(nodes: Arena, p: Proj<W>, node: BeliefNode, id: BeliefId, slot: Slot)
    requires InStep(nodes, p) && id !in nodes && slot !in p.slots
    ensures InStep(nodes[id := node], AddNode(p, id, slot))
    ensures Arcs(AddNode(p, id, slot)) == Arcs(p)
  {
    AddNodeRefines(p, id, slot);
  }

  /** A history stays ordered while the version only grows. */
  lemma HistorySurvives(q: Quad, q': Quad)
    requires OrderedHistory(q) && q'.checkpoints == q.checkpoints && q.version <= q'.version
    ensures OrderedHistory(q')
  {
    hide Synced;
  }

  lemma InsertKeepsValid(q: Quad, node: BeliefNode, a: Alloc)
    requires ValidQuad(q) && Fresh(q, a)
    ensures ValidQuad(InsertBelief(q, node, a))
  {
    hide InStep, OrderedHistory, SymmetricArcs, AddNode;
    var n := node.(id := a.id);
    AddNodeInStep(q.nodes, q.semantic, n, a.id, a.semantic);
    AddNodeInStep(q.nodes, q.temporal, n, a.id, a.temporal);
    AddNodeInStep(q.nodes, q.causal, n, a.id, a.causal);
    AddNodeInStep(q.nodes, q.entity, n, a.id, a.entity);
    HistorySurvives(q, InsertBelief(q, node, a));
  }

  /** Insertion adds one unconnected belief that says what it was given, and changes no other. */
  lemma InsertEffect(q: Quad, node: BeliefNode, a: Alloc)
    requires AllInStep(q) && Fresh(q, a)
    ensures
      var q' := InsertBelief(q, node, a);
      && AllInStep(q') && q'.nodes.Keys == q.nodes.Keys + {a.id}
      && (forall id :: id in q.nodes ==> q'.nodes[id] == q.nodes[id])
      && q'.nodes[a.id] == BeliefNode(
           a.id, node.key, node.value, node.provenance, node.createdAtMs, node.ttlMs, node.fast, node.slow,
           node.reflectionThreshold, node.prospect)
      && Arcs(q'.semantic) == Arcs(q.semantic) && Arcs(q'.temporal) == Arcs(q.temporal)
      && Arcs(q'.causal) == Arcs(q.causal) && Arcs(q'.entity) == Arcs(q.entity)
      && q'.version == q.version + 1 && q'.checkpoints == q.checkpoints
  {
    hide ValidProj, AddNode;
    var n := node.(id := a.id);
    AddNodeInStep(q.nodes, q.semantic, n, a.id, a.semantic);
    AddNodeInStep(q.nodes, q.temporal, n, a.id, a.temporal);
    AddNodeInStep(q.nodes, q.causal, n, a.id, a.causal);
    AddNodeInStep(q.nodes, q.entity, n, a.id, a.entity);
  }

  /** Removal takes one belief out of the arena and every edge that touches it out of all four graphs. */
  lemma RemoveEffect(q: Quad, id: BeliefId)
    requires AllInStep(q)
    ensures
      var q' := RemoveBelief(q, id);
      && AllInStep(q') && q'.nodes.Keys == q.nodes.Keys - {id}
      && (forall x :: x in q'.nodes ==> q'.nodes[x] == q.nodes[x])
      && (id in q.nodes ==>
            && Arcs(q'.semantic) == WithoutBelief(Arcs(q.semantic), id)
            && Arcs(q'.temporal) == WithoutBelief(Arcs(q.temporal), id)
            && Arcs(q'.causal) == WithoutBelief(Arcs(q.causal), id)
            && Arcs(q'.entity) == WithoutBelief(Arcs(q.entity), id))
      && q'.version == q.version + (if id in q.nodes then 1 else 0) && q'.checkpoints == q.checkpoints
      && (id !in q.nodes ==> q' == q)
  {
    hide InStep, RemoveNode, WithoutBelief, ArcsOf;
    if id in q.nodes {
      RemoveLive(q, id);
    }
  }

  lemma RemoveLive(q: Quad, id: BeliefId)
    requires AllInStep(q) && id in q.nodes
    ensures
      var q' := RemoveBelief(q, id);
      && AllInStep(q')
      && Arcs(q'.semantic) == WithoutBelief(Arcs(q.semantic), id)
      && Arcs(q'.temporal) == WithoutBelief(Arcs(q.temporal), id)
      && Arcs(q'.causal) == WithoutBelief(Arcs(q.causal), id)
      && Arcs(q'.entity) == WithoutBelief(Arcs(q.entity), id)
  {
    hide InStep, RemoveNode, WithoutBelief;
    RemoveNodeInStep(q.nodes, q.semantic, id);
    RemoveNodeInStep(q.nodes, q.temporal, id);
    RemoveNodeInStep(q.nodes, q.causal, id);
    RemoveNodeInStep(q.nodes, q.entity, id);
  }

  /** Writing confidences changes those two fields of one belief and nothing else. */
  lemma SetConfidenceEffect(q: Quad, id: BeliefId, fast: real, slow: Option<real>)
    ensures
      var q' := SetConfidence(q, id, fast, slow);
      && q' == q.(nodes := q'.nodes) && q'.nodes.Keys == q.nodes.Keys
      && (forall x :: x in q.nodes && x != id ==> q'.nodes[x] == q.nodes[x])
      && (id in q.nodes ==> q'.nodes[id] == q.nodes[id].(fast := fast, slow := slow))
  {
  }

  lemma WithoutBeliefSymmetric(arcs: seq<Arc<SemanticEdge>>, id: BeliefId)
    requires SymmetricArcs(arcs)
    ensures SymmetricArcs(WithoutBelief(arcs, id))
  {
    forall a: Arc<SemanticEdge> | IsSymmetric(a.weight)
      ensures multiset(WithoutBelief(arcs, id))[a] == multiset(WithoutBelief(arcs, id))[Flip(a)]
    {
      WithoutBeliefCount(arcs, id, a);
      WithoutBeliefCount(arcs, id, Flip(a));
    }
  }

  lemma InStepIsValid<W>(nodes: Arena, p: Proj<W>)
    requires InStep(nodes, p)
    ensures ValidProj(p)
  {
  }

  lemma RemoveNodeInStep<W>(nodes: Arena, p: Proj<W>, id: BeliefId)
    requires InStep(nodes, p) && id in nodes
    ensures InStep(nodes - {id}, RemoveNode(p, id))
    ensures Arcs(RemoveNode(p, id)) == WithoutBelief(Arcs(p), id)
  {
    RemoveNodeRefines(p, id);
  }

  lemma RemoveKeepsValid(q: Quad, id: BeliefId)
    requires ValidQuad(q)
    ensures ValidQuad(RemoveBelief(q, id))
  {
    hide InStep, OrderedHistory, SymmetricArcs, RemoveNode;
    if id in q.nodes {
      RemoveNodeInStep(q.nodes, q.semantic, id);
      RemoveNodeInStep(q.nodes, q.temporal, id);
      RemoveNodeInStep(q.nodes, q.causal, id);
      RemoveNodeInStep(q.nodes, q.entity, id);
      InStepIsValid(q.nodes, q.semantic);
      WithoutBeliefSymmetric(Arcs(q.semantic), id);
      HistorySurvives(q, RemoveBelief(q, id));
    }
  }

  lemma AddPairSymmetric(arcs: seq<Arc<SemanticEdge>>, arc: Arc<SemanticEdge>)
    requires SymmetricArcs(arcs)
    ensures SymmetricArcs(arcs + [arc] + [Flip(arc)])
  {
    var more := arcs + [arc] + [Flip(arc)];
    assert multiset(more) == multiset(arcs) + multiset{arc, Flip(arc)};
  }

  lemma AddOneWaySymmetric(arcs: seq<Arc<SemanticEdge>>, arc: Arc<SemanticEdge>)
    requires SymmetricArcs(arcs) && !IsSymmetric(arc.weight)
    ensures SymmetricArcs(arcs + [arc])
  {
    assert multiset(arcs + [arc]) == multiset(arcs) + multiset{arc};
  }

  lemma AddSemanticKeepsSymmetry(p: Proj<SemanticEdge>, from: BeliefId, to: BeliefId, edge: SemanticEdge)
    requires ValidProj(p) && SymmetricArcs(Arcs(p))
    ensures ValidProj(AddSemantic(p, from, to, edge))
    ensures SymmetricArcs(Arcs(AddSemantic(p, from, to, edge)))
    ensures AddSemantic(p, from, to, edge).indices == p.indices
  {
    hide ValidProj, SymmetricArcs;
    var one, arc := AddEdge(p, from, to, edge), Arc(from, to, edge);
    AddEdgeRefines(p, from, to, edge);
    AddEdgeRefines(one, to, from, edge);
    if IsSymmetric(edge) {
      AddPairSymmetric(Arcs(p), arc);
    } else {
      AddOneWaySymmetric(Arcs(p), arc);
    }
  }

  /** The edge is added, and its reverse for the two symmetric kinds; nothing between dead beliefs. */
  lemma AddSemanticArcs(p: Proj<SemanticEdge>, from: BeliefId, to: BeliefId, edge: SemanticEdge)
    requires ValidProj(p)
    ensures ValidProj(AddSemantic(p, from, to, edge))
    ensures Arcs(AddSemantic(p, from, to, edge)) ==
      if from !in p.indices || to !in p.indices then Arcs(p)
      else match edge
        case Subsumes => Arcs(p) + [Arc(from, to, edge)]
        case Contradicts => Arcs(p) + [Arc(from, to, edge), Arc(to, from, edge)]
        case Synonymous => Arcs(p) + [Arc(from, to, edge), Arc(to, from, edge)]
  {
    hide ValidProj;
    AddEdgeRefines(p, from, to, edge);
    AddEdgeRefines(AddEdge(p, from, to, edge), to, from, edge);
    assert Arcs(p) + [Arc(from, to, edge)] + [Arc(to, from, edge)]
      == Arcs(p) + [Arc(from, to, edge), Arc(to, from, edge)];
  }

  lemma AddSemanticKeepsValid(q: Quad, from: BeliefId, to: BeliefId, edge: SemanticEdge)
    requires ValidQuad(q)
    ensures ValidQuad(q.(semantic := AddSemantic(q.semantic, from, to, edge)))
  {
    AddSemanticKeepsSymmetry(q.semantic, from, to, edge);
  }

  lemma AddEdgeInStep<W>(nodes: Arena, p: Proj<W>, from: BeliefId, to: BeliefId, edge: W)
    requires InStep(nodes, p)
    ensures InStep(nodes, AddEdge(p, from, to, edge))
  {
    AddEdgeRefines(p, from, to, edge);
  }

  /** Changing what a belief says, but not who it is, leaves the invariant alone. */
  lemma UpdateKeepsValid(q: Quad, q': Quad)
    requires ValidQuad(q)
    requires q'.nodes.Keys == q.nodes.Keys && q.version <= q'.version
    requires forall id :: id in q'.nodes ==> q'.nodes[id].id == id
    requires q' == q.(nodes := q'.nodes, version := q'.version)
    ensures ValidQuad(q')
  {
    hide ValidProj, OrderedHistory, SymmetricArcs;
    HistorySurvives(q, q');
  }

  ghost predicate UnusedCheckpointId(q: Quad, cid: CheckpointId) {
    forall c :: c in q.checkpoints ==> c.id != cid
  }

  lemma SyncedIgnoresHistory(q: Quad, q': Quad)
    requires Synced(q) && q' == q.(checkpoints := q'.checkpoints)
    ensures Synced(q')
  {
    hide InStep, SymmetricArcs;
  }

  lemma CheckpointKeepsValid(q: Quad, cid: CheckpointId)
    requires ValidQuad(q) && UnusedCheckpointId(q, cid)
    ensures ValidQuad(TakeCheckpoint(q, cid))
  {
    hide Synced;
    SyncedIgnoresHistory(q, q.(checkpoints := []));
    SyncedIgnoresHistory(q, TakeCheckpoint(q, cid));
    var cps := TakeCheckpoint(q, cid).checkpoints;
    forall i | 0 <= i < |q.checkpoints| ensures cps[i].id != cid {
      assert q.checkpoints[i] in q.checkpoints;
    }
  }

  lemma {:induction false} FindIsFirst(cps: seq<Checkpoint>, cid: CheckpointId, i: nat)
    requires i < |cps| && cps[i].id == cid
    requires forall j :: 0 <= j < i ==> cps[j].id != cid
    ensures Find(cps, cid) == Some(cps[i].quad)
    decreases i
  {
    if i > 0 {
      FindIsFirst(cps[1..], cid, i - 1);
    }
  }

  lemma {:induction false} FoundIsStored(cps: seq<Checkpoint>, cid: CheckpointId)
    requires Find(cps, cid).Some?
    ensures exists i :: 0 <= i < |cps| && cps[i].id == cid && cps[i].quad == Find(cps, cid).value
    decreases |cps|
  {
    if cps[0].id != cid {
      FoundIsStored(cps[1..], cid);
      var i :| 0 <= i < |cps[1..]| && cps[1..][i].id == cid && cps[1..][i].quad == Find(cps[1..], cid).value;
      assert cps[i + 1] == cps[1..][i];
    }
  }

  /** Rollback either changes nothing or lands on a stored snapshot, with no checkpoints left and
      the version no higher than before. */
  lemma RollbackKeepsValid(q: Quad, cid: CheckpointId)
    requires ValidQuad(q)
    ensures ValidQuad(RollbackTo(q, cid).0)
    ensures RollbackTo(q, cid).1.Err? ==> RollbackTo(q, cid).0 == q
    ensures RollbackTo(q, cid).1.Ok? ==>
      RollbackTo(q, cid).0.checkpoints == [] && RollbackTo(q, cid).0.version <= q.version
  {
    if Find(q.checkpoints, cid).Some? {
      FoundIsStored(q.checkpoints, cid);
    }
  }

  // ---- The object --------------------------------------------------------------------------------------

  class BeliefQuad {
    var nodes: Arena
    const semantic: Projection<SemanticEdge>
    const temporal: Projection<TemporalEdge>
    const causal: Projection<CausalEdge>
    const entity: Projection<EntityEdge>
    var version: nat
    var checkpoints: seq<Checkpoint>

    /** The objects that the quad owns. */
    ghost function Owned(): set<object> {
      {this, semantic, temporal, causal, entity}
    }

    ghost predicate Separate() {
      && semantic as object != temporal && semantic as object != causal && semantic as object != entity
      && temporal as object != causal && temporal as object != entity && causal as object != entity
      && semantic as object != this && temporal as object != this
      && causal as object != this && entity as object != this
    }

    function State(): Quad
      reads this, semantic, temporal, causal, entity
    {
      Quad(nodes, semantic.State(), temporal.State(), causal.State(), entity.State(), version, checkpoints)
    }

    constructor ()
      ensures Separate() && fresh(Owned()) && State() == EMPTY_QUAD
    {
      nodes, version, checkpoints := map[], 0, [];
      semantic := new Projection();
      temporal := new Projection();
      causal := new Projection();
      entity := new Projection();
    }

    method Insert(node: BeliefNode, a: Alloc) returns (id: BeliefId)
      requires Separate() && Fresh(State(), a)
      modifies Owned()
      ensures State() == InsertBelief(old(State()), node, a) && id == a.id
    {
      id := a.id;
      nodes := nodes[id := node.(id := id)];
      semantic.Add(id, a.semantic);
      temporal.Add(id, a.temporal);
      causal.Add(id, a.causal);
      entity.Add(id, a.entity);
      version := version + 1;
    }

    method Remove(id: BeliefId) returns (removed: Option<BeliefNode>)
      requires Separate()
      modifies Owned()
      ensures State() == RemoveBelief(old(State()), id)
      ensures removed == if id in old(nodes) then Some(old(nodes[id])) else None
    {
      if id !in nodes {
        return None;
      }
      removed := Some(nodes[id]);
      nodes := nodes - {id};
      semantic.Remove(id);
      temporal.Remove(id);
      causal.Remove(id);
      entity.Remove(id);
      version := version + 1;
    }

    /** A write through a mutable reference to the belief. */
    method Adjust(id: BeliefId, fast: real, slow: Option<real>)
      modifies this`nodes
      ensures State() == SetConfidence(old(State()), id, fast, slow)
    {
      if id in nodes {
        nodes := nodes[id := nodes[id].(fast := fast, slow := slow)];
      }
    }

    method AddSemanticEdge(from: BeliefId, to: BeliefId, edge: SemanticEdge)
      requires Separate()
      modifies semantic
      ensures State() ==
        old(State()).(semantic := AddSemantic(old(State()).semantic, from, to, edge))
    {
      semantic.Connect(from, to, edge);
      if edge.Contradicts? || edge.Synonymous? {
        semantic.Connect(to, from, edge);
      }
    }

    method AddTemporalEdge(from: BeliefId, to: BeliefId, edge: TemporalEdge)
      requires Separate()
      modifies temporal
      ensures State() == old(State()).(temporal := AddEdge(old(State()).temporal, from, to, edge))
    {
      temporal.Connect(from, to, edge);
    }

    method AddCausalEdge(from: BeliefId, to: BeliefId, edge: CausalEdge)
      requires Separate()
      modifies causal
      ensures State() == old(State()).(causal := AddEdge(old(State()).causal, from, to, edge))
    {
      causal.Connect(from, to, edge);
    }

    method AddEntityEdge(from: BeliefId, to: BeliefId, edge: EntityEdge)
      requires Separate()
      modifies entity
      ensures State() == old(State()).(entity := AddEdge(old(State()).entity, from, to, edge))
    {
      entity.Connect(from, to, edge);
    }

    /** The new checkpoint's id comes from a random generator, so it is an argument. */
    method SaveCheckpoint(cid: CheckpointId)
      modifies this
      ensures State() == TakeCheckpoint(old(State()), cid)
    {
      checkpoints := checkpoints + [Capture(State(), cid)];
    }

    method DiffWith(other: Quad) returns (d: Diff)
      ensures IsDiff(d, ByKey(nodes), version, ByKey(other.nodes), other.version)
      ensures d.HasContradictions() <==> !Agree(ByKey(nodes), ByKey(other.nodes))
    {
      d := ComputeDiff(nodes, version, other.nodes, other.version);
    }

    /** Replaces the whole contents by those of a snapshot. */
    method Overwrite(snap: Quad)
      requires Separate()
      modifies Owned()
      ensures State() == snap
    {
      nodes, version, checkpoints := snap.nodes, snap.version, snap.checkpoints;
      semantic.Restore(snap.semantic);
      temporal.Restore(snap.temporal);
      causal.Restore(snap.causal);
      entity.Restore(snap.entity);
    }

    method Rollback(cid: CheckpointId) returns (r: Result<Diff, RollbackError>)
      requires Separate()
      modifies Owned()
      ensures State() == RollbackTo(old(State()), cid).0
      ensures r.Ok? <==> RollbackTo(old(State()), cid).1.Ok?
      ensures r.Err? ==> RollbackTo(old(State()), cid).1 == Err(r.error)
      ensures r.Ok? ==>
        IsDiff(r.value, ByKey(old(nodes)), old(version), ByKey(nodes), version)
    {
      var found := Find(checkpoints, cid);
      if found.None? {
        return Err(CheckpointNotFound);
      }
      var snap := found.value;
      var diff := DiffWith(snap);
      if !diff.HasContradictions() {
        return Err(UnnecessaryContraction);
      }
      Overwrite(snap);
      return Ok(diff);
    }

    method Clear()
      modifies this
      ensures State() == ClearCheckpoints(old(State()))
    {
      checkpoints := [];
    }
  }
}
