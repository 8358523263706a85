/** Reachable states in which the code falls short of its documentation: a self-supported belief,
    overlapping support, a chain propagated in an unfavourable order, a repeated premise. */
module Scenarios {
  import opened Wrappers
  import opened Reals
  import opened Projections
  import opened Beliefs
  import opened Diffs
  import opened NoisyOr
  import opened FreeEnergy
  import opened Embeddings
  import opened Quads
  import opened System1
  import opened Revision
  import opened Runs
  import opened Contracts

  // ---- Any beliefs and any causal edges can be built -------------------------------------------------

  /** What a belief is to say, and how far it is trusted. */
  datatype Seed = Seed(value: BeliefValue, confidence: real)

  function Old(confidence: real): Seed { Seed(Deterministic("old"), confidence) }

  function Says(text: string): Seed { Seed(Asserted(text), 0.5) }

  function Node(id: BeliefId, seed: Seed): BeliefNode {
    BeliefNode(id, "", seed.value, UserStatement(0), 0, None, seed.confidence, None, 0.0, false)
  }

  function Numbered(n: nat): (m: map<nat, nat>)
    ensures forall i: nat :: i in m <==> i < n
    ensures forall i: nat :: i in m ==> m[i] == i
  {
    if n == 0 then map[] else Numbered(n - 1)[n - 1 := n - 1]
  }

  function Nodes(seeds: seq<Seed>): Arena {
    map i: nat | i < |seeds| :: Node(i, seeds[i])
  }

  function Graph<W>(n: nat, edges: seq<Edge<W>>): Proj<W> {
    Proj(Numbered(n), Numbered(n), edges)
  }

  /** Beliefs 0, 1, ... grown from the seeds, in slots of the same numbers, with causal edges. */
  function World(seeds: seq<Seed>, edges: seq<Edge<CausalEdge>>): Quad {
    var n := |seeds|;
    Quad(Nodes(seeds), Graph(n, []), Graph(n, []), Graph(n, edges), Graph(n, []), n, [])
  }

  function InsertLast(seeds: seq<Seed>): Op
    requires seeds != []
  {
    var n := |seeds| - 1;
    Insert(Node(n, seeds[n]), Alloc(n, n, n, n, n))
  }

  lemma InsertGrowsWorld(seeds: seq<Seed>)
    requires seeds != []
    ensures
      var before := World(seeds[..|seeds| - 1], []);
      Enabled(before, InsertLast(seeds)) && Apply(before, InsertLast(seeds)) == World(seeds, [])
  {
    var n := |seeds| - 1;
    assert Nodes(seeds) == Nodes(seeds[..n])[n := Node(n, seeds[n])];
  }

  lemma {:induction false} BeliefsReachable(seeds: seq<Seed>)
    ensures Reachable(World(seeds, []))
    decreases |seeds|
  {
    if seeds == [] {
      assert IsRun(EMPTY_QUAD, []) && RunAll(EMPTY_QUAD, []) == EMPTY_QUAD;
      assert World([], []) == EMPTY_QUAD;
    } else {
      var n := |seeds| - 1;
      var before := seeds[..n];
      BeliefsReachable(before);
      hide Reachable, World, InsertLast, Enabled, Apply;
      InsertGrowsWorld(seeds);
      ReachableStep(World(before, []), InsertLast(seeds));
    }
  }

  /** Every such world is reached by insertions and causal links. */
  lemma {:induction false} WorldReachable(seeds: seq<Seed>, edges: seq<Edge<CausalEdge>>)
    requires forall e :: e in edges ==> e.src < |seeds| && e.dst < |seeds|
    ensures Reachable(World(seeds, edges))
    decreases |edges|
  {
    if edges == [] {
      BeliefsReachable(seeds);
    } else {
      var n := |edges| - 1;
      var e := edges[n];
      assert e in edges && edges == edges[..n] + [e];
      WorldReachable(seeds, edges[..n]);
      hide Reachable, Nodes, Graph;
      var op: Op := LinkCausal(e.src, e.dst, e.weight);
      ReachableStep(World(seeds, edges[..n]), op);
      assert Apply(World(seeds, edges[..n]), op) == World(seeds, edges);
    }
  }

  // ---- Revision --------------------------------------------------------------------------------------------

  /** A belief inferred from itself is lost when it is revised. */
  lemma SelfSupportedBeliefIsLost(sem: Semantics, prov: Provenance, confidence: real)
    ensures
      var q := World([Old(0.5)], [Edge(0, 0, InferredFrom([0]))]);
      var (q', r) := Revise(q, sem, 0, Deterministic("new"), prov, confidence);
      Reachable(q) && 0 in q.nodes && r == Err(BeliefNotFound) && q'.nodes == map[]
  {
    var edges := [Edge(0, 0, InferredFrom([0]))];
    var q := World([Old(0.5)], edges);
    WorldReachable([Old(0.5)], edges);
    hide Reachable;
    assert edges[1..] == [] && PremiseLists([], 0) == [];
    assert InferredFromPremises(q.causal, 0) == [[0]] && Weakest(q.nodes, [0]) == 0;
    assert [0] in [[0]];
    assert 0 in ContractionSet(q, 0);
    assert q.nodes - ContractionSet(q, 0) == map[];
    SelfSupportedRevisionLosesBelief(q, sem, 0, Deterministic("new"), prov, confidence);
  }

  // ---- Extensionality --------------------------------------------------------------------------------------

  /** Four texts in the plane: "f" is 16 degrees, "p" 23 and "c" 45 degrees away from "t". */
  function Embed(text: string): Option<Embedding> {
    if text == "t" then Some([1.0, 0.0])
    else if text == "f" then Some([24.0, 7.0])
    else if text == "p" then Some([12.0, 5.0])
    else if text == "c" then Some([119.0, 120.0])
    else None
  }

  function Norm(e: Embedding): real {
    if e == [24.0, 7.0] then 25.0 else if e == [12.0, 5.0] then 13.0 else if e == [119.0, 120.0] then 169.0 else 1.0
  }

  /** Cosine similarity under the default thresholds. */
  function Compare(a: Embedding, b: Embedding): Verdict {
    Classify(Thresholds(0.92, -0.3), a, b, Norm(a), Norm(b))
  }

  function Provider(): Semantics {
    Semantics((text: string) => text, Some(Embed), Compare)
  }

  lemma DotPlane(a: real, b: real, c: real, d: real)
    ensures Dot([a, b], [c, d]) == a * c + b * d
  {
    assert [a, b][..1] == [a] && [c, d][..1] == [c] && [a][..0] == [] && [c][..0] == [];
    assert Dot([a], [c]) == Times(a, c) + Dot([], []);
  }

  /** The norms are the true ones. */
  lemma NormsAreRoots()
    ensures forall text :: Embed(text).Some? ==>
      IsRoot(Norm(Embed(text).value), Dot(Embed(text).value, Embed(text).value))
  {
    DotPlane(1.0, 0.0, 1.0, 0.0);
    DotPlane(24.0, 7.0, 24.0, 7.0);
    DotPlane(12.0, 5.0, 12.0, 5.0);
    DotPlane(119.0, 120.0, 119.0, 120.0);
  }

  function Verdicts(a: string, b: string): Verdict
    requires Embed(a).Some? && Embed(b).Some?
  {
    Compare(Embed(a).value, Embed(b).value)
  }

  /** Neighbours are paraphrases, and the ends of the chain are not. */
  lemma SimilarityIsNotTransitive()
    ensures Verdicts("f", "p").Equivalent? && !Verdicts("f", "c").Equivalent?
    ensures Verdicts("t", "f").Equivalent? && Verdicts("t", "p").Equivalent?
    ensures Verdicts("p", "c").Equivalent? && Verdicts("t", "c").Undecided?
  {
    DotPlane(24.0, 7.0, 12.0, 5.0);
    DotPlane(24.0, 7.0, 119.0, 120.0);
    DotPlane(1.0, 0.0, 24.0, 7.0);
    DotPlane(1.0, 0.0, 12.0, 5.0);
    DotPlane(12.0, 5.0, 119.0, 120.0);
    DotPlane(1.0, 0.0, 119.0, 120.0);
  }

  lemma TextVerdicts(sem: Semantics)
    requires sem == Provider()
    ensures !ValueContradictsSemantic(sem, Asserted("t"), Asserted("f")).0
    ensures !ValueContradictsSemantic(sem, Asserted("t"), Asserted("p")).0
    ensures ValueContradictsSemantic(sem, Asserted("t"), Asserted("c")).0
    ensures Paraphrases(sem, Asserted("f"), Asserted("p")) && Paraphrases(sem, Asserted("p"), Asserted("c"))
    ensures !Paraphrases(sem, Asserted("f"), Asserted("c"))
  {
    SimilarityIsNotTransitive();
    hide Compare;
    assert sem.classify(Embed("t").value, Embed("f").value) == Verdicts("t", "f");
  }

  const TEXTS: seq<Seed> := [Says("t"), Says("p"), Says("c")]

  lemma TextWorld(q: Quad)
    requires q == World(TEXTS, [])
    ensures q.nodes.Keys == {0, 1, 2} && !HasContradictionEdges(q.semantic, 0)
    ensures q.nodes[0].value == Asserted("t") && q.nodes[1].value == Asserted("p")
    ensures q.nodes[2].value == Asserted("c")
  {
  }

  lemma TextRevisions(q: Quad, sem: Semantics, prov: Provenance, confidence: real)
    requires sem == Provider() && q.nodes.Keys == {0, 1, 2} && !HasContradictionEdges(q.semantic, 0)
    requires q.nodes[0].value == Asserted("t") && q.nodes[1].value == Asserted("p")
    requires q.nodes[2].value == Asserted("c")
    ensures Revise(q, sem, 0, Asserted("f"), prov, confidence).1.Ok?
    ensures !Extensional(q, sem, 0, Asserted("p"), CheckContradiction(q, sem, 0, Asserted("p")).0)
  {
    TextVerdicts(sem);
    hide Provider, ValueContradictsSemantic, HasContradictionEdges;
    assert Extensional(q, sem, 0, Asserted("f"), false) by {
      forall other | other in q.nodes ensures !Disagrees(q, sem, 0, Asserted("f"), false, other) {
        assert other == 0 || other == 1 || other == 2;
      }
    }
    assert Disagrees(q, sem, 0, Asserted("p"), false, 2);
    ReviseSucceedsIff(q, sem, 0, Asserted("f"), prov, confidence);
  }

  /** K*6 is not met, and a K*6 check blocks: belief 0 can be revised by "f", but not by its paraphrase "p",
      which belief 1 asserts, because "c" paraphrases "p" and would contradict. */
  lemma ParaphraseIsRefused(prov: Provenance, confidence: real)
    ensures
      var q := World(TEXTS, []);
      && (forall text :: Embed(text).Some? ==>
            IsRoot(Norm(Embed(text).value), Dot(Embed(text).value, Embed(text).value)))
      && Reachable(q) && 1 in q.nodes && Paraphrases(Provider(), Asserted("f"), q.nodes[1].value)
      && Revise(q, Provider(), 0, Asserted("f"), prov, confidence).1.Ok?
      && Revise(q, Provider(), 0, q.nodes[1].value, prov, confidence)
           == (q, Err(PostulateViolation("K*6 (extensionality)")))
  {
    var q := World(TEXTS, []);
    WorldReachable(TEXTS, []);
    NormsAreRoots();
    TextWorld(q);
    TextVerdicts(Provider());
    hide World, Reachable, Embed, Norm, Provider, Extensional, Revise, CheckContradiction, Paraphrases;
    TextRevisions(q, Provider(), prov, confidence);
    RefusedForExtensionality(q, Provider(), 0, Asserted("p"), prov, confidence);
  }

  // ---- Contraction ------------------------------------------------------------------------------------------

  const OVERLAP: seq<Edge<CausalEdge>> :=
    [Edge(1, 0, InferredFrom([1, 2])), Edge(3, 0, InferredFrom([2, 3]))]

  lemma OverlapPaths(q: Quad)
    requires q == World([Old(0.9), Old(0.1), Old(0.2), Old(0.3)], OVERLAP)
    ensures 0 in q.nodes && q.nodes[0].value == Deterministic("old")
    ensures InferredFromPremises(q.causal, 0) == [[1, 2], [2, 3]]
    ensures ContractionSet(q, 0) == {1, 2}
  {
    assert OVERLAP[1..] == [OVERLAP[1]] && [OVERLAP[1]][1..] == [] && PremiseLists([], 0) == [];
    assert PremiseLists([OVERLAP[1]], 0) == [[2, 3]];
    assert [[1, 2], [2, 3]][1..] == [[2, 3]] && [[2, 3]][1..] == [];
    assert Weakest(q.nodes, [1, 2]) == 1 && Weakest(q.nodes, [2, 3]) == 2;
    assert WeakestOfEach(q.nodes, [[2, 3]]) == {2};
  }

  lemma OneSharedPremiseHits()
    ensures Hits({2}, [[1, 2], [2, 3]])
  {
    forall ps: seq<BeliefId> | ps in [[1, 2], [2, 3]] ensures exists p :: p in ps && p in {2} {
      assert 2 in ps;
    }
  }

  lemma OverlapRevised(q: Quad, sem: Semantics, prov: Provenance, confidence: real)
    requires 0 in q.nodes && q.nodes[0].value == Deterministic("old") && ContractionSet(q, 0) == {1, 2}
    ensures
      var r := Revise(q, sem, 0, Deterministic("new"), prov, confidence).1;
      r.Ok? && r.value.contracted == {1, 2}
  {
    hide ContractionSet;
    ReviseSucceedsIff(q, sem, 0, Deterministic("new"), prov, confidence);
    hide Revise;
    ReviseEffect(q, sem, 0, Deterministic("new"), prov, confidence);
  }

  lemma TwoForOne(lists: seq<seq<BeliefId>>)
    requires Hits({2}, lists)
    ensures !MinimalHitting({1, 2}, lists)
  {
    hide Hits;
    assert {1, 2} - {1} == {2};
  }

  /** With support paths {1, 2} and {2, 3}, revision removes both 1 and 2, where 2 alone would do. */
  lemma OverlapContractsTooMuch(sem: Semantics, prov: Provenance, confidence: real)
    ensures
      var q := World([Old(0.9), Old(0.1), Old(0.2), Old(0.3)], OVERLAP);
      var r := Revise(q, sem, 0, Deterministic("new"), prov, confidence).1;
      && Reachable(q) && r.Ok? && r.value.contracted == {1, 2}
      && Hits({2}, InferredFromPremises(q.causal, 0))
      && !MinimalHitting(r.value.contracted, InferredFromPremises(q.causal, 0))
  {
    var q := World([Old(0.9), Old(0.1), Old(0.2), Old(0.3)], OVERLAP);
    WorldReachable([Old(0.9), Old(0.1), Old(0.2), Old(0.3)], OVERLAP);
    OverlapPaths(q);
    hide World, Reachable, Hits, MinimalHitting, ContractionSet, InferredFromPremises, Revise;
    OverlapRevised(q, sem, prov, confidence);
    OneSharedPremiseHits();
    TwoForOne(InferredFromPremises(q.causal, 0));
  }

  // ---- Propagation --------------------------------------------------------------------------------------------

  const CHAIN: seq<Edge<CausalEdge>> := [Edge(0, 1, InferredFrom([0])), Edge(1, 2, InferredFrom([1]))]

  lemma ChainFacts(q: Quad)
    requires q == World([Old(0.0), Old(1.0), Old(0.0)], CHAIN)
    ensures IsChain(q.causal) && q.nodes.Keys == {0, 1, 2} && OnlyCertain(q.nodes, 1)
  {
  }

  lemma ChainUnsettled(q: Quad)
    requires IsChain(q.causal) && q.nodes.Keys == {0, 1, 2} && OnlyCertain(q.nodes, 1)
    ensures Enabled(q, Propagate(0, [0, 2, 1], Half)) && !AllSettled(q.nodes, q.causal, [0, 2, 1], Half)
  {
    UnfavourableOrderAllowed(q.causal);
    ChainReadsEarly(q.causal);
    EarlyReadUnsettles(q.nodes, q.causal, [0, 2, 1], 1, 2);
  }

  /** On the chain 0, 1, 2 a propagation from 0 can visit 2 before 1 and leave 2 unsettled. */
  lemma ChainStaysUnsettled()
    ensures
      var q := World([Old(0.0), Old(1.0), Old(0.0)], CHAIN);
      && Reachable(q) && Enabled(q, Propagate(0, [0, 2, 1], Half))
      && !AllSettled(q.nodes, q.causal, [0, 2, 1], Half)
  {
    var q := World([Old(0.0), Old(1.0), Old(0.0)], CHAIN);
    WorldReachable([Old(0.0), Old(1.0), Old(0.0)], CHAIN);
    ChainFacts(q);
    hide World, Reachable, IsChain, OnlyCertain, Enabled, AllSettled;
    ChainUnsettled(q);
  }

  /** On the same chain the orders 0, 2, 1 and 0, 1, 2 leave different confidences. */
  lemma ChainDependsOnOrder()
    ensures
      var q := World([Old(0.0), Old(1.0), Old(0.0)], CHAIN);
      Reachable(q) && exists s, t ::
        && Enabled(q, Propagate(0, s, Half)) && Enabled(q, Propagate(0, t, Half))
        && Apply(q, Propagate(0, s, Half)) != Apply(q, Propagate(0, t, Half))
  {
    var q := World([Old(0.0), Old(1.0), Old(0.0)], CHAIN);
    WorldReachable([Old(0.0), Old(1.0), Old(0.0)], CHAIN);
    ChainFacts(q);
    hide World, Reachable;
    var s, t := ChainOrders(q);
  }

  lemma ChainOrders(q: Quad) returns (s: seq<BeliefId>, t: seq<BeliefId>)
    requires IsChain(q.causal) && q.nodes.Keys == {0, 1, 2} && OnlyCertain(q.nodes, 1)
    ensures Enabled(q, Propagate(0, s, Half)) && Enabled(q, Propagate(0, t, Half))
    ensures Apply(q, Propagate(0, s, Half)) != Apply(q, Propagate(0, t, Half))
  {
    ChainArcs(q.causal);
    ChainReadsEarly(q.causal);
    s, t := OrderMatters(q.nodes, q.causal, 0, 2, 1);
  }

  // ---- The caller's confidence -------------------------------------------------------------------------------

  /** A belief inferred from one premise takes that premise's confidence, not the caller's, unless the
      premise is the belief itself. */
  lemma OnePremiseStored(q: Quad, p: BeliefId, sem: Semantics, prov: Provenance, env: Env)
    requires 0 in q.nodes && q.nodes[0].value == Deterministic("old") && !HasContradictionEdges(q.semantic, 0)
    requires InferredFromPremises(q.causal, 0) == [[p]] && p in q.nodes && 0.0 <= q.nodes[p].fast <= 1.0
    requires VisitsInOrder(q, 0, env)
    ensures
      && Revised(q, sem, 0, Deterministic("old"), prov, 0.9, env).1.Ok?
      && var q3 := Proposed(q, sem, 0, Deterministic("old"), prov, 0.9, env);
         && 0 in q3.nodes
         && (env.decay(0) == 0.5 ==> q3.nodes[0].fast == (if p == 0 then 0.9 else q.nodes[p].fast) / 2.0)
  {
    var q1 := TakeCheckpoint(q, env.cid);
    var value := Deterministic("old");
    assert !CheckContradiction(q1, sem, 0, value).0;
    var q2 := Revised(q, sem, 0, value, prov, 0.9, env).0;
    assert q2.causal == q.causal && q2.nodes[p].fast == if p == 0 then 0.9 else q.nodes[p].fast;
    SinglePremise(q2.nodes, p);
    hide Revise, VisitsInOrder, Proposed;
    StoredConfidence(q, sem, 0, value, prov, 0.9, env);
    if env.decay(0) == 0.5 {
      DecayScales(Proposed(q, sem, 0, value, prov, 0.9, env).nodes[0].fast, q2.nodes, q2.causal, 0, env.decay);
    }
  }

  lemma SinglePremise(nodes: Arena, p: BeliefId)
    requires p in nodes && 0.0 <= nodes[p].fast <= 1.0
    ensures BestEvidence(nodes, [[p]]) == nodes[p].fast
  {
    assert [[p]][1..] == [] && [p][1..] == [] && LiveConfidences(nodes, []) == [];
    assert LiveConfidences(nodes, [p]) == [nodes[p].fast];
    assert [nodes[p].fast][1..] == [] && Complement([]) == 1.0;
    assert BestEvidence(nodes, []) == 0.0;
  }

  /** With decay one half, an update of belief 0 with confidence 0.9 stores 0.15, half of its premise's 0.3;
      when the belief is its own only premise, it stores 0.45, half of the caller's. */
  lemma CallersConfidenceIsReplaced(sem: Semantics, prov: Provenance, env: Env)
    ensures
      var q := World([Old(0.5), Old(0.3)], [Edge(1, 0, InferredFrom([1]))]);
      && Reachable(q)
      && (VisitsInOrder(q, 0, env) ==>
            var q3 := Proposed(q, sem, 0, Deterministic("old"), prov, 0.9, env);
            0 in q3.nodes && (env.decay(0) == 0.5 ==> q3.nodes[0].fast == 0.15))
    ensures
      var q := World([Old(0.5)], [Edge(0, 0, InferredFrom([0]))]);
      && Reachable(q)
      && (VisitsInOrder(q, 0, env) ==>
            var q3 := Proposed(q, sem, 0, Deterministic("old"), prov, 0.9, env);
            0 in q3.nodes && (env.decay(0) == 0.5 ==> q3.nodes[0].fast == 0.45))
  {
    OneEdge([Old(0.5), Old(0.3)], 1, sem, prov, env);
    OneEdge([Old(0.5)], 0, sem, prov, env);
  }

  lemma OneEdge(seeds: seq<Seed>, p: nat, sem: Semantics, prov: Provenance, env: Env)
    requires p < |seeds| && seeds[0].value == Deterministic("old") && 0.0 <= seeds[p].confidence <= 1.0
    ensures
      var q := World(seeds, [Edge(p, 0, InferredFrom([p]))]);
      && Reachable(q)
      && (VisitsInOrder(q, 0, env) ==>
            var q3 := Proposed(q, sem, 0, Deterministic("old"), prov, 0.9, env);
            && 0 in q3.nodes
            && (env.decay(0) == 0.5 ==> q3.nodes[0].fast == (if p == 0 then 0.9 else seeds[p].confidence) / 2.0))
  {
    var edges := [Edge(p, 0, InferredFrom([p]))];
    var q := World(seeds, edges);
    WorldReachable(seeds, edges);
    assert edges[1..] == [] && PremiseLists([], 0) == [];
    assert InferredFromPremises(q.causal, 0) == [[p]];
    hide Reachable, Proposed, Revised, VisitsInOrder, InferredFromPremises;
    if VisitsInOrder(q, 0, env) {
      OnePremiseStored(q, p, sem, prov, env);
    }
  }

  // ---- The structural prior -------------------------------------------------------------------------------------

  /** A belief inferred twice from the same premise in one list: System 1 finds more than the prior. */
  lemma RepeatedPremiseBeatsPrior()
    ensures
      var q := World([Old(0.5), Old(0.0)], [Edge(0, 1, InferredFrom([0, 0]))]);
      var lists := InferredFromPremises(q.causal, 1);
      Reachable(q) && StructuralPrior(q.nodes, lists) == 0.5 && BestEvidence(q.nodes, lists) >= 0.75
  {
    var edges := [Edge(0, 1, InferredFrom([0, 0]))];
    var q := World([Old(0.5), Old(0.0)], edges);
    WorldReachable([Old(0.5), Old(0.0)], edges);
    assert edges[1..] == [] && PremiseLists([], 1) == [];
    assert InferredFromPremises(q.causal, 1) == [[0, 0]];
    assert OnlyHalf(q.nodes, 0);
    RepeatBreaksDominance(q.nodes, [[0, 0]], [0, 0], 0, 1);
  }
}
