/** The Noisy-OR combination of confidences, and the strength of evidence for a belief. */
module NoisyOr {
  import opened Wrappers
  import opened Reals
  import opened Projections
  import opened Beliefs
  import opened Diffs

  /** The product of the complements of the clamped confidences. */
  function Complement(cs: seq<real>): (r: real)
    ensures 0.0 <= r <= 1.0
  {
    if cs == [] then 1.0
    else
      TimesFacts(1.0 - Clamp01(cs[0]), Complement(cs[1..]), 0.0);
      Times(1.0 - Clamp01(cs[0]), Complement(cs[1..]))
  }

  function Combine(cs: seq<real>): (r: real)
    ensures 0.0 <= r <= 1.0
  {
    if cs == [] then 0.0 else 1.0 - Complement(cs)
  }

  lemma {:induction false} ComplementConcat(a: seq<real>, b: seq<real>)
    ensures Complement(a + b) == Times(Complement(a), Complement(b))
    decreases |a|
  {
    if a == [] {
      assert a + b == b;
      TimesFacts(Complement(b), 0.0, 0.0);
    } else {
      assert (a + b)[1..] == a[1..] + b;
      ComplementConcat(a[1..], b);
      TimesAssociate(1.0 - Clamp01(a[0]), Complement(a[1..]), Complement(b));
    }
  }

  lemma TimesAssociate(x: real, y: real, z: real)
    ensures Times(x, Times(y, z)) == Times(Times(x, y), z)
  {
    assert x * (y * z) == x * y * z;
  }

  /** Independent evidence: no evidence has no strength, one piece has its own, and two bodies of evidence
      fail together only if both fail. */
  lemma CombineLaws(a: seq<real>, b: seq<real>, c: real)
    ensures Combine([]) == 0.0 && Combine([c]) == Clamp01(c)
    ensures 1.0 - Combine(a + b) == (1.0 - Combine(a)) * (1.0 - Combine(b))
  {
    CombineFew(c);
    hide Combine, Complement, Clamp01;
    CombineIsComplement(a);
    CombineIsComplement(b);
    CombineIsComplement(a + b);
    ComplementConcat(a, b);
  }

  lemma CombineFew(c: real)
    ensures Combine([]) == 0.0 && Combine([c]) == Clamp01(c)
  {
    assert [c][1..] == [] && Complement([]) == 1.0;
    TimesFacts(1.0 - Clamp01(c), 1.0, 0.0);
    assert Times(1.0 - Clamp01(c), 1.0) == 1.0 - Clamp01(c);
  }

  lemma CombineIsComplement(cs: seq<real>)
    ensures 1.0 - Combine(cs) == Complement(cs)
  {
  }

  /** The confidences of the live premises, in order and with repeats. */
  lemma {:induction false} LiveConfidencesConcat(nodes: Arena, a: seq<BeliefId>, b: seq<BeliefId>, p: BeliefId)
    ensures LiveConfidences(nodes, a + b) == LiveConfidences(nodes, a) + LiveConfidences(nodes, b)
    ensures LiveConfidences(nodes, [p]) == if p in nodes then [nodes[p].fast] else []
    decreases |a|
  {
    assert [p][1..] == [] && LiveConfidences(nodes, []) == [];
    if a == [] {
      assert a + b == b;
    } else {
      assert (a + b)[1..] == a[1..] + b;
      LiveConfidencesConcat(nodes, a[1..], b, p);
    }
  }

  /** An arena with the given ids and confidences. */
  function ArenaOf(ids: set<BeliefId>, confidence: BeliefId -> real): (nodes: Arena)
    ensures nodes.Keys == ids && forall id :: id in ids ==> nodes[id].fast == confidence(id)
  {
    map id | id in ids :: BeliefNode(
      id, "", Asserted(""), UserStatement(0), 0, None, confidence(id), None, 0.0, false)
  }

  /** The confidences of those premises that are still live, in order. */
  function LiveConfidences(nodes: Arena, premises: seq<BeliefId>): seq<real> {
    if premises == [] then []
    else
      var rest := LiveConfidences(nodes, premises[1..]);
      if premises[0] in nodes then [nodes[premises[0]].fast] + rest else rest
  }

  function PathStrength(nodes: Arena, premises: seq<BeliefId>): (r: real)
    ensures 0.0 <= r <= 1.0
  {
    Combine(LiveConfidences(nodes, premises))
  }

  function Max(a: real, b: real): real { if a >= b then a else b }

  /** The strongest single path. */
  function BestEvidence(nodes: Arena, lists: seq<seq<BeliefId>>): (r: real)
    ensures 0.0 <= r <= 1.0
  {
    if lists == [] then 0.0 else Max(PathStrength(nodes, lists[0]), BestEvidence(nodes, lists[1..]))
  }

  /** The best evidence is the least upper bound of the path strengths and zero. */
  lemma {:induction false} BestEvidenceIsMax(nodes: Arena, lists: seq<seq<BeliefId>>)
    ensures forall ps :: ps in lists ==> PathStrength(nodes, ps) <= BestEvidence(nodes, lists)
    ensures BestEvidence(nodes, lists) == 0.0
      || exists ps :: ps in lists && PathStrength(nodes, ps) == BestEvidence(nodes, lists)
    decreases |lists|
  {
    if lists != [] {
      BestEvidenceIsMax(nodes, lists[1..]);
      assert lists == [lists[0]] + lists[1..];
      assert lists[0] in lists;
    }
  }

  // ---- Premise lists of a belief -------------------------------------------------------------------

  function PremiseLists(edges: seq<Edge<CausalEdge>>, target: Slot): seq<seq<BeliefId>> {
    if edges == [] then []
    else
      var rest := PremiseLists(edges[1..], target);
      if edges[0].dst == target && edges[0].weight.InferredFrom? then [edges[0].weight.premises] + rest
      else rest
  }

  /** One list for each InferredFrom edge that ends in `id`. */
  function InferredFromPremises(causal: Proj<CausalEdge>, id: BeliefId): seq<seq<BeliefId>> {
    if id !in causal.indices then [] else PremiseLists(causal.edges, causal.indices[id])
  }

  /** An InferredFrom edge into `target` with these premises. */
  ghost predicate Carries(e: Edge<CausalEdge>, target: Slot, ps: seq<BeliefId>) {
    e.dst == target && e.weight == InferredFrom(ps)
  }

  lemma {:induction false} PremiseListsIn(edges: seq<Edge<CausalEdge>>, target: Slot)
    ensures forall ps :: ps in PremiseLists(edges, target) <==>
      HasPremiseEdge(edges, target, ps)
    decreases |edges|
  {
    if edges != [] {
      PremiseListsIn(edges[1..], target);
      assert edges == [edges[0]] + edges[1..];
      forall ps ensures ps in PremiseLists(edges, target) <==> HasPremiseEdge(edges, target, ps) {
        if HasPremiseEdge(edges[1..], target, ps) {
          var e :| e in edges[1..] && Carries(e, target, ps);
          assert e in edges;
        }
        if Carries(edges[0], target, ps) {
          assert edges[0] in edges;
        }
      }
    }
  }

  ghost predicate HasPremiseEdge(edges: seq<Edge<CausalEdge>>, target: Slot, ps: seq<BeliefId>) {
    exists e :: e in edges && Carries(e, target, ps)
  }

  /** The positions of the InferredFrom edges into `target` with these premises. */
  ghost function PremiseEdges(edges: seq<Edge<CausalEdge>>, target: Slot, ps: seq<BeliefId>): set<nat> {
    set i: nat | i < |edges| && Carries(edges[i], target, ps)
  }

  lemma {:induction false} PremiseListsJoin(
    a: seq<Edge<CausalEdge>>, b: seq<Edge<CausalEdge>>, target: Slot)
    ensures PremiseLists(a + b, target) == PremiseLists(a, target) + PremiseLists(b, target)
    decreases |a|
  {
    if a == [] {
      assert a + b == b;
    } else {
      PremiseListsJoin(a[1..], b, target);
      assert (a + b)[1..] == a[1..] + b;
    }
  }

  lemma PremiseEdgesOneMore(
    edges: seq<Edge<CausalEdge>>, last: Edge<CausalEdge>, target: Slot, ps: seq<BeliefId>)
    ensures |PremiseEdges(edges + [last], target, ps)|
      == |PremiseEdges(edges, target, ps)| + if Carries(last, target, ps) then 1 else 0
  {
    var before, after := PremiseEdges(edges, target, ps), PremiseEdges(edges + [last], target, ps);
    if Carries(last, target, ps) {
      assert after == before + {|edges|};
    } else {
      assert after == before;
    }
  }

  lemma PremiseListsOneMore(
    edges: seq<Edge<CausalEdge>>, last: Edge<CausalEdge>, target: Slot, ps: seq<BeliefId>)
    ensures multiset(PremiseLists(edges + [last], target))[ps]
      == multiset(PremiseLists(edges, target))[ps] + if Carries(last, target, ps) then 1 else 0
  {
    PremiseListsJoin(edges, [last], target);
    assert [last][1..] == [] && PremiseLists([], target) == [];
    var one := PremiseLists([last], target);
    assert one == if last.dst == target && last.weight.InferredFrom? then [last.weight.premises] else [];
  }

  /** Parallel edges count: a premise list occurs once for each InferredFrom edge that carries it. */
  lemma {:induction false} PremiseListsCount(edges: seq<Edge<CausalEdge>>, target: Slot, ps: seq<BeliefId>)
    ensures multiset(PremiseLists(edges, target))[ps] == |PremiseEdges(edges, target, ps)|
    decreases |edges|
  {
    if edges == [] {
      assert PremiseEdges(edges, target, ps) == {};
    } else {
      hide PremiseLists, PremiseEdges;
      var n := |edges| - 1;
      assert edges == edges[..n] + [edges[n]];
      PremiseListsCount(edges[..n], target, ps);
      PremiseListsOneMore(edges[..n], edges[n], target, ps);
      PremiseEdgesOneMore(edges[..n], edges[n], target, ps);
    }
  }

  /** Path strength looks only at the premises. */
  lemma {:induction false} SamePremisesSameConfidences(a: Arena, b: Arena, premises: seq<BeliefId>)
    requires forall p :: p in premises ==> (p in a <==> p in b) && (p in a ==> a[p].fast == b[p].fast)
    ensures LiveConfidences(a, premises) == LiveConfidences(b, premises)
    decreases |premises|
  {
    if premises != [] {
      assert premises[0] in premises;
      assert forall p :: p in premises[1..] ==> p in premises;
      SamePremisesSameConfidences(a, b, premises[1..]);
    }
  }

  lemma {:induction false} SamePremisesSameEvidence(a: Arena, b: Arena, lists: seq<seq<BeliefId>>)
    requires forall ps, p :: ps in lists && p in ps ==>
      (p in a <==> p in b) && (p in a ==> a[p].fast == b[p].fast)
    ensures BestEvidence(a, lists) == BestEvidence(b, lists)
    decreases |lists|
  {
    if lists != [] {
      assert lists[0] in lists;
      SamePremisesSameConfidences(a, b, lists[0]);
      assert forall ps :: ps in lists[1..] ==> ps in lists;
      SamePremisesSameEvidence(a, b, lists[1..]);
    }
  }
}
