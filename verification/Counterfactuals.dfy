/** Counterfactual worlds and verified forgetting: two consequences of exact reachability. */
module Counterfactuals {
  import opened Projections
  import opened Reachability
  import opened Beliefs
  import opened Diffs
  import opened Quads
  import opened System1

  // ---- Counterfactual worlds -------------------------------------------------------------------------

  method CounterfactualQuery(q: BeliefQuad, antecedent: BeliefId) returns (excluded: set<BeliefId>)
    requires ValidProj(q.causal.State())
    ensures excluded == Affected(q.causal.State(), antecedent) + {antecedent}
  {
    excluded := DescendantsOf(q.causal, antecedent);
    excluded := excluded + {antecedent};
  }

  function SurvivingBeliefs(nodes: Arena, excluded: set<BeliefId>): Arena {
    map id | id in nodes && id !in excluded :: nodes[id]
  }

  /** The difference of the two sizes; negative where the unsigned subtraction would fail. */
  function SurvivingCount(nodes: Arena, excluded: set<BeliefId>): int {
    |nodes| - |excluded|
  }

  lemma AffectedIsLive(q: Quad, id: BeliefId)
    requires Synced(q)
    ensures Affected(q.causal, id) <= q.nodes.Keys
  {
    forall b | b in Affected(q.causal, id) ensures b in q.nodes {
      ReachableIsEndpoint(Arcs(q.causal), id, b);
      var k :| 0 <= k < |Arcs(q.causal)| && (Arcs(q.causal)[k].from == b || Arcs(q.causal)[k].to == b);
      EdgesJoinLiveBeliefs(q.nodes, q.causal, k);
    }
  }

  /** The count is right exactly when the antecedent is a live belief; for a dead one it is one too
      low. */
  lemma CountRightIffLive(q: Quad, antecedent: BeliefId)
    requires Synced(q)
    ensures
      var excluded := Affected(q.causal, antecedent) + {antecedent};
      var count := SurvivingCount(q.nodes, excluded);
      var survivors := |SurvivingBeliefs(q.nodes, excluded)|;
      && (count == survivors <==> antecedent in q.nodes)
      && (antecedent !in q.nodes ==> count == survivors - 1)
  {
    AffectedIsLive(q, antecedent);
    assert antecedent !in q.nodes ==> Affected(q.causal, antecedent) == {};
    CountOf(q.nodes, Affected(q.causal, antecedent), antecedent);
  }

  lemma CountOf(nodes: Arena, affected: set<BeliefId>, antecedent: BeliefId)
    requires affected <= nodes.Keys && (antecedent !in nodes ==> affected == {})
    ensures
      var excluded := affected + {antecedent};
      SurvivingCount(nodes, excluded)
        == |SurvivingBeliefs(nodes, excluded)| - if antecedent in nodes then 0 else 1
  {
    var excluded := affected + {antecedent};
    var kept := SurvivingBeliefs(nodes, excluded);
    assert kept.Keys == nodes.Keys - excluded;
    assert |nodes.Keys| == |nodes|;
    if antecedent in nodes {
      assert |nodes.Keys - excluded| == |nodes.Keys| - |excluded|;
    } else {
      assert excluded == {antecedent};
      assert kept.Keys == nodes.Keys;
    }
  }

  /** No causal edge leads from an excluded belief into a survivor, and every excluded belief other
      than the antecedent really is downstream of it. */
  lemma SurvivorsAreIndependent(q: Quad, antecedent: BeliefId, a: BeliefId, b: BeliefId)
    requires Synced(q) && antecedent in q.nodes
    ensures
      var excluded := Affected(q.causal, antecedent) + {antecedent};
      && (a in excluded && HasArc(Arcs(q.causal), a, b) ==> b in excluded)
      && (a in excluded <==> Reaches(Arcs(q.causal), antecedent, a))
  {
    ReachesSelf(Arcs(q.causal), antecedent);
    DownstreamClosed(Arcs(q.causal), antecedent);
  }

  // ---- Forgetting --------------------------------------------------------------------------------------

  datatype ForgetResult =
    | Verified
    | PersistenceNotVerified(backends: seq<string>)
    | PartialDeletion(remaining: set<BeliefId>)
    | VerificationError

  ghost function Verdict(q: Quad, id: BeliefId): ForgetResult
    requires ValidProj(q.causal)
  {
    if id !in q.nodes then VerificationError
    else if Affected(q.causal, id) == {} then Verified
    else PartialDeletion(Affected(q.causal, id))
  }

  /** A causal path leads from one belief to another. */
  ghost predicate HasDescendant(causal: Proj<CausalEdge>, id: BeliefId, b: BeliefId)
    requires ValidProj(causal)
  {
    id in causal.indices && Reaches(Arcs(causal), id, b)
  }

  lemma AffectedIff(causal: Proj<CausalEdge>, id: BeliefId, b: BeliefId)
    requires ValidProj(causal)
    ensures b in Affected(causal, id) <==> b != id && HasDescendant(causal, id, b)
  {
  }

  /** The default verdict, told from paths: an error for a dead belief, Verified when no causal path leads
      anywhere else, and otherwise the list of exactly the beliefs that one leads to. */
  lemma VerdictIff(q: Quad, id: BeliefId)
    requires ValidProj(q.causal)
    ensures
      var r := Verdict(q, id);
      && (r == VerificationError <==> id !in q.nodes)
      && (r == Verified <==> id in q.nodes && forall b :: HasDescendant(q.causal, id, b) ==> b == id)
      && (r.PartialDeletion? ==>
            id in q.nodes && forall b :: b in r.remaining <==> b != id && HasDescendant(q.causal, id, b))
      && !r.PersistenceNotVerified?
  {
    hide ValidProj, Affected, HasDescendant;
    forall b ensures b in Affected(q.causal, id) <==> b != id && HasDescendant(q.causal, id, b) {
      AffectedIff(q.causal, id, b);
    }
    if Affected(q.causal, id) != {} {
      var b :| b in Affected(q.causal, id);
      assert b != id && HasDescendant(q.causal, id, b);
    }
  }

  method DefaultCausalVerify(q: BeliefQuad, id: BeliefId) returns (r: ForgetResult)
    requires ValidProj(q.causal.State())
    ensures r == Verdict(q.State(), id)
  {
    if id !in q.nodes {
      return VerificationError;
    }
    var descendants := DescendantsOf(q.causal, id);
    if descendants == {} {
      return Verified;
    }
    return PartialDeletion(descendants);
  }

  /** The verifier of a forget policy: the default one, or any check supplied by the caller. */
  datatype Verifier = CausalReachability | Custom(check: (BeliefId, Quad) -> ForgetResult)

  ghost function VerdictOf(verifier: Verifier, q: Quad, id: BeliefId): ForgetResult
    requires ValidProj(q.causal)
  {
    match verifier
    case CausalReachability => Verdict(q, id)
    case Custom(check) => check(id, q)
  }

  /** The verdict is about the graph before removal; the removal happens whatever it says. */
  method Forget(q: BeliefQuad, id: BeliefId, verifier: Verifier) returns (r: ForgetResult)
    requires q.Separate() && ValidProj(q.causal.State())
    modifies q.Owned()
    ensures q.State() == RemoveBelief(old(q.State()), id)
    ensures r == VerdictOf(verifier, old(q.State()), id)
  {
    match verifier {
      case CausalReachability => r := DefaultCausalVerify(q, id);
      case Custom(check) => r := check(id, q.State());
    }
    var removed := q.Remove(id);
  }

  /** With active backends a verified verdict is demoted, and every other verdict stands. */
  method ForgetWithBackends(q: BeliefQuad, id: BeliefId, verifier: Verifier, backends: seq<string>)
    returns (r: ForgetResult)
    requires q.Separate() && ValidProj(q.causal.State())
    modifies q.Owned()
    ensures q.State() == RemoveBelief(old(q.State()), id)
    ensures
      var verdict := VerdictOf(verifier, old(q.State()), id);
      r == if verdict.Verified? && backends != [] then PersistenceNotVerified(backends) else verdict
  {
    r := Forget(q, id, verifier);
    if backends != [] && r.Verified? {
      r := PersistenceNotVerified(backends);
    }
  }

  /** The rest of a path leads from each of its beliefs to its end. */
  lemma PathTail<W>(
    arcs: seq<Arc<W>>, path: seq<BeliefId>, a: BeliefId, b: BeliefId, i: nat)
    requires PathBetween(arcs, path, a, b) && i < |path|
    ensures Reaches(arcs, path[i], b)
  {
    var rest := path[i..];
    forall k | 0 <= k < |rest| - 1 ensures HasArc(arcs, rest[k], rest[k + 1]) {
      assert HasArc(arcs, path[i + k], path[i + k + 1]);
    }
    assert PathBetween(arcs, rest, path[i], b);
  }

  lemma PathSurvives<W>(arcs: seq<Arc<W>>, id: BeliefId, a: BeliefId, b: BeliefId)
    requires Downstream(arcs, id) == {} && b != id && Reaches(arcs, a, b)
    ensures Reaches(WithoutBelief(arcs, id), a, b)
  {
    var after := WithoutBelief(arcs, id);
    var path :| PathBetween(arcs, path, a, b);
    forall i | 0 <= i < |path| ensures path[i] != id {
      // a path through id would make b a descendant of it
      PathTail(arcs, path, a, b, i);
    }
    forall i | 0 <= i < |path| - 1 ensures HasArc(after, path[i], path[i + 1]) {
      WithoutBeliefIn(arcs, id);
      KeepsArc(arcs, after, path[i], path[i + 1]);
    }
    assert PathBetween(after, path, a, b);
  }

  lemma PathWasThere<W>(arcs: seq<Arc<W>>, id: BeliefId, a: BeliefId, b: BeliefId)
    requires Reaches(WithoutBelief(arcs, id), a, b)
    ensures Reaches(arcs, a, b)
  {
    var after := WithoutBelief(arcs, id);
    WithoutBeliefIn(arcs, id);
    var path :| PathBetween(after, path, a, b);
    forall i | 0 <= i < |path| - 1 ensures HasArc(arcs, path[i], path[i + 1]) {
      KeepsArc(after, arcs, path[i], path[i + 1]);
    }
    assert PathBetween(arcs, path, a, b);
  }

  /** A forget that the default verifier calls verified leaves reachability among all other beliefs as
      it was. */
  lemma VerifiedForgetPreservesReachability(q: Quad, id: BeliefId, a: BeliefId, b: BeliefId)
    requires Synced(q) && VerdictOf(CausalReachability, q, id) == Verified
    requires a != id && b != id
    ensures ValidProj(RemoveBelief(q, id).causal)
    ensures Reaches(Arcs(q.causal), a, b) <==> Reaches(Arcs(RemoveBelief(q, id).causal), a, b)
  {
    RemoveNodeRefines(q.causal, id);
    if Reaches(Arcs(q.causal), a, b) { PathSurvives(Arcs(q.causal), id, a, b); }
    if Reaches(WithoutBelief(Arcs(q.causal), id), a, b) { PathWasThere(Arcs(q.causal), id, a, b); }
  }

  lemma KeepsArc<W>(s: seq<Arc<W>>, t: seq<Arc<W>>, a: BeliefId, b: BeliefId)
    requires HasArc(s, a, b)
    requires forall x :: x in s && x.from == a && x.to == b ==> x in t
    ensures HasArc(t, a, b)
  {
    var k :| 0 <= k < |s| && s[k].from == a && s[k].to == b;
    assert s[k] in s;
    var j :| 0 <= j < |t| && t[j] == s[k];
  }
}
