/** The structural prior of active inference, compared with what System 1 computes. */
module FreeEnergy {
  import opened Reals
  import opened Sequences
  import opened Projections
  import opened Beliefs
  import opened Diffs
  import opened NoisyOr

  // ---- The prior as a function ---------------------------------------------------------------------

  function AddParents(seen: seq<BeliefId>, path: seq<BeliefId>): seq<BeliefId>
    decreases |path|
  {
    if path == [] then seen
    else AddParents(if path[0] in seen then seen else seen + [path[0]], path[1..])
  }

  /** Every premise of every path once, in order of first appearance. */
  function AllParents(seen: seq<BeliefId>, lists: seq<seq<BeliefId>>): seq<BeliefId>
    decreases |lists|
  {
    if lists == [] then seen else AllParents(AddParents(seen, lists[0]), lists[1..])
  }

  /** Noisy-OR with the uninformative prior when there is nothing to combine. */
  function NoisyOrPrior(cs: seq<real>): real {
    if cs == [] then 0.5 else 1.0 - Complement(cs)
  }

  function StructuralPrior(nodes: Arena, lists: seq<seq<BeliefId>>): real {
    if lists == [] then 0.5 else NoisyOrPrior(LiveConfidences(nodes, AllParents([], lists)))
  }

  // ---- The loops --------------------------------------------------------------------------------------

  method CombinePrior(cs: seq<real>) returns (r: real)
    ensures r == NoisyOrPrior(cs)
  {
    var any, notAny := false, 1.0;
    var i := |cs|;
    while i > 0
      invariant 0 <= i <= |cs|
      invariant notAny == Complement(cs[i..]) && (any <==> i < |cs|)
    {
      i := i - 1;
      assert cs[i..][1..] == cs[i + 1..];
      notAny := Times(1.0 - Clamp01(cs[i]), notAny);
      any := true;
    }
    assert cs[0..] == cs;
    r := if any then 1.0 - notAny else 0.5;
  }

  lemma {:induction false} LiveAppend(nodes: Arena, s: seq<BeliefId>, p: BeliefId)
    ensures LiveConfidences(nodes, s + [p])
      == LiveConfidences(nodes, s) + if p in nodes then [nodes[p].fast] else []
    decreases |s|
  {
    if s == [] {
      assert [p][1..] == [] && s + [p] == [p];
    } else {
      LiveAppend(nodes, s[1..], p);
      assert (s + [p])[1..] == s[1..] + [p];
    }
  }

  method ComputeStructuralPrior(nodes: Arena, paths: seq<seq<BeliefId>>) returns (prior: real)
    ensures prior == StructuralPrior(nodes, paths)
  {
    if paths == [] {
      return 0.5;
    }
    var seen: seq<BeliefId> := [];
    var confidences: seq<real> := [];
    var i := 0;
    assert paths[0..] == paths;
    while i < |paths|
      invariant 0 <= i <= |paths|
      invariant AllParents(seen, paths[i..]) == AllParents([], paths)
      invariant confidences == LiveConfidences(nodes, seen)
    {
      var path := paths[i];
      assert paths[i..][1..] == paths[i + 1..];
      assert path[0..] == path;
      ghost var start := seen;
      var j := 0;
      while j < |path|
        invariant 0 <= j <= |path|
        invariant AddParents(seen, path[j..]) == AddParents(start, path)
        invariant confidences == LiveConfidences(nodes, seen)
      {
        var parent := path[j];
        assert path[j..][1..] == path[j + 1..];
        if parent !in seen {
          LiveAppend(nodes, seen, parent);
          seen := seen + [parent];
          if parent in nodes {
            confidences := confidences + [nodes[parent].fast];
          }
        }
        j := j + 1;
      }
      i := i + 1;
    }
    prior := CombinePrior(confidences);
  }

  // ---- The flattened parents ---------------------------------------------------------------------------

  ghost predicate IsPremise(lists: seq<seq<BeliefId>>, p: BeliefId) {
    exists ps :: ps in lists && p in ps
  }

  lemma {:induction false} AddParentsEffect(seen: seq<BeliefId>, path: seq<BeliefId>)
    requires Distinct(seen)
    ensures Distinct(AddParents(seen, path))
    ensures forall p :: p in AddParents(seen, path) <==> p in seen || p in path
    decreases |path|
  {
    if path != [] {
      var seen' := if path[0] in seen then seen else seen + [path[0]];
      AddParentsEffect(seen', path[1..]);
      assert forall p :: p in path <==> p == path[0] || p in path[1..];
    }
  }

  lemma {:induction false} AllParentsEffect(seen: seq<BeliefId>, lists: seq<seq<BeliefId>>)
    requires Distinct(seen)
    ensures Distinct(AllParents(seen, lists))
    ensures forall p :: p in AllParents(seen, lists) <==> p in seen || IsPremise(lists, p)
    decreases |lists|
  {
    if lists != [] {
      AddParentsEffect(seen, lists[0]);
      AllParentsEffect(AddParents(seen, lists[0]), lists[1..]);
      assert forall ps :: ps in lists <==> ps == lists[0] || ps in lists[1..];
      assert forall p :: IsPremise(lists, p) <==> p in lists[0] || IsPremise(lists[1..], p);
    }
  }

  // ---- Products of complements --------------------------------------------------------------------------

  /** The complement of a live premise, and one for a dead premise. */
  function Doubt(nodes: Arena, p: BeliefId): (r: real)
    ensures 0.0 <= r <= 1.0
  {
    if p in nodes then 1.0 - Clamp01(nodes[p].fast) else 1.0
  }

  ghost function Doubts(nodes: Arena, ps: seq<BeliefId>): real {
    if ps == [] then 1.0 else Times(Doubt(nodes, ps[0]), Doubts(nodes, ps[1..]))
  }

  lemma {:induction false} DoubtsAreComplements(nodes: Arena, ps: seq<BeliefId>)
    ensures Doubts(nodes, ps) == Complement(LiveConfidences(nodes, ps))
    ensures 0.0 <= Doubts(nodes, ps) <= 1.0
    decreases |ps|
  {
    if ps != [] {
      DoubtsAreComplements(nodes, ps[1..]);
      var rest := LiveConfidences(nodes, ps[1..]);
      TimesFacts(Complement(rest), 0.0, 0.0);
      if ps[0] in nodes {
        assert ([nodes[ps[0]].fast] + rest)[1..] == rest;
      }
    }
  }

  lemma {:induction false} DoubtsTakeOut(nodes: Arena, ps: seq<BeliefId>, i: nat)
    requires i < |ps|
    ensures Doubts(nodes, ps) == Times(Doubt(nodes, ps[i]), Doubts(nodes, ps[..i] + ps[i + 1..]))
    decreases i
  {
    var rest := ps[..i] + ps[i + 1..];
    if i == 0 {
      assert rest == ps[1..];
    } else {
      DoubtsTakeOut(nodes, ps[1..], i - 1);
      assert rest[1..] == ps[1..][..i - 1] + ps[1..][i..];
      TimesFacts(Doubt(nodes, ps[0]), Doubt(nodes, ps[i]), Doubts(nodes, rest[1..]));
    }
  }

  /** No live belief occurs twice. */
  ghost predicate NoLiveRepeat(live: set<BeliefId>, ps: seq<BeliefId>) {
    forall i, j :: 0 <= i < j < |ps| ==> ps[i] != ps[j] || ps[i] !in live
  }

  /** More premises leave no more doubt, as long as no live one is counted twice. */
  lemma {:induction false} MoreParentsLessDoubt(nodes: Arena, few: seq<BeliefId>, many: seq<BeliefId>)
    requires NoLiveRepeat(nodes.Keys, few) && forall p :: p in few && p in nodes ==> p in many
    ensures Doubts(nodes, many) <= Doubts(nodes, few)
    decreases |few|
  {
    DoubtsAreComplements(nodes, many);
    if few != [] {
      var p, rest := few[0], few[1..];
      assert few == [p] + rest;
      if p !in nodes {
        MoreParentsLessDoubt(nodes, rest, many);
        TimesFacts(Doubts(nodes, rest), 0.0, 0.0);
      } else {
        var i :| 0 <= i < |many| && many[i] == p;
        var others := many[..i] + many[i + 1..];
        assert many == many[..i] + [p] + many[i + 1..];
        DoubtsTakeOut(nodes, many, i);
        assert forall k :: 0 <= k < |rest| ==> few[k + 1] == rest[k];
        MoreParentsLessDoubt(nodes, rest, others);
        TimesFacts(Doubt(nodes, p), Doubts(nodes, others), Doubts(nodes, rest));
      }
    }
  }

  // ---- Prior against System 1 -----------------------------------------------------------------------------

  lemma {:induction false} AllDead(nodes: Arena, ps: seq<BeliefId>)
    ensures LiveConfidences(nodes, ps) == [] <==> forall p :: p in ps ==> p !in nodes
    decreases |ps|
  {
    if ps != [] {
      AllDead(nodes, ps[1..]);
      assert ps == [ps[0]] + ps[1..];
    }
  }

  lemma PathBelowPrior(nodes: Arena, lists: seq<seq<BeliefId>>, ps: seq<BeliefId>)
    requires ps in lists && NoLiveRepeat(nodes.Keys, ps)
    ensures PathStrength(nodes, ps) <= StructuralPrior(nodes, lists)
  {
    var all := AllParents([], lists);
    AllParentsEffect([], lists);
    MoreParentsLessDoubt(nodes, ps, all);
    DoubtsAreComplements(nodes, ps);
    DoubtsAreComplements(nodes, all);
    AllDead(nodes, all);
    AllDead(nodes, ps);
  }

  /** The structural prior is at least the best evidence that System 1 finds before decay, as long as
      no premise list repeats a live premise. */
  lemma NoRepeatDominates(nodes: Arena, lists: seq<seq<BeliefId>>)
    requires forall ps :: ps in lists ==> NoLiveRepeat(nodes.Keys, ps)
    ensures BestEvidence(nodes, lists) <= StructuralPrior(nodes, lists)
  {
    BestEvidenceIsMax(nodes, lists);
    if BestEvidence(nodes, lists) != 0.0 {
      var ps :| ps in lists && PathStrength(nodes, ps) == BestEvidence(nodes, lists);
      PathBelowPrior(nodes, lists, ps);
    } else if lists != [] {
      DoubtsAreComplements(nodes, AllParents([], lists));
    }
  }

  /** The arena in which one belief is worth one half and all others nothing. */
  ghost predicate OnlyHalf(nodes: Arena, p: BeliefId) {
    forall id :: id in nodes ==> nodes[id].fast == if id == p then 0.5 else 0.0
  }

  lemma {:induction false} OthersLeaveNoDoubt(nodes: Arena, ps: seq<BeliefId>, p: BeliefId)
    requires OnlyHalf(nodes, p) && p !in ps
    ensures Doubts(nodes, ps) == 1.0
    decreases |ps|
  {
    if ps != [] {
      assert ps == [ps[0]] + ps[1..];
      OthersLeaveNoDoubt(nodes, ps[1..], p);
    }
  }

  /** A live premise that a list repeats counts twice for System 1 and once for the prior. */
  lemma RepeatBreaksDominance(
    nodes: Arena, lists: seq<seq<BeliefId>>, ps: seq<BeliefId>, i: nat, j: nat)
    requires ps in lists && i < j < |ps| && ps[i] == ps[j] && ps[i] in nodes && OnlyHalf(nodes, ps[i])
    ensures BestEvidence(nodes, lists) >= 0.75 && StructuralPrior(nodes, lists) == 0.5
  {
    var p := ps[i];
    assert PathStrength(nodes, ps) >= 0.75 by {
      var rest := ps[..j] + ps[j + 1..];
      DoubtsTakeOut(nodes, ps, j);
      DoubtsTakeOut(nodes, rest, i);
      DoubtsAreComplements(nodes, rest[..i] + rest[i + 1..]);
      DoubtsAreComplements(nodes, ps);
      AllDead(nodes, ps);
    }
    BestEvidenceIsMax(nodes, lists);
    var all := AllParents([], lists);
    AllParentsEffect([], lists);
    assert IsPremise(lists, p) by { assert p in ps; }
    var k :| 0 <= k < |all| && all[k] == p;
    DoubtsTakeOut(nodes, all, k);
    OthersLeaveNoDoubt(nodes, all[..k] + all[k + 1..], p);
    DoubtsAreComplements(nodes, all);
    AllDead(nodes, all);
  }

  ghost predicate NoListRepeats(live: set<BeliefId>, lists: seq<seq<BeliefId>>) {
    forall ps :: ps in lists ==> NoLiveRepeat(live, ps)
  }

  /** The prior bounds what System 1 finds before decay, for all confidences, if and only if no premise
      list repeats a live premise. */
  lemma PriorDominatesIff(live: set<BeliefId>, lists: seq<seq<BeliefId>>)
    ensures NoListRepeats(live, lists) <==>
      forall nodes: Arena :: nodes.Keys == live ==> BestEvidence(nodes, lists) <= StructuralPrior(nodes, lists)
  {
    hide BestEvidence, StructuralPrior;
    if NoListRepeats(live, lists) {
      forall nodes: Arena | nodes.Keys == live
        ensures BestEvidence(nodes, lists) <= StructuralPrior(nodes, lists)
      {
        NoRepeatDominates(nodes, lists);
      }
    } else {
      var ps :| ps in lists && !NoLiveRepeat(live, ps);
      var i, j :| 0 <= i < j < |ps| && ps[i] == ps[j] && ps[i] in live;
      var nodes := ArenaOf(live, id => if id == ps[i] then 0.5 else 0.0);
      RepeatBreaksDominance(nodes, lists, ps, i, j);
    }
  }

  // ---- When the two coincide --------------------------------------------------------------------------------

  /** The list names every live premise that any list names. */
  ghost predicate Complete(live: set<BeliefId>, lists: seq<seq<BeliefId>>, ps: seq<BeliefId>) {
    forall p :: p in live && IsPremise(lists, p) ==> p in ps
  }

  ghost predicate HasLivePremise(live: set<BeliefId>, lists: seq<seq<BeliefId>>) {
    exists p :: p in live && IsPremise(lists, p)
  }

  /** A complete list is as strong as the prior. */
  lemma CompletePathIsPrior(nodes: Arena, lists: seq<seq<BeliefId>>, ps: seq<BeliefId>)
    requires NoListRepeats(nodes.Keys, lists) && HasLivePremise(nodes.Keys, lists)
    requires ps in lists && Complete(nodes.Keys, lists, ps)
    ensures BestEvidence(nodes, lists) == StructuralPrior(nodes, lists)
  {
    var all := AllParents([], lists);
    AllParentsEffect([], lists);
    NoRepeatDominates(nodes, lists);
    MoreParentsLessDoubt(nodes, all, ps);
    DoubtsAreComplements(nodes, ps);
    DoubtsAreComplements(nodes, all);
    AllDead(nodes, all);
    AllDead(nodes, ps);
    BestEvidenceIsMax(nodes, lists);
  }

  ghost predicate AllHalf(nodes: Arena) {
    forall id :: id in nodes ==> nodes[id].fast == 0.5
  }

  lemma {:induction false} HalvesLeaveDoubt(nodes: Arena, ps: seq<BeliefId>)
    requires AllHalf(nodes)
    ensures Doubts(nodes, ps) > 0.0
    decreases |ps|
  {
    if ps != [] {
      HalvesLeaveDoubt(nodes, ps[1..]);
    }
  }

  /** One more live premise, worth one half, halves the doubt. */
  lemma MissingParentLessDoubt(nodes: Arena, ps: seq<BeliefId>, p: BeliefId, all: seq<BeliefId>)
    requires AllHalf(nodes) && p in nodes && p !in ps && NoLiveRepeat(nodes.Keys, ps)
    requires p in all && forall x :: x in ps ==> x in all
    ensures Doubts(nodes, all) < Doubts(nodes, ps)
  {
    var more := [p] + ps;
    assert more[1..] == ps;
    assert NoLiveRepeat(nodes.Keys, more) by {
      forall i, j | 0 <= i < j < |more| ensures more[i] != more[j] || more[i] !in nodes.Keys {
        assert more[j] == ps[j - 1] && more[j] in ps;
      }
    }
    hide NoLiveRepeat;
    MoreParentsLessDoubt(nodes, more, all);
    HalvesLeaveDoubt(nodes, ps);
  }

  /** A list that misses a live premise is weaker than the prior when all are worth one half. */
  lemma IncompletePathBelowPrior(nodes: Arena, lists: seq<seq<BeliefId>>, ps: seq<BeliefId>)
    requires AllHalf(nodes) && NoListRepeats(nodes.Keys, lists)
    requires ps in lists && !Complete(nodes.Keys, lists, ps)
    ensures PathStrength(nodes, ps) < StructuralPrior(nodes, lists)
  {
    var p :| p in nodes && IsPremise(lists, p) && p !in ps;
    var all := AllParents([], lists);
    AllParentsEffect([], lists);
    assert forall x :: x in ps ==> IsPremise(lists, x);
    hide NoLiveRepeat, IsPremise, AllHalf, AllParents;
    MissingParentLessDoubt(nodes, ps, p, all);
    DoubtsAreComplements(nodes, ps);
    DoubtsAreComplements(nodes, all);
    AllDead(nodes, all);
  }

  lemma NoLivePremiseDiffers(nodes: Arena, lists: seq<seq<BeliefId>>)
    requires !HasLivePremise(nodes.Keys, lists)
    ensures BestEvidence(nodes, lists) == 0.0 && StructuralPrior(nodes, lists) == 0.5
  {
    AllParentsEffect([], lists);
    AllDead(nodes, AllParents([], lists));
    BestEvidenceIsMax(nodes, lists);
    if BestEvidence(nodes, lists) != 0.0 {
      var ps :| ps in lists && PathStrength(nodes, ps) == BestEvidence(nodes, lists);
      assert forall p :: p in ps ==> IsPremise(lists, p);
      AllDead(nodes, ps);
    }
  }

  /** The prior coincides with what System 1 finds before decay, for all confidences, if and only if
      some premise is live, no list repeats a live premise, and one list names all live premises. */
  lemma PriorCoincidesIff(live: set<BeliefId>, lists: seq<seq<BeliefId>>)
    ensures
      (HasLivePremise(live, lists) && NoListRepeats(live, lists)
       && exists ps :: ps in lists && Complete(live, lists, ps)) <==>
      forall nodes: Arena :: nodes.Keys == live ==> BestEvidence(nodes, lists) == StructuralPrior(nodes, lists)
  {
    hide BestEvidence, StructuralPrior, HasLivePremise, NoListRepeats, Complete;
    var nodes := ArenaOf(live, id => 0.5);
    PriorDominatesIff(live, lists);
    if !HasLivePremise(live, lists) {
      NoLivePremiseDiffers(nodes, lists);
    } else if NoListRepeats(live, lists) {
      if ps :| ps in lists && Complete(live, lists, ps) {
        forall nodes: Arena | nodes.Keys == live
          ensures BestEvidence(nodes, lists) == StructuralPrior(nodes, lists)
        {
          CompletePathIsPrior(nodes, lists, ps);
        }
      } else {
        AllIncompleteDiffers(nodes, lists);
      }
    }
  }

  lemma AllIncompleteDiffers(nodes: Arena, lists: seq<seq<BeliefId>>)
    requires AllHalf(nodes) && NoListRepeats(nodes.Keys, lists) && HasLivePremise(nodes.Keys, lists)
    requires forall ps :: ps in lists ==> !Complete(nodes.Keys, lists, ps)
    ensures BestEvidence(nodes, lists) < StructuralPrior(nodes, lists)
  {
    hide NoListRepeats, Complete, PathStrength, StructuralPrior, BestEvidence;
    BestEvidenceIsMax(nodes, lists);
    var p :| p in nodes && IsPremise(lists, p);
    var qs :| qs in lists && p in qs;
    IncompletePathBelowPrior(nodes, lists, qs);
    if BestEvidence(nodes, lists) != 0.0 {
      var ps :| ps in lists && PathStrength(nodes, ps) == BestEvidence(nodes, lists);
      IncompletePathBelowPrior(nodes, lists, ps);
    }
  }

  /** In particular they coincide on a single list that has a live premise and repeats none. */
  lemma SinglePathPriorIsSystem1(live: set<BeliefId>, ps: seq<BeliefId>)
    requires NoLiveRepeat(live, ps) && exists p :: p in ps && p in live
    ensures forall nodes: Arena :: nodes.Keys == live ==>
      BestEvidence(nodes, [ps]) == StructuralPrior(nodes, [ps])
  {
    var p :| p in ps && p in live;
    assert ps in [ps] && IsPremise([ps], p) && Complete(live, [ps], ps);
    PriorCoincidesIff(live, [ps]);
  }
}
