/** System 1: confidence propagation through the causal graph with a cycle guard.

    The decay factor of a belief at the moment it is visited is an argument.  No belief is visited
    twice, so a function of the belief covers every behaviour of the clock. */
module System1 {
  import opened Reals
  import opened Sequences
  import opened Projections
  import opened Reachability
  import opened Beliefs
  import opened Diffs
  import opened NoisyOr
  import opened Quads

  type Decay = BeliefId -> real

  // ---- One visit, and a run of visits, as functions ------------------------------------------------

  function Discounted(evidence: real, factor: real): (r: real)
    ensures 0.0 <= r <= 1.0
  {
    Clamp01(evidence * factor)
  }

  /** Evidence is damped by the decay factor, in proportion; a product outside [0, 1] is cut off. */
  lemma DiscountIsProduct(evidence: real, factor: real)
    ensures 0.0 <= Times(evidence, factor) <= 1.0 ==> Discounted(evidence, factor) == Times(evidence, factor)
    ensures Times(evidence, factor) < 0.0 ==> Discounted(evidence, factor) == 0.0
    ensures Times(evidence, factor) > 1.0 ==> Discounted(evidence, factor) == 1.0
  {
  }

  function Derived(nodes: Arena, causal: Proj<CausalEdge>, id: BeliefId, decay: Decay): (r: real)
    ensures 0.0 <= r <= 1.0
  {
    Discounted(BestEvidence(nodes, InferredFromPremises(causal, id)), decay(id))
  }

  /** A visit rewrites the fast confidence of a live belief that was inferred from something. */
  function Visit(nodes: Arena, causal: Proj<CausalEdge>, id: BeliefId, decay: Decay): Arena {
    if InferredFromPremises(causal, id) == [] || id !in nodes then nodes
    else nodes[id := nodes[id].(fast := Derived(nodes, causal, id, decay))]
  }

  function VisitAll(nodes: Arena, causal: Proj<CausalEdge>, trace: seq<BeliefId>, decay: Decay): Arena
    decreases |trace|
  {
    if trace == [] then nodes
    else VisitAll(Visit(nodes, causal, trace[0], decay), causal, trace[1..], decay)
  }

  /** The beliefs downstream of `id`, which are none when it is not live. */
  ghost function Affected(causal: Proj<CausalEdge>, id: BeliefId): (s: set<BeliefId>)
    requires ValidProj(causal)
  {
    if id in causal.indices then Downstream(Arcs(causal), id) else {}
  }

  ghost function SetOf(s: seq<BeliefId>): set<BeliefId> { set x | x in s }

  // ---- The orders that the recursion can take --------------------------------------------------------

  ghost predicate Listing(order: seq<BeliefId>, s: set<BeliefId>) {
    Distinct(order) && SetOf(order) == s
  }

  /** What entering `id` can visit with `visited` behind it: nothing when it was visited before, and
      otherwise `id`, followed by what entering its descendants visits, in any order of those. */
  ghost predicate Enters(
    causal: Proj<CausalEdge>, id: BeliefId, visited: set<BeliefId>, trace: seq<BeliefId>)
    requires ValidProj(causal)
    decreases |trace|, 0
  {
    if id in visited then trace == []
    else
      && trace != [] && trace[0] == id
      && exists order ::
           Listing(order, Affected(causal, id)) && EntersAll(causal, order, visited + {id}, trace[1..])
  }

  ghost predicate EntersAll(
    causal: Proj<CausalEdge>, ids: seq<BeliefId>, visited: set<BeliefId>, trace: seq<BeliefId>)
    requires ValidProj(causal)
    decreases |trace|, 1 + |ids|
  {
    if ids == [] then trace == []
    else
      exists first, rest ::
        && trace == first + rest
        && Enters(causal, ids[0], visited, first)
        && EntersAll(causal, ids[1..], visited + SetOf(first), rest)
  }

  /** A visiting order of a propagation that starts at `changed`. */
  ghost predicate IsVisitOrder(causal: Proj<CausalEdge>, changed: BeliefId, trace: seq<BeliefId>)
    requires ValidProj(causal)
  {
    Enters(causal, changed, {}, trace)
  }

  /** Starts at `changed` and visits it and everything downstream, each exactly once. */
  ghost predicate VisitsOnce(causal: Proj<CausalEdge>, changed: BeliefId, trace: seq<BeliefId>)
    requires ValidProj(causal)
  {
    trace != [] && trace[0] == changed && Listing(trace, Affected(causal, changed) + {changed})
  }

  lemma JoinTraces(s: seq<BeliefId>, t: seq<BeliefId>, a: set<BeliefId>, b: set<BeliefId>)
    requires Listing(s, a) && Listing(t, b) && a !! b
    ensures Listing(s + t, a + b)
  {
    forall i, j | 0 <= i < j < |s + t| ensures (s + t)[i] != (s + t)[j] {
      if i < |s| <= j {
        assert s[i] in a && t[j - |s|] in b;
      }
    }
  }

  lemma SetOfJoin(s: seq<BeliefId>, t: seq<BeliefId>)
    ensures SetOf(s + t) == SetOf(s) + SetOf(t)
  {
  }

  lemma FirstAndRest(causal: Proj<CausalEdge>, ids: seq<BeliefId>, visited: set<BeliefId>, trace: seq<BeliefId>)
    returns (first: seq<BeliefId>, rest: seq<BeliefId>)
    requires ValidProj(causal) && ids != [] && EntersAll(causal, ids, visited, trace)
    ensures trace == first + rest && SetOf(trace) == SetOf(first) + SetOf(rest)
    ensures Enters(causal, ids[0], visited, first)
    ensures EntersAll(causal, ids[1..], visited + SetOf(first), rest)
  {
    hide Enters;
    first, rest :| trace == first + rest && Enters(causal, ids[0], visited, first)
      && EntersAll(causal, ids[1..], visited + SetOf(first), rest);
    SetOfJoin(first, rest);
  }

  lemma EntersFrom(
    causal: Proj<CausalEdge>, ids: seq<BeliefId>, visited: set<BeliefId>,
    first: seq<BeliefId>, rest: seq<BeliefId>)
    requires ValidProj(causal) && ids != [] && Enters(causal, ids[0], visited, first)
    requires EntersAll(causal, ids[1..], visited + SetOf(first), rest)
    ensures EntersAll(causal, ids, visited, first + rest)
  {
    hide Enters, ValidProj;
  }

  lemma HeadAndTail(causal: Proj<CausalEdge>, id: BeliefId, visited: set<BeliefId>, trace: seq<BeliefId>)
    returns (order: seq<BeliefId>, tail: seq<BeliefId>)
    requires ValidProj(causal) && id !in visited && Enters(causal, id, visited, trace)
    ensures trace == [id] + tail && SetOf(trace) == {id} + SetOf(tail)
    ensures Listing(order, Affected(causal, id)) && EntersAll(causal, order, visited + {id}, tail)
  {
    hide EntersAll, Affected, ValidProj;
    tail := trace[1..];
    order :| Listing(order, Affected(causal, id)) && EntersAll(causal, order, visited + {id}, tail);
    SetOfJoin([id], tail);
    assert SetOf([id]) == {id};
  }

  lemma AffectedNests(causal: Proj<CausalEdge>, id: BeliefId, d: BeliefId)
    requires ValidProj(causal) && d in Affected(causal, id)
    ensures Affected(causal, d) <= Affected(causal, id) + {id}
  {
    DownstreamNests(Arcs(causal), id, d);
  }

  /** Entering an unvisited belief visits it and all its descendants that were left, each once. */
  lemma {:induction false} EntersVisits(
    causal: Proj<CausalEdge>, id: BeliefId, visited: set<BeliefId>, trace: seq<BeliefId>)
    requires ValidProj(causal) && id !in visited && Enters(causal, id, visited, trace)
    ensures Listing(trace, Affected(causal, id) + {id} - visited)
    decreases |trace|, 0
  {
    hide ValidProj, Affected, Enters, EntersAll;
    var order, tail := HeadAndTail(causal, id, visited, trace);
    var scope := Affected(causal, id) + {id};
    forall d | d in order ensures Affected(causal, d) + {d} <= scope {
      assert d in SetOf(order);
      AffectedNests(causal, id, d);
    }
    EntersAllVisits(causal, order, visited + {id}, tail, scope);
    JoinTraces([id], tail, {id}, SetOf(tail));
  }

  lemma {:induction false} EntersAllVisits(
    causal: Proj<CausalEdge>, ids: seq<BeliefId>, visited: set<BeliefId>, trace: seq<BeliefId>,
    scope: set<BeliefId>)
    requires ValidProj(causal) && EntersAll(causal, ids, visited, trace)
    requires forall d :: d in ids ==> Affected(causal, d) + {d} <= scope
    ensures Distinct(trace) && SetOf(ids) - visited <= SetOf(trace) <= scope - visited
    decreases |trace|, 1 + |ids|
  {
    if ids != [] {
      var first, rest := FirstAndRest(causal, ids, visited, trace);
      hide ValidProj, Affected, EntersAll;
      assert ids == [ids[0]] + ids[1..];
      if ids[0] in visited {
        assert first == [];
      } else {
        hide Enters;
        EntersVisits(causal, ids[0], visited, first);
      }
      hide Enters;
      EntersAllVisits(causal, ids[1..], visited + SetOf(first), rest, scope);
      JoinTraces(first, rest, SetOf(first), SetOf(rest));
    }
  }

  lemma VisitOrderVisitsOnce(causal: Proj<CausalEdge>, changed: BeliefId, trace: seq<BeliefId>)
    requires ValidProj(causal) && IsVisitOrder(causal, changed, trace)
    ensures VisitsOnce(causal, changed, trace)
  {
    EntersVisits(causal, changed, {}, trace);
  }

  /** From position i the order goes on with exactly the unvisited rest of what lies downstream. */
  ghost predicate SubtreeAt(
    causal: Proj<CausalEdge>, visited: set<BeliefId>, trace: seq<BeliefId>, i: nat, m: nat)
    requires ValidProj(causal) && i < |trace|
  {
    && i < m <= |trace|
    && SetOf(trace[i..m]) == Affected(causal, trace[i]) + {trace[i]} - visited - SetOf(trace[..i])
  }

  lemma SubtreeInFront(
    causal: Proj<CausalEdge>, visited: set<BeliefId>, first: seq<BeliefId>, rest: seq<BeliefId>, i: nat, m: nat)
    requires ValidProj(causal) && i < |first| && SubtreeAt(causal, visited, first, i, m)
    ensures SubtreeAt(causal, visited, first + rest, i, m)
  {
    hide ValidProj, Affected;
    assert (first + rest)[i..m] == first[i..m] && (first + rest)[..i] == first[..i];
  }

  lemma SubtreeBehind(
    causal: Proj<CausalEdge>, visited: set<BeliefId>, first: seq<BeliefId>, rest: seq<BeliefId>, i: nat, m: nat)
    requires ValidProj(causal) && i < |rest| && SubtreeAt(causal, visited + SetOf(first), rest, i, m)
    ensures SubtreeAt(causal, visited, first + rest, |first| + i, |first| + m)
  {
    hide ValidProj, Affected;
    var trace, n := first + rest, |first|;
    assert trace[n + i..n + m] == rest[i..m] && trace[..n + i] == first + rest[..i];
    SetOfJoin(first, rest[..i]);
  }

  /** The orders are depth-first: whatever is downstream of a visited belief and still unvisited
      comes right after it, before anything else. */
  lemma {:induction false} VisitsDepthFirst(
    causal: Proj<CausalEdge>, id: BeliefId, visited: set<BeliefId>, trace: seq<BeliefId>, i: nat)
    requires ValidProj(causal) && id !in visited && Enters(causal, id, visited, trace) && i < |trace|
    ensures exists m: nat :: SubtreeAt(causal, visited, trace, i, m)
    decreases |trace|, 0
  {
    hide ValidProj, Affected, Enters, EntersAll;
    var order, tail := HeadAndTail(causal, id, visited, trace);
    if i == 0 {
      EntersVisits(causal, id, visited, trace);
      assert trace[0..|trace|] == trace && trace[..0] == [];
      assert SubtreeAt(causal, visited, trace, 0, |trace|);
    } else {
      AllVisitDepthFirst(causal, order, visited + {id}, tail, i - 1);
      hide SubtreeAt;
      var m: nat :| SubtreeAt(causal, visited + {id}, tail, i - 1, m);
      assert SetOf([id]) == {id};
      SubtreeBehind(causal, visited, [id], tail, i - 1, m);
    }
  }

  lemma {:induction false} AllVisitDepthFirst(
    causal: Proj<CausalEdge>, ids: seq<BeliefId>, visited: set<BeliefId>, trace: seq<BeliefId>, i: nat)
    requires ValidProj(causal) && EntersAll(causal, ids, visited, trace) && i < |trace|
    ensures exists m: nat :: SubtreeAt(causal, visited, trace, i, m)
    decreases |trace|, 1 + |ids|
  {
    hide ValidProj, SubtreeAt;
    var first, rest := FirstAndRest(causal, ids, visited, trace);
    if i < |first| {
      VisitsDepthFirst(causal, ids[0], visited, first, i);
      var m: nat :| SubtreeAt(causal, visited, first, i, m);
      SubtreeInFront(causal, visited, first, rest, i, m);
    } else {
      AllVisitDepthFirst(causal, ids[1..], visited + SetOf(first), rest, i - |first|);
      var m: nat :| SubtreeAt(causal, visited + SetOf(first), rest, i - |first|, m);
      SubtreeBehind(causal, visited, first, rest, i - |first|, m);
    }
  }

  lemma NothingEntered(causal: Proj<CausalEdge>, visited: set<BeliefId>, trace: seq<BeliefId>)
    requires ValidProj(causal)
    ensures EntersAll(causal, [], visited, trace) <==> trace == []
  {
  }

  /** One more belief entered at the end. */
  lemma {:induction false} EntersOneMore(
    causal: Proj<CausalEdge>, ids: seq<BeliefId>, visited: set<BeliefId>, trace: seq<BeliefId>,
    d: BeliefId, more: seq<BeliefId>)
    requires ValidProj(causal) && EntersAll(causal, ids, visited, trace)
    requires Enters(causal, d, visited + SetOf(trace), more)
    ensures EntersAll(causal, ids + [d], visited, trace + more)
    decreases |ids|
  {
    hide ValidProj, Enters, EntersAll;
    if ids == [] {
      NothingEntered(causal, visited, trace);
      NothingEntered(causal, visited + SetOf(more), []);
      assert visited + SetOf(trace) == visited && ids + [d] == [d] && [d][1..] == [];
      EntersFrom(causal, [d], visited, more, []);
      assert trace + more == more + [];
    } else {
      var first, rest := FirstAndRest(causal, ids, visited, trace);
      assert visited + SetOf(first) + SetOf(rest) == visited + SetOf(trace);
      EntersOneMore(causal, ids[1..], visited + SetOf(first), rest, d, more);
      assert (ids + [d])[1..] == ids[1..] + [d];
      EntersFrom(causal, ids + [d], visited, first, rest + more);
      assert trace + more == first + (rest + more);
    }
  }

  // ---- There is an order for every choice -----------------------------------------------------------

  lemma {:induction false} SomeListing(s: set<BeliefId>) returns (order: seq<BeliefId>)
    ensures Listing(order, s)
    decreases |s|
  {
    if s == {} {
      order := [];
    } else {
      var x :| x in s;
      var rest := SomeListing(s - {x});
      order := [x] + rest;
      JoinTraces([x], rest, {x}, s - {x});
      assert {x} + (s - {x}) == s;
    }
  }

  lemma {:induction false} SomeEntry(causal: Proj<CausalEdge>, id: BeliefId, visited: set<BeliefId>)
    returns (trace: seq<BeliefId>)
    requires ValidProj(causal)
    ensures Enters(causal, id, visited, trace)
    decreases Endpoints(Arcs(causal)) + {id} - visited, 0
  {
    if id in visited {
      return [];
    }
    var order := SomeListing(Affected(causal, id));
    forall d | d in order ensures d in Endpoints(Arcs(causal)) {
      assert d in SetOf(order);
      ReachableIsEndpoint(Arcs(causal), id, d);
    }
    var rest := SomeEntries(causal, order, visited + {id});
    trace := [id] + rest;
    assert trace[1..] == rest;
  }

  lemma {:induction false} SomeEntries(causal: Proj<CausalEdge>, ids: seq<BeliefId>, visited: set<BeliefId>)
    returns (trace: seq<BeliefId>)
    requires ValidProj(causal) && forall d :: d in ids ==> d in Endpoints(Arcs(causal))
    ensures EntersAll(causal, ids, visited, trace)
    decreases Endpoints(Arcs(causal)) - visited, 1 + |ids|
  {
    if ids == [] {
      return [];
    }
    hide ValidProj, Enters, Endpoints;
    assert Endpoints(Arcs(causal)) + {ids[0]} - visited == Endpoints(Arcs(causal)) - visited;
    var first := SomeEntry(causal, ids[0], visited);
    var rest := SomeEntries(causal, ids[1..], visited + SetOf(first));
    trace := first + rest;
  }

  /** Any belief downstream can be the one visited right after the changed one. */
  lemma AnyCanBeSecond(causal: Proj<CausalEdge>, changed: BeliefId, b: BeliefId)
    returns (trace: seq<BeliefId>)
    requires ValidProj(causal) && b in Affected(causal, changed)
    ensures IsVisitOrder(causal, changed, trace) && |trace| > 1 && trace[1] == b
  {
    var scope := Affected(causal, changed);
    var others := SomeListing(scope - {b});
    var order := [b] + others;
    JoinTraces([b], others, {b}, scope - {b});
    assert {b} + (scope - {b}) == scope;
    forall d | d in order ensures d in Endpoints(Arcs(causal)) {
      assert d in SetOf(order);
      ReachableIsEndpoint(Arcs(causal), changed, d);
    }
    var first := SomeEntry(causal, b, {changed});
    var rest := SomeEntries(causal, others, {changed} + SetOf(first));
    trace := [changed] + (first + rest);
    assert trace[1..] == first + rest && order[1..] == others && {} + {changed} == {changed};
    assert EntersAll(causal, order, {changed}, first + rest);
  }

  // ---- What a run of visits does --------------------------------------------------------------------

  lemma {:induction false} VisitAllConcat(
    nodes: Arena, causal: Proj<CausalEdge>, s: seq<BeliefId>, t: seq<BeliefId>, decay: Decay)
    ensures VisitAll(nodes, causal, s + t, decay) ==
      VisitAll(VisitAll(nodes, causal, s, decay), causal, t, decay)
    decreases |s|
  {
    if s == [] {
      assert s + t == t;
    } else {
      assert (s + t)[1..] == s[1..] + t;
      VisitAllConcat(Visit(nodes, causal, s[0], decay), causal, s[1..], t, decay);
    }
  }

  /** Only the fast confidence of a visited belief that has an InferredFrom edge can change, and it
      ends in [0, 1]. */
  lemma {:induction false} VisitAllFrame(
    nodes: Arena, causal: Proj<CausalEdge>, trace: seq<BeliefId>, decay: Decay)
    ensures
      var after := VisitAll(nodes, causal, trace, decay);
      && after.Keys == nodes.Keys
      && (forall id :: id in nodes ==> after[id] == nodes[id].(fast := after[id].fast))
      && (forall id :: id in nodes && (id !in trace || InferredFromPremises(causal, id) == []) ==>
            after[id] == nodes[id])
      && (forall id :: id in nodes && id in trace && InferredFromPremises(causal, id) != [] ==>
            0.0 <= after[id].fast <= 1.0)
    decreases |trace|
  {
    if trace != [] {
      assert trace == [trace[0]] + trace[1..];
      VisitAllFrame(Visit(nodes, causal, trace[0], decay), causal, trace[1..], decay);
    }
  }

  /** What a visit is to store: the best evidence of the premises in the arena as it finds it, times the decay
      factor, cut off at 0 and 1. */
  ghost predicate Stores(fast: real, nodes: Arena, causal: Proj<CausalEdge>, id: BeliefId, decay: Decay) {
    var product := Times(BestEvidence(nodes, InferredFromPremises(causal, id)), decay(id));
    && (0.0 <= product <= 1.0 ==> fast == product)
    && (product < 0.0 ==> fast == 0.0) && (product > 1.0 ==> fast == 1.0)
  }

  lemma DerivedStores(nodes: Arena, causal: Proj<CausalEdge>, id: BeliefId, decay: Decay, fast: real)
    ensures fast == Derived(nodes, causal, id, decay) <==> Stores(fast, nodes, causal, id, decay)
  {
    hide Times;
    DiscountIsProduct(BestEvidence(nodes, InferredFromPremises(causal, id)), decay(id));
  }

  lemma PartOfEvidence(evidence: real, factor: real)
    requires 0.0 <= evidence <= 1.0 && 0.0 <= factor <= 1.0
    ensures Times(evidence, factor) == evidence * factor && 0.0 <= Times(evidence, factor) <= 1.0
  {
    TimesFacts(evidence, factor, 0.0);
  }

  /** With a decay factor in [0, 1] nothing is cut off. */
  lemma DecayScales(fast: real, nodes: Arena, causal: Proj<CausalEdge>, id: BeliefId, decay: Decay)
    requires 0.0 <= decay(id) <= 1.0
    ensures Stores(fast, nodes, causal, id, decay)
      <==> fast == BestEvidence(nodes, InferredFromPremises(causal, id)) * decay(id)
  {
    hide BestEvidence, InferredFromPremises, Times;
    PartOfEvidence(BestEvidence(nodes, InferredFromPremises(causal, id)), decay(id));
  }

  /** Every visited live belief with an InferredFrom edge ends at what its premises gave when it was
      visited, and every other belief as it was. */
  lemma FinalConfidence(nodes: Arena, causal: Proj<CausalEdge>, trace: seq<BeliefId>, i: nat, decay: Decay)
    requires Distinct(trace) && i < |trace| && trace[i] in nodes && InferredFromPremises(causal, trace[i]) != []
    ensures
      var (before, after) := (VisitAll(nodes, causal, trace[..i], decay), VisitAll(nodes, causal, trace, decay));
      trace[i] in after && Stores(after[trace[i]].fast, before, causal, trace[i], decay)
  {
    var id, before, rest := trace[i], VisitAll(nodes, causal, trace[..i], decay), trace[i + 1..];
    assert id !in rest;
    VisitAllSplit(nodes, causal, trace, i, decay);
    VisitAllFrame(nodes, causal, trace[..i], decay);
    var mid := Visit(before, causal, id, decay);
    assert id in mid && mid[id].fast == Derived(before, causal, id, decay);
    hide VisitAll, Visit, Derived, Stores;
    VisitAllFrame(mid, causal, rest, decay);
    DerivedStores(before, causal, id, decay, mid[id].fast);
  }

  ghost predicate Confident(nodes: Arena) {
    forall id :: id in nodes ==> 0.0 <= nodes[id].fast <= 1.0
  }

  lemma VisitAllKeepsConfident(
    nodes: Arena, causal: Proj<CausalEdge>, trace: seq<BeliefId>, decay: Decay)
    requires Confident(nodes)
    ensures Confident(VisitAll(nodes, causal, trace, decay))
  {
    VisitAllFrame(nodes, causal, trace, decay);
  }

  // ---- When propagation settles ---------------------------------------------------------------------

  /** A belief is settled exactly when it stores what its premises give now. */
  lemma SettledStores(nodes: Arena, causal: Proj<CausalEdge>, id: BeliefId, decay: Decay)
    ensures Settled(nodes, causal, id, decay) <==>
      InferredFromPremises(causal, id) == [] || id !in nodes || Stores(nodes[id].fast, nodes, causal, id, decay)
  {
    if id in nodes { DerivedStores(nodes, causal, id, decay, nodes[id].fast); }
  }

  /** The belief's confidence is the one its premises now imply. */
  ghost predicate Settled(nodes: Arena, causal: Proj<CausalEdge>, id: BeliefId, decay: Decay) {
    InferredFromPremises(causal, id) == [] || id !in nodes
      || nodes[id].fast == Derived(nodes, causal, id, decay)
  }

  ghost predicate RestsOn(causal: Proj<CausalEdge>, id: BeliefId, premise: BeliefId) {
    exists ps :: ps in InferredFromPremises(causal, id) && premise in ps
  }

  /** The visit at i reads a live premise that the visit at j, not before it, rewrites. */
  ghost predicate ReadsStale(
    live: set<BeliefId>, causal: Proj<CausalEdge>, trace: seq<BeliefId>, i: nat, j: nat)
    requires i < |trace| && j < |trace|
  {
    && i <= j && trace[i] in live && trace[j] in live
    && RestsOn(causal, trace[i], trace[j]) && InferredFromPremises(causal, trace[j]) != []
  }

  /** Every premise that propagation rewrites is visited before the beliefs that rest on it. */
  ghost predicate PremisesFirst(live: set<BeliefId>, causal: Proj<CausalEdge>, trace: seq<BeliefId>) {
    forall i, j :: 0 <= i < |trace| && 0 <= j < |trace| ==> !ReadsStale(live, causal, trace, i, j)
  }

  ghost predicate AllSettled(nodes: Arena, causal: Proj<CausalEdge>, trace: seq<BeliefId>, decay: Decay) {
    forall id :: id in trace ==> Settled(VisitAll(nodes, causal, trace, decay), causal, id, decay)
  }

  /** A visited belief stays settled when later visits change neither it nor its live premises. */
  lemma StaysSettled(
    nodes: Arena, causal: Proj<CausalEdge>, id: BeliefId, after: Arena, decay: Decay)
    requires after.Keys == nodes.Keys
    requires forall p :: p in nodes && (p == id || RestsOn(causal, id, p)) ==>
      after[p] == Visit(nodes, causal, id, decay)[p]
    requires id in nodes ==> !RestsOn(causal, id, id)
    ensures Settled(after, causal, id, decay)
  {
    var lists := InferredFromPremises(causal, id);
    forall ps, p | ps in lists && p in ps
      ensures (p in nodes <==> p in after) && (p in nodes ==> id in nodes ==> nodes[p].fast == after[p].fast)
    {
      assert RestsOn(causal, id, p);
    }
    if id in nodes {
      SamePremisesSameEvidence(nodes, after, lists);
    }
  }

  /** Sufficiency: an order that visits premises first leaves every visited belief settled. */
  lemma {:induction false} PremisesFirstSettles(
    nodes: Arena, causal: Proj<CausalEdge>, trace: seq<BeliefId>, decay: Decay)
    requires Distinct(trace) && PremisesFirst(nodes.Keys, causal, trace)
    ensures AllSettled(nodes, causal, trace, decay)
    decreases |trace|
  {
    if trace != [] {
      var id, rest := trace[0], trace[1..];
      var mid := Visit(nodes, causal, id, decay);
      var after := VisitAll(mid, causal, rest, decay);
      forall i, j | 0 <= i < |rest| && 0 <= j < |rest|
        ensures !ReadsStale(mid.Keys, causal, rest, i, j)
      {
        assert !ReadsStale(nodes.Keys, causal, trace, i + 1, j + 1);
      }
      PremisesFirstSettles(mid, causal, rest, decay);
      FirstStaysSettled(nodes, causal, trace, decay);
      assert forall x :: x in trace ==> x == id || x in rest;
    }
  }

  lemma FirstStaysSettled(nodes: Arena, causal: Proj<CausalEdge>, trace: seq<BeliefId>, decay: Decay)
    requires trace != [] && Distinct(trace) && PremisesFirst(nodes.Keys, causal, trace)
    ensures Settled(VisitAll(nodes, causal, trace, decay), causal, trace[0], decay)
  {
    var id, rest := trace[0], trace[1..];
    var mid := Visit(nodes, causal, id, decay);
    VisitAllFrame(mid, causal, rest, decay);
    if id in nodes {
      assert !ReadsStale(nodes.Keys, causal, trace, 0, 0);
      forall p | p in nodes && (p == id || RestsOn(causal, id, p))
        ensures VisitAll(mid, causal, rest, decay)[p] == mid[p]
      {
        if p in rest {
          var j :| 0 <= j < |rest| && rest[j] == p;
          assert trace[j + 1] == p && p != id;
          assert !ReadsStale(nodes.Keys, causal, trace, 0, j + 1);
        }
      }
      StaysSettled(nodes, causal, id, VisitAll(mid, causal, rest, decay), decay);
    }
  }

  // ---- ... and when it does not -----------------------------------------------------------------------

  lemma TimesBelow(x: real, y: real)
    requires 0.0 < x && 0.0 < y
    ensures 0.0 < Times(x, y)
  {
  }

  /** Premises that all fall short of certainty give evidence short of certainty. */
  lemma {:induction false} UncertainPath(nodes: Arena, ps: seq<BeliefId>)
    requires forall id :: id in nodes ==> nodes[id].fast < 1.0
    ensures 0.0 < Complement(LiveConfidences(nodes, ps))
    decreases |ps|
  {
    if ps != [] {
      UncertainPath(nodes, ps[1..]);
      var rest := LiveConfidences(nodes, ps[1..]);
      if ps[0] in nodes {
        assert ([nodes[ps[0]].fast] + rest)[1..] == rest;
        TimesBelow(1.0 - Clamp01(nodes[ps[0]].fast), Complement(rest));
      }
    }
  }

  lemma UncertainEvidence(nodes: Arena, lists: seq<seq<BeliefId>>)
    requires forall id :: id in nodes ==> nodes[id].fast < 1.0
    ensures BestEvidence(nodes, lists) < 1.0
  {
    BestEvidenceIsMax(nodes, lists);
    if BestEvidence(nodes, lists) != 0.0 {
      var ps :| ps in lists && PathStrength(nodes, ps) == BestEvidence(nodes, lists);
      UncertainPath(nodes, ps);
    }
  }

  /** One certain premise makes a path certain. */
  lemma {:induction false} CertainPath(nodes: Arena, ps: seq<BeliefId>, p: BeliefId)
    requires p in ps && p in nodes && nodes[p].fast == 1.0
    ensures LiveConfidences(nodes, ps) != [] && Complement(LiveConfidences(nodes, ps)) == 0.0
    decreases |ps|
  {
    assert ps == [ps[0]] + ps[1..];
    var rest := LiveConfidences(nodes, ps[1..]);
    if ps[0] in nodes {
      assert ([nodes[ps[0]].fast] + rest)[1..] == rest;
    }
    if ps[0] == p {
      TimesFacts(Complement(rest), 0.0, 0.0);
    } else {
      CertainPath(nodes, ps[1..], p);
    }
  }

  lemma CertainEvidence(nodes: Arena, causal: Proj<CausalEdge>, id: BeliefId, p: BeliefId)
    requires RestsOn(causal, id, p) && p in nodes && nodes[p].fast == 1.0
    ensures BestEvidence(nodes, InferredFromPremises(causal, id)) == 1.0
  {
    var ps :| ps in InferredFromPremises(causal, id) && p in ps;
    CertainPath(nodes, ps, p);
    BestEvidenceIsMax(nodes, InferredFromPremises(causal, id));
  }

  /** With every decay factor one half, rewritten beliefs end at one half or below. */
  lemma {:induction false} HalfBound(nodes: Arena, causal: Proj<CausalEdge>, trace: seq<BeliefId>)
    ensures
      var after := VisitAll(nodes, causal, trace, Half);
      forall id :: id in nodes && id in trace && InferredFromPremises(causal, id) != [] ==>
        id in after && after[id].fast <= 0.5
    decreases |trace|
  {
    if trace != [] {
      var mid := Visit(nodes, causal, trace[0], Half);
      HalfBound(mid, causal, trace[1..]);
      VisitAllFrame(mid, causal, trace[1..], Half);
      assert trace == [trace[0]] + trace[1..];
    }
  }

  function Half(id: BeliefId): real { 0.5 }

  /** The arena in which only the premise read too early is certain, and all else is doubtful. */
  ghost predicate OnlyCertain(nodes: Arena, p: BeliefId) {
    forall id :: id in nodes ==> nodes[id].fast == if id == p then 1.0 else 0.0
  }

  /** Splits a run of visits at one of them. */
  lemma VisitAllSplit(nodes: Arena, causal: Proj<CausalEdge>, trace: seq<BeliefId>, i: nat, decay: Decay)
    requires i < |trace|
    ensures VisitAll(nodes, causal, trace, decay) ==
      VisitAll(Visit(VisitAll(nodes, causal, trace[..i], decay), causal, trace[i], decay),
               causal, trace[i + 1..], decay)
  {
    assert trace == trace[..i] + trace[i..];
    assert trace[i..][1..] == trace[i + 1..];
    VisitAllConcat(nodes, causal, trace[..i], trace[i..], decay);
  }

  /** The visit that reads too early computes one half, and nothing touches the belief afterwards. */
  lemma EarlyRead(nodes: Arena, causal: Proj<CausalEdge>, trace: seq<BeliefId>, i: nat, j: nat)
    requires Distinct(trace) && i < |trace| && j < |trace|
    requires ReadsStale(nodes.Keys, causal, trace, i, j) && OnlyCertain(nodes, trace[j])
    ensures trace[i] in VisitAll(nodes, causal, trace, Half)
    ensures VisitAll(nodes, causal, trace, Half)[trace[i]].fast == 0.5
  {
    var id, p, before, rest := trace[i], trace[j], trace[..i], trace[i + 1..];
    assert p !in before && id !in rest;
    var n1 := VisitAll(nodes, causal, before, Half);
    var n2 := Visit(n1, causal, id, Half);
    VisitAllSplit(nodes, causal, trace, i, Half);
    hide VisitAll, Visit;
    assert n1[p].fast == 1.0 && id in n1 by { VisitAllFrame(nodes, causal, before, Half); }
    CertainVisit(n1, causal, id, p);
    VisitAllFrame(n2, causal, rest, Half);
  }

  lemma CertainVisit(nodes: Arena, causal: Proj<CausalEdge>, id: BeliefId, p: BeliefId)
    requires id in nodes && p in nodes && RestsOn(causal, id, p) && nodes[p].fast == 1.0
    ensures id in Visit(nodes, causal, id, Half) && Visit(nodes, causal, id, Half)[id].fast == 0.5
  {
    CertainEvidence(nodes, causal, id, p);
  }

  /** Necessity: an order that reads a premise before rewriting it can leave a belief unsettled. */
  lemma EarlyReadUnsettles(nodes: Arena, causal: Proj<CausalEdge>, trace: seq<BeliefId>, i: nat, j: nat)
    requires Distinct(trace) && i < |trace| && j < |trace|
    requires ReadsStale(nodes.Keys, causal, trace, i, j) && OnlyCertain(nodes, trace[j])
    ensures !AllSettled(nodes, causal, trace, Half)
  {
    var after := VisitAll(nodes, causal, trace, Half);
    EarlyRead(nodes, causal, trace, i, j);
    VisitAllFrame(nodes, causal, trace, Half);
    HalfBound(nodes, causal, trace);
    forall id | id in after ensures after[id].fast < 1.0 {
      if id == trace[j] { assert id in trace; }
    }
    UncertainEvidence(after, InferredFromPremises(causal, trace[i]));
    assert trace[i] in trace && !Settled(after, causal, trace[i], Half);
  }

  /** For one order: it settles every visited belief, for all confidences on the given ids and all
      decay factors, if and only if it visits each rewritten premise before what rests on it. */
  lemma SettlesIffPremisesFirst(live: set<BeliefId>, causal: Proj<CausalEdge>, trace: seq<BeliefId>)
    requires Distinct(trace)
    ensures PremisesFirst(live, causal, trace) <==>
      forall nodes: Arena, decay: Decay :: nodes.Keys == live ==> AllSettled(nodes, causal, trace, decay)
  {
    if PremisesFirst(live, causal, trace) {
      forall nodes: Arena, decay: Decay | nodes.Keys == live ensures AllSettled(nodes, causal, trace, decay) {
        PremisesFirstSettles(nodes, causal, trace, decay);
      }
    } else {
      var i, j :| 0 <= i < |trace| && 0 <= j < |trace| && ReadsStale(live, causal, trace, i, j);
      var nodes := ArenaOf(live, id => if id == trace[j] then 1.0 else 0.0);
      EarlyReadUnsettles(nodes, causal, trace, i, j);
    }
  }

  /** No live belief within reach of the change rests on a live belief that propagation rewrites too,
      the changed belief itself excepted, which is always visited first. */
  ghost predicate NoRewrittenSupport(live: set<BeliefId>, causal: Proj<CausalEdge>, changed: BeliefId)
    requires ValidProj(causal)
  {
    var scope := Affected(causal, changed) + {changed};
    forall b, p :: b in scope * live && p in scope * live && RestsOn(causal, b, p) ==>
      InferredFromPremises(causal, p) == [] || (p == changed && b != changed)
  }

  lemma NoSupportMeansPremisesFirst(
    live: set<BeliefId>, causal: Proj<CausalEdge>, changed: BeliefId, trace: seq<BeliefId>)
    requires ValidProj(causal) && IsVisitOrder(causal, changed, trace)
    requires NoRewrittenSupport(live, causal, changed)
    ensures PremisesFirst(live, causal, trace)
  {
    VisitOrderVisitsOnce(causal, changed, trace);
    hide ValidProj, IsVisitOrder, Affected, RestsOn, InferredFromPremises;
    forall i, j | 0 <= i < |trace| && 0 <= j < |trace| ensures !ReadsStale(live, causal, trace, i, j) {
      assert trace[i] in SetOf(trace) && trace[j] in SetOf(trace);
    }
  }

  /** A rewritten support within reach is read too early in some order. */
  lemma SomeOrderReadsStale(
    live: set<BeliefId>, causal: Proj<CausalEdge>, changed: BeliefId, b: BeliefId, p: BeliefId)
    returns (trace: seq<BeliefId>)
    requires ValidProj(causal)
    requires b in (Affected(causal, changed) + {changed}) * live
    requires p in (Affected(causal, changed) + {changed}) * live
    requires RestsOn(causal, b, p) && InferredFromPremises(causal, p) != []
    requires p != changed || b == changed
    ensures IsVisitOrder(causal, changed, trace) && !PremisesFirst(live, causal, trace)
  {
    if b == changed {
      trace := SomeEntry(causal, changed, {});
    } else {
      trace := AnyCanBeSecond(causal, changed, b);
    }
    VisitOrderVisitsOnce(causal, changed, trace);
    hide ValidProj, IsVisitOrder, Affected, RestsOn, InferredFromPremises;
    assert p in SetOf(trace);
    var j :| 0 <= j < |trace| && trace[j] == p;
    assert ReadsStale(live, causal, trace, if b == changed then 0 else 1, j);
  }

  /** When propagation reaches a fixed point, told from the graph alone: every order in which the
      recursion can visit settles every visited belief, for all confidences and decay factors, if and
      only if no rewritten belief within reach supports another. */
  lemma PropagationSettlesIff(live: set<BeliefId>, causal: Proj<CausalEdge>, changed: BeliefId)
    requires ValidProj(causal)
    ensures NoRewrittenSupport(live, causal, changed) <==>
      forall trace, nodes: Arena, decay: Decay ::
        IsVisitOrder(causal, changed, trace) && nodes.Keys == live ==> AllSettled(nodes, causal, trace, decay)
  {
    hide ValidProj, IsVisitOrder, AllSettled;
    if NoRewrittenSupport(live, causal, changed) {
      forall trace, nodes: Arena, decay: Decay | IsVisitOrder(causal, changed, trace) && nodes.Keys == live
        ensures AllSettled(nodes, causal, trace, decay)
      {
        NoSupportMeansPremisesFirst(live, causal, changed, trace);
        VisitOrderVisitsOnce(causal, changed, trace);
        PremisesFirstSettles(nodes, causal, trace, decay);
      }
    } else {
      var scope := (Affected(causal, changed) + {changed}) * live;
      var b, p :| b in scope && p in scope && RestsOn(causal, b, p)
        && InferredFromPremises(causal, p) != [] && !(p == changed && b != changed);
      var trace := SomeOrderReadsStale(live, causal, changed, b, p);
      VisitOrderVisitsOnce(causal, changed, trace);
      SettlesIffPremisesFirst(live, causal, trace);
    }
  }

  // ---- When the order matters ------------------------------------------------------------------------

  /** No visited live belief rests on another visited live belief that is rewritten. */
  ghost predicate ReadsNoOther(live: set<BeliefId>, causal: Proj<CausalEdge>, visited: set<BeliefId>) {
    forall b, p :: b in visited * live && p in visited * live && RestsOn(causal, b, p) ==>
      b == p || InferredFromPremises(causal, p) == []
  }

  /** A visit leaves the value of a belief that does not rest on what it rewrites. */
  lemma VisitKeepsDerived(
    nodes: Arena, causal: Proj<CausalEdge>, first: BeliefId, id: BeliefId, decay: Decay)
    requires first in nodes && RestsOn(causal, id, first) ==> InferredFromPremises(causal, first) == []
    ensures Derived(Visit(nodes, causal, first, decay), causal, id, decay) == Derived(nodes, causal, id, decay)
  {
    var lists, mid := InferredFromPremises(causal, id), Visit(nodes, causal, first, decay);
    forall ps, p | ps in lists && p in ps
      ensures (p in nodes <==> p in mid) && (p in nodes ==> nodes[p].fast == mid[p].fast)
    {
      assert RestsOn(causal, id, p);
    }
    SamePremisesSameEvidence(nodes, mid, lists);
  }

  /** Then every visit computes what the first arena implies. */
  lemma {:induction false} VisitsReadStart(
    nodes: Arena, causal: Proj<CausalEdge>, trace: seq<BeliefId>, decay: Decay, id: BeliefId)
    requires Distinct(trace) && ReadsNoOther(nodes.Keys, causal, SetOf(trace))
    requires id in nodes && id in trace && InferredFromPremises(causal, id) != []
    ensures id in VisitAll(nodes, causal, trace, decay)
    ensures VisitAll(nodes, causal, trace, decay)[id].fast == Derived(nodes, causal, id, decay)
    decreases |trace|
  {
    var first, rest := trace[0], trace[1..];
    var mid := Visit(nodes, causal, first, decay);
    assert trace == [first] + rest && first in SetOf(trace) && id in SetOf(trace);
    assert SetOf(rest) <= SetOf(trace);
    if id == first {
      VisitAllFrame(mid, causal, rest, decay);
    } else {
      VisitKeepsDerived(nodes, causal, first, id, decay);
      VisitsReadStart(mid, causal, rest, decay, id);
    }
  }

  lemma OrderIrrelevant(
    nodes: Arena, causal: Proj<CausalEdge>, s: seq<BeliefId>, t: seq<BeliefId>, decay: Decay)
    requires Distinct(s) && Distinct(t) && SetOf(s) == SetOf(t)
    requires ReadsNoOther(nodes.Keys, causal, SetOf(s))
    ensures VisitAll(nodes, causal, s, decay) == VisitAll(nodes, causal, t, decay)
  {
    var a, b := VisitAll(nodes, causal, s, decay), VisitAll(nodes, causal, t, decay);
    VisitAllFrame(nodes, causal, s, decay);
    VisitAllFrame(nodes, causal, t, decay);
    hide VisitAll, ReadsNoOther;
    forall id | id in nodes ensures a[id] == b[id] {
      assert id in s <==> id in SetOf(s);
      assert id in t <==> id in SetOf(t);
      if id in s && InferredFromPremises(causal, id) != [] {
        VisitsReadStart(nodes, causal, s, decay, id);
        VisitsReadStart(nodes, causal, t, decay, id);
      }
    }
  }

  /** The visit that reads in time, after the rewrite, computes less than one half. */
  lemma LateRead(nodes: Arena, causal: Proj<CausalEdge>, trace: seq<BeliefId>, i: nat, j: nat)
    requires Distinct(trace) && j < i < |trace| && trace[i] in nodes && trace[j] in nodes
    requires InferredFromPremises(causal, trace[i]) != [] && InferredFromPremises(causal, trace[j]) != []
    requires OnlyCertain(nodes, trace[j])
    ensures trace[i] in VisitAll(nodes, causal, trace, Half)
    ensures VisitAll(nodes, causal, trace, Half)[trace[i]].fast < 0.5
  {
    var id, before, rest := trace[i], trace[..i], trace[i + 1..];
    assert before[j] == trace[j] && id !in rest;
    VisitAllSplit(nodes, causal, trace, i, Half);
    var n1 := VisitAll(nodes, causal, before, Half);
    var n2 := Visit(n1, causal, id, Half);
    hide VisitAll, Visit, OnlyCertain;
    NoneCertainAfter(nodes, causal, before, trace[j]);
    UncertainVisit(n1, causal, id);
    VisitAllFrame(n2, causal, rest, Half);
  }

  lemma NoneCertainAfter(nodes: Arena, causal: Proj<CausalEdge>, trace: seq<BeliefId>, p: BeliefId)
    requires OnlyCertain(nodes, p) && p in trace && InferredFromPremises(causal, p) != []
    ensures
      var after := VisitAll(nodes, causal, trace, Half);
      after.Keys == nodes.Keys && forall id :: id in after ==> after[id].fast < 1.0
  {
    VisitAllFrame(nodes, causal, trace, Half);
    HalfBound(nodes, causal, trace);
    hide VisitAll;
  }

  lemma UncertainVisit(nodes: Arena, causal: Proj<CausalEdge>, id: BeliefId)
    requires id in nodes && InferredFromPremises(causal, id) != []
    requires forall x :: x in nodes ==> nodes[x].fast < 1.0
    ensures id in Visit(nodes, causal, id, Half) && Visit(nodes, causal, id, Half)[id].fast < 0.5
  {
    UncertainEvidence(nodes, InferredFromPremises(causal, id));
  }

  /** Two orders of the recursion that leave different arenas. */
  lemma OrderMatters(nodes: Arena, causal: Proj<CausalEdge>, changed: BeliefId, b: BeliefId, p: BeliefId)
    returns (s: seq<BeliefId>, t: seq<BeliefId>)
    requires ValidProj(causal) && b in Affected(causal, changed) && p in Affected(causal, changed) && b != p
    requires b in nodes && p in nodes && RestsOn(causal, b, p) && InferredFromPremises(causal, p) != []
    requires OnlyCertain(nodes, p)
    ensures IsVisitOrder(causal, changed, s) && IsVisitOrder(causal, changed, t)
    ensures VisitAll(nodes, causal, s, Half) != VisitAll(nodes, causal, t, Half)
  {
    s := AnyCanBeSecond(causal, changed, b);
    t := AnyCanBeSecond(causal, changed, p);
    VisitOrderVisitsOnce(causal, changed, s);
    VisitOrderVisitsOnce(causal, changed, t);
    hide ValidProj, IsVisitOrder, Affected, VisitAll;
    assert p in SetOf(s) && b in SetOf(t);
    var j :| 0 <= j < |s| && s[j] == p;
    var i :| 0 <= i < |t| && t[i] == b;
    EarlyRead(nodes, causal, s, 1, j);
    LateRead(nodes, causal, t, i, 1);
  }

  /** When propagation is deterministic: all orders of the recursion leave the same arena, for all
      confidences and decay factors, if and only if no live belief downstream of the change rests on
      another one that is rewritten.  The changed belief itself is always visited first. */
  lemma PropagationDeterministicIff(live: set<BeliefId>, causal: Proj<CausalEdge>, changed: BeliefId)
    requires ValidProj(causal)
    ensures ReadsNoOther(live, causal, Affected(causal, changed)) <==>
      forall s, t, nodes: Arena, decay: Decay ::
        IsVisitOrder(causal, changed, s) && IsVisitOrder(causal, changed, t) && nodes.Keys == live ==>
          VisitAll(nodes, causal, s, decay) == VisitAll(nodes, causal, t, decay)
  {
    hide ValidProj, IsVisitOrder, VisitAll, Affected;
    var scope := Affected(causal, changed);
    if ReadsNoOther(live, causal, scope) {
      forall s, t, nodes: Arena, decay: Decay |
        IsVisitOrder(causal, changed, s) && IsVisitOrder(causal, changed, t) && nodes.Keys == live
        ensures VisitAll(nodes, causal, s, decay) == VisitAll(nodes, causal, t, decay)
      {
        OrdersAgree(nodes, causal, changed, s, t, decay);
      }
    } else {
      var b, p :| b in scope * live && p in scope * live && RestsOn(causal, b, p)
        && b != p && InferredFromPremises(causal, p) != [];
      var nodes := ArenaOf(live, id => if id == p then 1.0 else 0.0);
      var s, t := OrderMatters(nodes, causal, changed, b, p);
    }
  }

  lemma OrdersAgree(
    nodes: Arena, causal: Proj<CausalEdge>, changed: BeliefId, s: seq<BeliefId>, t: seq<BeliefId>, decay: Decay)
    requires ValidProj(causal) && ReadsNoOther(nodes.Keys, causal, Affected(causal, changed))
    requires IsVisitOrder(causal, changed, s) && IsVisitOrder(causal, changed, t)
    ensures VisitAll(nodes, causal, s, decay) == VisitAll(nodes, causal, t, decay)
  {
    VisitOrderVisitsOnce(causal, changed, s);
    VisitOrderVisitsOnce(causal, changed, t);
    DownstreamExcludesStart(causal, changed);
    hide ValidProj, IsVisitOrder, Affected, ReadsNoOther, Visit;
    AfterFirst(s, Affected(causal, changed));
    AfterFirst(t, Affected(causal, changed));
    var mid := Visit(nodes, causal, changed, decay);
    assert mid.Keys == nodes.Keys by {
      VisitAllFrame(nodes, causal, [changed], decay);
      assert [changed][1..] == [] && VisitAll(nodes, causal, [changed], decay) == mid;
    }
    OrderIrrelevant(mid, causal, s[1..], t[1..], decay);
  }

  lemma DownstreamExcludesStart(causal: Proj<CausalEdge>, id: BeliefId)
    requires ValidProj(causal)
    ensures id !in Affected(causal, id)
  {
  }

  lemma AfterFirst(trace: seq<BeliefId>, scope: set<BeliefId>)
    requires trace != [] && trace[0] !in scope && Listing(trace, scope + {trace[0]})
    ensures Listing(trace[1..], scope)
  {
    assert trace == [trace[0]] + trace[1..];
    assert forall x :: x in SetOf(trace[1..]) ==> x in SetOf(trace) && x != trace[0];
    assert forall x :: x in scope ==> x in SetOf(trace) && x in trace[1..];
  }

  /** The causal chain 0 -> 1 -> 2, each belief inferred from the one before. */
  ghost predicate IsChain(causal: Proj<CausalEdge>) {
    causal == Proj(map[0 := 0, 1 := 1, 2 := 2], map[0 := 0, 1 := 1, 2 := 2],
                   [Edge(0, 1, InferredFrom([0])), Edge(1, 2, InferredFrom([1]))])
  }

  lemma ChainReach(arcs: seq<Arc<CausalEdge>>)
    requires |arcs| == 2
    requires arcs[0].from == 0 && arcs[0].to == 1 && arcs[1].from == 1 && arcs[1].to == 2
    ensures Downstream(arcs, 0) == {1, 2}
  {
    assert HasArc(arcs, 0, 1) && HasArc(arcs, 1, 2);
    assert Closed(arcs, {0, 1, 2});
    hide HasArc, Reaches, Closed;
    ReachesStep(arcs, 0, 1);
    ReachesStep(arcs, 1, 2);
    ReachesTransitive(arcs, 0, 1, 2);
    forall b | Reaches(arcs, 0, b) ensures b in {0, 1, 2} {
      ClosedContainsReachable(arcs, {0, 1, 2}, 0, b);
    }
  }

  lemma ChainPremises(causal: Proj<CausalEdge>)
    requires IsChain(causal)
    ensures InferredFromPremises(causal, 1) == [[0]] && InferredFromPremises(causal, 2) == [[1]]
  {
    var e0, e1 := causal.edges[0], causal.edges[1];
    assert causal.edges[1..] == [e1] && [e1][1..] == [];
    forall t: Slot ensures PremiseLists([e1], t) == if t == 2 then [[1]] else [] {
      assert PremiseLists([], t) == [];
    }
  }

  lemma ChainArcs(causal: Proj<CausalEdge>)
    requires IsChain(causal)
    ensures ValidProj(causal) && Affected(causal, 0) == {1, 2}
  {
    ChainReach(Arcs(causal));
  }

  /** Unfavourable orders do occur: on the chain the recursion can visit 0, 2, 1, and then it reads
      belief 1 before rewriting it. */
  lemma UnfavourableOrderAllowed(causal: Proj<CausalEdge>)
    requires IsChain(causal)
    ensures ValidProj(causal) && IsVisitOrder(causal, 0, [0, 2, 1])
    ensures !PremisesFirst({0, 1, 2}, causal, [0, 2, 1])
  {
    ChainArcs(causal);
    var trace := AnyCanBeSecond(causal, 0, 2);
    VisitOrderVisitsOnce(causal, 0, trace);
    hide ValidProj, IsVisitOrder, Affected, IsChain;
    OnlyOneLeft(trace);
    ChainReadsEarly(causal);
  }

  lemma ChainReadsEarly(causal: Proj<CausalEdge>)
    requires IsChain(causal)
    ensures ReadsStale({0, 1, 2}, causal, [0, 2, 1], 1, 2)
  {
    ChainPremises(causal);
    assert RestsOn(causal, 2, 1) by { assert [1] in InferredFromPremises(causal, 2) && 1 in [1]; }
  }

  lemma {:induction false} ListingLength(order: seq<BeliefId>, s: set<BeliefId>)
    requires Listing(order, s)
    ensures |order| == |s|
    decreases |order|
  {
    if order == [] {
      assert s == {};
    } else {
      assert order == [order[0]] + order[1..];
      assert SetOf(order[1..]) == s - {order[0]} && order[0] in s;
      ListingLength(order[1..], s - {order[0]});
    }
  }

  lemma OnlyOneLeft(trace: seq<BeliefId>)
    requires Listing(trace, {0, 1, 2}) && |trace| > 1 && trace[0] == 0 && trace[1] == 2
    ensures trace == [0, 2, 1]
  {
    ListingLength(trace, {0, 1, 2});
    assert trace[2] in SetOf(trace);
  }

  // ---- The recursion ----------------------------------------------------------------------------------

  method CollectConfidences(nodes: Arena, lists: seq<seq<BeliefId>>) returns (best: real)
    ensures best == BestEvidence(nodes, lists)
  {
    best := 0.0;
    var i := |lists|;
    while i > 0
      invariant 0 <= i <= |lists|
      invariant best == BestEvidence(nodes, lists[i..])
    {
      i := i - 1;
      assert lists[i..][1..] == lists[i + 1..];
      best := Max(PathStrength(nodes, lists[i]), best);
    }
  }

  method VisitOne(q: BeliefQuad, id: BeliefId, decay: Decay)
    modifies q`nodes
    ensures q.nodes == Visit(old(q.nodes), q.causal.State(), id, decay)
  {
    var lists := InferredFromPremises(q.causal.State(), id);
    if lists != [] {
      var combined := CollectConfidences(q.nodes, lists);
      var confidence := Discounted(combined, decay(id));
      assert confidence == Derived(q.nodes, q.causal.State(), id, decay);
      if id in q.nodes {
        q.nodes := q.nodes[id := q.nodes[id].(fast := confidence)];
      }
    }
  }

  /** The descendants entered so far, what that visited, and the state that it left. */
  ghost predicate Recursing(
    causal: Proj<CausalEdge>, id: BeliefId, visited: set<BeliefId>, before: Arena, decay: Decay,
    rest: set<BeliefId>, order: seq<BeliefId>, tail: seq<BeliefId>, visited': set<BeliefId>, nodes: Arena)
    requires ValidProj(causal)
  {
    && rest <= Affected(causal, id) && Listing(order, Affected(causal, id) - rest)
    && EntersAll(causal, order, visited + {id}, tail)
    && visited' == visited + {id} + SetOf(tail)
    && nodes == VisitAll(Visit(before, causal, id, decay), causal, tail, decay)
  }

  lemma RecursionStarts(
    causal: Proj<CausalEdge>, id: BeliefId, visited: set<BeliefId>, before: Arena, decay: Decay)
    requires ValidProj(causal)
    ensures Recursing(causal, id, visited, before, decay, Affected(causal, id), [], [], visited + {id},
                      Visit(before, causal, id, decay))
  {
  }

  lemma RecursionStep(
    causal: Proj<CausalEdge>, id: BeliefId, visited: set<BeliefId>, before: Arena, decay: Decay,
    rest: set<BeliefId>, order: seq<BeliefId>, tail: seq<BeliefId>, visited': set<BeliefId>, nodes: Arena,
    d: BeliefId, more: seq<BeliefId>)
    requires ValidProj(causal) && d in rest && Enters(causal, d, visited', more)
    requires Recursing(causal, id, visited, before, decay, rest, order, tail, visited', nodes)
    ensures Recursing(causal, id, visited, before, decay, rest - {d}, order + [d], tail + more,
                      visited' + SetOf(more), VisitAll(nodes, causal, more, decay))
  {
    hide ValidProj, Affected, Enters, EntersAll, Visit, VisitAll;
    EntersOneMore(causal, order, visited + {id}, tail, d, more);
    VisitAllConcat(Visit(before, causal, id, decay), causal, tail, more, decay);
    JoinTraces(order, [d], Affected(causal, id) - rest, {d});
    assert Affected(causal, id) - rest + {d} == Affected(causal, id) - (rest - {d});
    SetOfJoin(tail, more);
  }

  lemma RecursionEnds(
    causal: Proj<CausalEdge>, id: BeliefId, visited: set<BeliefId>, before: Arena, decay: Decay,
    order: seq<BeliefId>, tail: seq<BeliefId>, visited': set<BeliefId>, nodes: Arena)
    requires ValidProj(causal) && id !in visited
    requires Recursing(causal, id, visited, before, decay, {}, order, tail, visited', nodes)
    ensures Enters(causal, id, visited, [id] + tail)
    ensures visited' == visited + SetOf([id] + tail) && nodes == VisitAll(before, causal, [id] + tail, decay)
  {
    hide ValidProj, Affected, Visit, EntersAll;
    assert ([id] + tail)[1..] == tail && Affected(causal, id) - {} == Affected(causal, id);
    SetOfJoin([id], tail);
    assert SetOf([id]) == {id};
  }

  /** Visits `id` and, recursively, its descendants in whatever order the set yields them. */
  method PropagateInner(q: BeliefQuad, id: BeliefId, visited: set<BeliefId>, decay: Decay)
    returns (visited': set<BeliefId>, ghost trace: seq<BeliefId>)
    requires q.Separate() && ValidProj(q.causal.State())
    modifies q`nodes
    ensures Enters(q.causal.State(), id, visited, trace)
    ensures visited' == visited + SetOf(trace)
    ensures q.nodes == VisitAll(old(q.nodes), q.causal.State(), trace, decay)
    decreases Endpoints(Arcs(q.causal.State())) + {id} - visited
  {
    if id in visited {
      return visited, [];
    }
    hide Enters, ValidProj, Visit, VisitAll, Recursing;
    ghost var causal, before := q.causal.State(), q.nodes;
    visited' := visited + {id};
    VisitOne(q, id, decay);
    ghost var order, tail: seq<BeliefId> := [], [];
    var rest := DescendantsOf(q.causal, id);
    RecursionStarts(causal, id, visited, before, decay);
    while rest != {}
      invariant rest <= Affected(causal, id) && visited + {id} <= visited'
      invariant Recursing(causal, id, visited, before, decay, rest, order, tail, visited', q.nodes)
      decreases rest
    {
      var d :| d in rest;
      ReachableIsEndpoint(Arcs(causal), id, d);
      ghost var more, seen, now := [], visited', q.nodes;
      visited', more := PropagateInner(q, d, visited', decay);
      RecursionStep(causal, id, visited, before, decay, rest, order, tail, seen, now, d, more);
      order, tail, rest := order + [d], tail + more, rest - {d};
    }
    trace := [id] + tail;
    RecursionEnds(causal, id, visited, before, decay, order, tail, visited', q.nodes);
  }

  /** Termination on every graph, cyclic ones included; each affected belief visited exactly once,
      whatever order the descendant sets are walked in; nothing else changes. */
  method PropagateSystem1(q: BeliefQuad, changed: BeliefId, decay: Decay) returns (ghost trace: seq<BeliefId>)
    requires q.Separate() && ValidProj(q.causal.State())
    modifies q`nodes
    ensures IsVisitOrder(q.causal.State(), changed, trace) && VisitsOnce(q.causal.State(), changed, trace)
    ensures q.State() == old(q.State()).(nodes :=
      VisitAll(old(q.nodes), q.causal.State(), trace, decay))
    ensures forall i :: 0 <= i < |trace| && trace[i] in q.nodes ==>
      if InferredFromPremises(q.causal.State(), trace[i]) == [] then
        trace[i] in old(q.nodes) && q.nodes[trace[i]] == old(q.nodes[trace[i]])
      else
        Stores(q.nodes[trace[i]].fast, VisitAll(old(q.nodes), q.causal.State(), trace[..i], decay),
               q.causal.State(), trace[i], decay)
  {
    ghost var start, causal := q.nodes, q.causal.State();
    var visited;
    visited, trace := PropagateInner(q, changed, {}, decay);
    VisitOrderVisitsOnce(q.causal.State(), changed, trace);
    VisitAllFrame(start, causal, trace, decay);
    hide VisitAll, Stores, IsVisitOrder, ValidProj;
    forall i | 0 <= i < |trace| && trace[i] in q.nodes && InferredFromPremises(causal, trace[i]) != []
      ensures Stores(q.nodes[trace[i]].fast, VisitAll(start, causal, trace[..i], decay), causal, trace[i], decay)
    {
      FinalConfidence(start, causal, trace, i, decay);
    }
  }
}
