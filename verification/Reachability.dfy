/** Reachability along causal arcs, and the depth-first search that computes it. */
module Reachability {
  import opened Sequences
  import opened Projections

  // ---- Paths ----------------------------------------------------------------------------------

  ghost predicate HasArc<W>(arcs: seq<Arc<W>>, a: BeliefId, b: BeliefId) {
    exists k :: 0 <= k < |arcs| && arcs[k].from == a && arcs[k].to == b
  }

  ghost predicate IsPath<W>(arcs: seq<Arc<W>>, path: seq<BeliefId>) {
    |path| > 0 && forall i :: 0 <= i < |path| - 1 ==> HasArc(arcs, path[i], path[i + 1])
  }

  ghost predicate PathBetween<W>(arcs: seq<Arc<W>>, path: seq<BeliefId>, a: BeliefId, b: BeliefId) {
    IsPath(arcs, path) && path[0] == a && path[|path| - 1] == b
  }

  /** Reachable in any number of steps, none included. */
  ghost predicate Reaches<W>(arcs: seq<Arc<W>>, a: BeliefId, b: BeliefId) {
    exists path :: PathBetween(arcs, path, a, b)
  }

  lemma ReachesSelf<W>(arcs: seq<Arc<W>>, a: BeliefId)
    ensures Reaches(arcs, a, a)
  {
    assert PathBetween(arcs, [a], a, a);
  }

  lemma ReachesTransitive<W>(arcs: seq<Arc<W>>, a: BeliefId, b: BeliefId, c: BeliefId)
    requires Reaches(arcs, a, b) && Reaches(arcs, b, c)
    ensures Reaches(arcs, a, c)
  {
    var p :| PathBetween(arcs, p, a, b);
    var q :| PathBetween(arcs, q, b, c);
    var r := p + q[1..];
    forall i | 0 <= i < |r| - 1 ensures HasArc(arcs, r[i], r[i + 1]) {
      if i >= |p| - 1 {
        assert HasArc(arcs, q[i - (|p| - 1)], q[i - (|p| - 1) + 1]);
      }
    }
    assert PathBetween(arcs, r, a, c);
  }

  lemma ReachesStep<W>(arcs: seq<Arc<W>>, a: BeliefId, b: BeliefId)
    requires HasArc(arcs, a, b)
    ensures Reaches(arcs, a, b)
  {
    assert PathBetween(arcs, [a, b], a, b);
  }

  ghost predicate Closed<W>(arcs: seq<Arc<W>>, s: set<BeliefId>) {
    forall k :: 0 <= k < |arcs| && arcs[k].from in s ==> arcs[k].to in s
  }

  lemma {:induction false} PathStaysIn<W>(arcs: seq<Arc<W>>, s: set<BeliefId>, path: seq<BeliefId>, i: nat)
    requires Closed(arcs, s) && IsPath(arcs, path) && path[0] in s && i < |path|
    ensures path[i] in s
    decreases i
  {
    if i > 0 {
      PathStaysIn(arcs, s, path, i - 1);
      assert HasArc(arcs, path[i - 1], path[i - 1 + 1]);
    }
  }

  lemma ClosedContainsReachable<W>(arcs: seq<Arc<W>>, s: set<BeliefId>, a: BeliefId, b: BeliefId)
    requires Closed(arcs, s) && a in s && Reaches(arcs, a, b)
    ensures b in s
  {
    var path :| PathBetween(arcs, path, a, b);
    PathStaysIn(arcs, s, path, |path| - 1);
  }

  /** The beliefs that arcs run into or out of. */
  ghost function Endpoints<W>(arcs: seq<Arc<W>>): (s: set<BeliefId>)
    ensures forall k :: 0 <= k < |arcs| ==> arcs[k].from in s && arcs[k].to in s
  {
    (set k | 0 <= k < |arcs| :: arcs[k].from) + (set k | 0 <= k < |arcs| :: arcs[k].to)
  }

  lemma ReachableIsEndpoint<W>(arcs: seq<Arc<W>>, a: BeliefId, b: BeliefId)
    requires Reaches(arcs, a, b) && a != b
    ensures a in Endpoints(arcs) && b in Endpoints(arcs)
  {
    var path :| PathBetween(arcs, path, a, b);
    assert HasArc(arcs, path[0], path[0 + 1]);
    assert HasArc(arcs, path[|path| - 2], path[|path| - 2 + 1]);
  }

  /** Everything reachable from `a` but `a` itself, also when `a` lies on a cycle. */
  ghost function Downstream<W>(arcs: seq<Arc<W>>, a: BeliefId): (s: set<BeliefId>)
    ensures forall b :: b in s <==> b != a && Reaches(arcs, a, b)
  {
    forall b | b != a && Reaches(arcs, a, b) ensures b in Endpoints(arcs) {
      ReachableIsEndpoint(arcs, a, b);
    }
    set b | b in Endpoints(arcs) && b != a && Reaches(arcs, a, b)
  }

  // ---- Reversal ---------------------------------------------------------------------------------

  function Reverse<W>(arcs: seq<Arc<W>>): (rev: seq<Arc<W>>)
    ensures |rev| == |arcs|
    ensures forall k :: 0 <= k < |arcs| ==> rev[k] == Arc(arcs[k].to, arcs[k].from, arcs[k].weight)
  {
    seq(|arcs|, k requires 0 <= k < |arcs| => Arc(arcs[k].to, arcs[k].from, arcs[k].weight))
  }

  ghost function Upstream<W>(arcs: seq<Arc<W>>, a: BeliefId): set<BeliefId> {
    Downstream(Reverse(arcs), a)
  }

  lemma ReachesBackwards<W>(arcs: seq<Arc<W>>, a: BeliefId, b: BeliefId)
    requires Reaches(arcs, a, b)
    ensures Reaches(Reverse(arcs), b, a)
  {
    var path :| PathBetween(arcs, path, a, b);
    var n := |path|;
    var back := seq(n, i requires 0 <= i < n => path[n - 1 - i]);
    forall i | 0 <= i < n - 1 ensures HasArc(Reverse(arcs), back[i], back[i + 1]) {
      assert HasArc(arcs, path[n - 2 - i], path[n - 2 - i + 1]);
      var k :| 0 <= k < |arcs| && arcs[k].from == path[n - 2 - i] && arcs[k].to == path[n - 1 - i];
      assert Reverse(arcs)[k].from == back[i] && Reverse(arcs)[k].to == back[i + 1];
    }
    assert PathBetween(Reverse(arcs), back, b, a);
  }

  /** Descendants and ancestors are dual. */
  lemma DescendantIffAncestor<W>(arcs: seq<Arc<W>>, a: BeliefId, b: BeliefId)
    ensures b in Downstream(arcs, a) <==> a in Upstream(arcs, b)
  {
    if Reaches(arcs, a, b) { ReachesBackwards(arcs, a, b); }
    if Reaches(Reverse(arcs), b, a) {
      ReachesBackwards(Reverse(arcs), b, a);
      assert Reverse(Reverse(arcs)) == arcs;
    }
  }

  // ---- Downstream sets nest ------------------------------------------------------------------------

  lemma DownstreamNests<W>(arcs: seq<Arc<W>>, a: BeliefId, d: BeliefId)
    requires d in Downstream(arcs, a)
    ensures Downstream(arcs, d) <= Downstream(arcs, a) + {a}
  {
    forall x | x in Downstream(arcs, d) ensures x in Downstream(arcs, a) + {a} {
      ReachesTransitive(arcs, a, d, x);
    }
  }

  lemma DownstreamClosed<W>(arcs: seq<Arc<W>>, a: BeliefId)
    ensures Closed(arcs, Downstream(arcs, a) + {a})
  {
    ReachesSelf(arcs, a);
    forall k | 0 <= k < |arcs| && arcs[k].from in Downstream(arcs, a) + {a}
      ensures arcs[k].to in Downstream(arcs, a) + {a}
    {
      assert HasArc(arcs, arcs[k].from, arcs[k].to);
      ReachesStep(arcs, arcs[k].from, arcs[k].to);
      ReachesTransitive(arcs, a, arcs[k].from, arcs[k].to);
    }
  }

  // ---- Depth-first search ---------------------------------------------------------------------------

  function Successors<W>(edges: seq<Edge<W>>, s: Slot): (next: seq<Slot>)
    ensures forall t :: t in next <==> exists e :: e in edges && e.src == s && e.dst == t
  {
    if edges == [] then []
    else
      var rest := Successors(edges[1..], s);
      assert edges == [edges[0]] + edges[1..];
      if edges[0].src == s then [edges[0].dst] + rest else rest
  }

  ghost predicate Explored<W>(p: Proj<W>, start: BeliefId, discovered: set<Slot>, pending: seq<Slot>)
    requires ValidProj(p)
  {
    && (forall s :: s in discovered || s in pending ==>
          s in p.slots && Reaches(Arcs(p), start, p.slots[s]))
    && (forall e :: e in p.edges && e.src in discovered ==> e.dst in discovered || e.dst in pending)
  }

  /** What holds between two pops: the search state, and the visits so far in order. */
  ghost predicate Searching<W>(
    p: Proj<W>, start: BeliefId, discovered: set<Slot>, stack: seq<Slot>, order: seq<Slot>)
    requires ValidProj(p) && start in p.indices
  {
    && Explored(p, start, discovered, stack)
    && (forall s :: s in discovered <==> s in order)
    && Distinct(order)
    && (order == [] ==> stack == [p.indices[start]])
    && (order != [] ==> order[0] == p.indices[start])
  }

  lemma SearchSkips<W>(
    p: Proj<W>, start: BeliefId, discovered: set<Slot>, stack: seq<Slot>, order: seq<Slot>)
    requires ValidProj(p) && start in p.indices && Searching(p, start, discovered, stack, order)
    requires stack != [] && stack[|stack| - 1] in discovered
    ensures Searching(p, start, discovered, stack[..|stack| - 1], order)
  {
    assert stack == stack[..|stack| - 1] + [stack[|stack| - 1]];
  }

  lemma SearchVisits<W>(
    p: Proj<W>, start: BeliefId, discovered: set<Slot>, stack: seq<Slot>, order: seq<Slot>)
    requires ValidProj(p) && start in p.indices && Searching(p, start, discovered, stack, order)
    requires stack != [] && stack[|stack| - 1] !in discovered
    ensures
      var node := stack[|stack| - 1];
      && node in p.slots.Keys - discovered
      && Searching(p, start, discovered + {node},
           stack[..|stack| - 1] + Unseen(Successors(p.edges, node), discovered + {node}), order + [node])
  {
    var node := stack[|stack| - 1];
    assert stack == stack[..|stack| - 1] + [node];
    SearchStep(p, start, discovered, stack[..|stack| - 1], node);
  }

  lemma SearchStarts<W>(p: Proj<W>, start: BeliefId)
    requires ValidProj(p) && start in p.indices
    ensures Searching(p, start, {}, [p.indices[start]], [])
  {
    ReachesSelf(Arcs(p), start);
  }

  lemma SearchEnds<W>(p: Proj<W>, start: BeliefId, discovered: set<Slot>, order: seq<Slot>)
    requires ValidProj(p) && start in p.indices && Searching(p, start, discovered, [], order)
    ensures |order| > 0 && order[0] == p.indices[start]
    ensures Distinct(order)
    ensures forall s :: s in order ==> s in p.slots
    ensures forall s :: s in p.slots ==> (s in order <==> Reaches(Arcs(p), start, p.slots[s]))
  {
    assert order[0] in order;
    SearchComplete(p, start, discovered);
  }

  /** Pops a slot, skips it when seen before, and otherwise pushes its unseen successors.  `order` is
      the order of the visits. */
  method Search<W>(p: Proj<W>, start: BeliefId) returns (order: seq<Slot>)
    requires ValidProj(p) && start in p.indices
    ensures |order| > 0 && order[0] == p.indices[start]
    ensures Distinct(order)
    ensures forall s :: s in order ==> s in p.slots
    ensures forall s :: s in p.slots ==> (s in order <==> Reaches(Arcs(p), start, p.slots[s]))
  {
    hide Searching, ValidProj;
    SearchStarts(p, start);
    var stack := [p.indices[start]];
    var discovered: set<Slot> := {};
    order := [];
    while stack != []
      invariant Searching(p, start, discovered, stack, order)
      decreases p.slots.Keys - discovered, |stack|
    {
      var node := stack[|stack| - 1];
      if node in discovered {
        SearchSkips(p, start, discovered, stack, order);
        stack := stack[..|stack| - 1];
      } else {
        SearchVisits(p, start, discovered, stack, order);
        discovered := discovered + {node};
        stack := stack[..|stack| - 1] + Unseen(Successors(p.edges, node), discovered);
        order := order + [node];
      }
    }
    SearchEnds(p, start, discovered, order);
  }

  function Unseen(next: seq<Slot>, discovered: set<Slot>): (r: seq<Slot>)
    ensures forall s :: s in r <==> s in next && s !in discovered
  {
    if next == [] then []
    else
      var rest := Unseen(next[1..], discovered);
      assert next == [next[0]] + next[1..];
      if next[0] in discovered then rest else [next[0]] + rest
  }

  lemma SearchStep<W>(p: Proj<W>, start: BeliefId, discovered: set<Slot>, stack: seq<Slot>, node: Slot)
    requires ValidProj(p) && Explored(p, start, discovered, stack + [node])
    ensures Explored(p, start, discovered + {node},
                     stack + Unseen(Successors(p.edges, node), discovered + {node}))
  {
    var unseen := Unseen(Successors(p.edges, node), discovered + {node});
    assert node in stack + [node];
    forall s | s in unseen ensures s in p.slots && Reaches(Arcs(p), start, p.slots[s]) {
      var e :| e in p.edges && e.src == node && e.dst == s;
      var k :| 0 <= k < |p.edges| && p.edges[k] == e;
      assert Arcs(p)[k] == Arc(p.slots[node], p.slots[s], e.weight);
      assert HasArc(Arcs(p), p.slots[node], p.slots[s]);
      ReachesStep(Arcs(p), p.slots[node], p.slots[s]);
      ReachesTransitive(Arcs(p), start, p.slots[node], p.slots[s]);
    }
    forall e | e in p.edges && e.src in discovered + {node}
      ensures e.dst in discovered + {node} || e.dst in stack + unseen
    {
      if e.src == node {
        assert e.dst in Successors(p.edges, node);
      } else {
        assert e.dst in discovered || e.dst in stack + [node];
      }
    }
  }

  lemma SearchComplete<W>(p: Proj<W>, start: BeliefId, discovered: set<Slot>)
    requires ValidProj(p) && start in p.indices && p.indices[start] in discovered
    requires Explored(p, start, discovered, [])
    ensures forall s :: s in p.slots && Reaches(Arcs(p), start, p.slots[s]) ==> s in discovered
  {
    var ids := set s | s in discovered :: p.slots[s];
    forall k | 0 <= k < |Arcs(p)| && Arcs(p)[k].from in ids ensures Arcs(p)[k].to in ids {
      var e := p.edges[k];
      assert e in p.edges && e.src in discovered;
    }
    forall s | s in p.slots && Reaches(Arcs(p), start, p.slots[s]) ensures s in discovered {
      ClosedContainsReachable(Arcs(p), ids, start, p.slots[s]);
    }
  }

  /** Collects the ids of the visited slots, the first visit skipped. */
  method CollectAfterStart<W>(p: Proj<W>, start: BeliefId, order: seq<Slot>) returns (result: set<BeliefId>)
    requires ValidProj(p) && start in p.indices && |order| > 0 && order[0] == p.indices[start]
    requires Distinct(order)
    requires forall s :: s in order ==> s in p.slots
    requires forall s :: s in p.slots ==> (s in order <==> Reaches(Arcs(p), start, p.slots[s]))
    ensures result == Downstream(Arcs(p), start)
  {
    result := {};
    var i := 1;
    while i < |order|
      invariant 1 <= i <= |order|
      invariant result == set k | 1 <= k < i :: p.slots[order[k]]
    {
      assert order[i] in order;
      result := result + {p.slots[order[i]]};
      i := i + 1;
    }
    forall b | b in Downstream(Arcs(p), start) ensures b in result {
      ReachableIsEndpoint(Arcs(p), start, b);
      var s := p.indices[b];
      assert s in order;
      var k :| 0 <= k < |order| && order[k] == s;
      assert k != 0;
    }
    forall b | b in result ensures b in Downstream(Arcs(p), start) {
      var k :| 1 <= k < |order| && p.slots[order[k]] == b;
      assert order[k] in order && order[0] != order[k];
    }
  }

  /** The causal descendants of a belief: exactly the reachable set without the belief itself. */
  method DescendantsOf<W>(g: Projection<W>, id: BeliefId) returns (result: set<BeliefId>)
    requires ValidProj(g.State())
    ensures result == if id in g.indices then Downstream(Arcs(g.State()), id) else {}
  {
    if id !in g.indices {
      return {};
    }
    var order := Search(g.State(), id);
    result := CollectAfterStart(g.State(), id, order);
  }

  /** The projection with every edge turned around. */
  function Reversed<W>(p: Proj<W>): Proj<W> {
    p.(edges := seq(|p.edges|, i requires 0 <= i < |p.edges| =>
      Edge(p.edges[i].dst, p.edges[i].src, p.edges[i].weight)))
  }

  lemma ReversedArcs<W>(p: Proj<W>)
    requires ValidProj(p)
    ensures ValidProj(Reversed(p)) && Arcs(Reversed(p)) == Reverse(Arcs(p))
  {
    var r := Reversed(p);
    forall e | e in r.edges ensures e.src in r.slots && e.dst in r.slots {
      var k :| 0 <= k < |r.edges| && r.edges[k] == e;
      assert p.edges[k] in p.edges;
    }
  }

  method AncestorsOf<W>(g: Projection<W>, id: BeliefId) returns (result: set<BeliefId>)
    requires ValidProj(g.State())
    ensures result == if id in g.indices then Upstream(Arcs(g.State()), id) else {}
  {
    if id !in g.indices {
      return {};
    }
    ReversedArcs(g.State());
    var order := Search(Reversed(g.State()), id);
    result := CollectAfterStart(Reversed(g.State()), id, order);
  }
}
