/** PageRank centrality of a belief in the causal graph, over the reals.

    `order` is the order in which the id-to-slot map yields its slots.  OrderIrrelevant shows that
    the ranks do not depend on it. */
module PageRank {
  import opened Sequences
  import opened Projections
  import opened Reachability

  const ITERATIONS: nat := 20

  type Rank = map<Slot, real>

  // ---- Arithmetic kept out of the proofs ---------------------------------------------------------------

  /** The part of the rank that travels along edges (damping factor 0.85). */
  function Damped(x: real): real { 0.85 * x }

  const TELEPORT: real := 0.15

  function Share(mass: real, parts: nat): real
    requires parts > 0
  {
    mass / parts as real
  }

  ghost function Times(n: nat, x: real): real {
    if n == 0 then 0.0 else x + Times(n - 1, x)
  }

  lemma {:induction false} TimesIsProduct(n: nat, x: real)
    ensures Times(n, x) == n as real * x
    decreases n
  {
    if n > 0 {
      TimesIsProduct(n - 1, x);
      assert n as real * x == (n - 1) as real * x + x;
    }
  }

  lemma SharesAddUp(mass: real, parts: nat)
    requires parts > 0
    ensures Times(parts, Share(mass, parts)) == mass
  {
    TimesIsProduct(parts, Share(mass, parts));
  }

  lemma ShareSign(mass: real, parts: nat)
    requires parts > 0 && mass >= 0.0
    ensures Share(mass, parts) >= 0.0
  {
  }

  lemma ShareMonotone(a: real, b: real, parts: nat)
    requires parts > 0 && a <= b
    ensures Share(a, parts) <= Share(b, parts)
  {
  }

  // ---- The graph as the walk sees it -------------------------------------------------------------------

  ghost predicate IsOrder<W>(p: Proj<W>, order: seq<Slot>) {
    Distinct(order) && forall s :: s in p.slots <==> s in order
  }

  /** For each slot the slots that it feeds: one entry an edge, or every slot when it is dangling. */
  type Feeds = map<Slot, seq<Slot>>

  ghost predicate WellFed(f: Feeds) {
    forall s :: s in f ==> f[s] != [] && forall t :: t in f[s] ==> t in f
  }

  function FeedsOf<W>(p: Proj<W>, order: seq<Slot>): Feeds {
    map s | s in p.slots :: var out := Successors(p.edges, s); if out == [] then order else out
  }

  lemma FeedsAreLive<W>(p: Proj<W>, order: seq<Slot>)
    requires ValidProj(p) && IsOrder(p, order)
    ensures WellFed(FeedsOf(p, order))
  {
    forall s | s in p.slots ensures FeedsOf(p, order)[s] != [] {
      assert s in order;
    }
  }

  // ---- One iteration as functions --------------------------------------------------------------------

  function AddToEach(next: Rank, targets: seq<Slot>, share: real): (r: Rank)
    requires forall t :: t in targets ==> t in next
    ensures r.Keys == next.Keys
    decreases |targets|
  {
    if targets == [] then next
    else
      assert targets == [targets[0]] + targets[1..];
      AddToEach(next[targets[0] := next[targets[0]] + share], targets[1..], share)
  }

  function Outflow(f: Feeds, rank: Rank, src: Slot): real
    requires WellFed(f) && rank.Keys == f.Keys && src in f
  {
    Share(Damped(rank[src]), |f[src]|)
  }

  function Distribute(f: Feeds, rank: Rank, next: Rank, srcs: seq<Slot>): (r: Rank)
    requires WellFed(f) && next.Keys == f.Keys == rank.Keys
    requires forall s :: s in srcs ==> s in f
    ensures r.Keys == f.Keys
    decreases |srcs|
  {
    if srcs == [] then next
    else
      assert srcs == [srcs[0]] + srcs[1..];
      Distribute(f, rank, AddToEach(next, f[srcs[0]], Outflow(f, rank, srcs[0])), srcs[1..])
  }

  function Uniform(f: Feeds, x: real): Rank {
    map s | s in f :: x
  }

  function Step(f: Feeds, order: seq<Slot>, rank: Rank): (r: Rank)
    requires WellFed(f) && order != [] && rank.Keys == f.Keys
    requires forall s :: s in order ==> s in f
    ensures r.Keys == f.Keys
  {
    Distribute(f, rank, Uniform(f, Share(TELEPORT, |order|)), order)
  }

  function Iterate(f: Feeds, order: seq<Slot>, k: nat): (r: Rank)
    requires WellFed(f) && order != []
    requires forall s :: s in order ==> s in f
    ensures r.Keys == f.Keys
    decreases k
  {
    if k == 0 then Uniform(f, Share(1.0, |order|)) else Step(f, order, Iterate(f, order, k - 1))
  }

  ghost function RankAfter<W>(p: Proj<W>, order: seq<Slot>, k: nat): (r: Rank)
    requires ValidProj(p) && IsOrder(p, order) && order != []
    ensures r.Keys == p.slots.Keys
  {
    FeedsAreLive(p, order);
    Iterate(FeedsOf(p, order), order, k)
  }

  // ---- Total mass --------------------------------------------------------------------------------------

  ghost function Total(rank: Rank, order: seq<Slot>): real
    requires forall s :: s in order ==> s in rank
    decreases |order|
  {
    if order == [] then 0.0
    else
      assert order == [order[0]] + order[1..];
      rank[order[0]] + Total(rank, order[1..])
  }

  lemma {:induction false} TotalUpdate(rank: Rank, order: seq<Slot>, k: Slot, v: real)
    requires (forall s :: s in order ==> s in rank) && Distinct(order) && k in rank
    ensures Total(rank[k := v], order) == Total(rank, order) + if k in order then v - rank[k] else 0.0
    decreases |order|
  {
    if order != [] {
      assert order == [order[0]] + order[1..];
      TotalUpdate(rank, order[1..], k, v);
    }
  }

  lemma {:induction false} TotalAddToEach(next: Rank, targets: seq<Slot>, share: real, order: seq<Slot>)
    requires forall t :: t in targets ==> t in next && t in order
    requires (forall s :: s in order ==> s in next) && Distinct(order)
    ensures Total(AddToEach(next, targets, share), order) == Total(next, order) + Times(|targets|, share)
    decreases |targets|
  {
    if targets != [] {
      assert targets == [targets[0]] + targets[1..];
      TotalUpdate(next, order, targets[0], next[targets[0]] + share);
      TotalAddToEach(next[targets[0] := next[targets[0]] + share], targets[1..], share, order);
    }
  }

  ghost predicate Lists(order: seq<Slot>, f: Feeds) {
    Distinct(order) && forall s :: s in order <==> s in f
  }

  lemma {:induction false} TotalDistribute(
    f: Feeds, order: seq<Slot>, rank: Rank, next: Rank, srcs: seq<Slot>)
    requires WellFed(f) && Lists(order, f) && next.Keys == f.Keys == rank.Keys
    requires forall s :: s in srcs ==> s in f
    ensures Total(Distribute(f, rank, next, srcs), order) == Total(next, order) + Damped(Total(rank, srcs))
    decreases |srcs|
  {
    if srcs != [] {
      var src := srcs[0];
      assert srcs == [src] + srcs[1..];
      var mid := AddToEach(next, f[src], Outflow(f, rank, src));
      TotalAddToEach(next, f[src], Outflow(f, rank, src), order);
      SharesAddUp(Damped(rank[src]), |f[src]|);
      TotalDistribute(f, order, rank, mid, srcs[1..]);
    }
  }

  lemma {:induction false} TotalUniform(rank: Rank, order: seq<Slot>, c: real)
    requires forall s :: s in order ==> s in rank && rank[s] == c
    ensures Total(rank, order) == Times(|order|, c)
    decreases |order|
  {
    if order != [] {
      assert order == [order[0]] + order[1..];
      TotalUniform(rank, order[1..], c);
    }
  }

  // ---- Bounds --------------------------------------------------------------------------------------------

  ghost predicate AtLeast(rank: Rank, low: real) {
    forall s :: s in rank ==> rank[s] >= low
  }

  lemma AtLeastLess(rank: Rank, high: real, low: real)
    requires AtLeast(rank, high) && low <= high
    ensures AtLeast(rank, low)
  {
  }

  lemma {:induction false} AddToEachAtLeast(next: Rank, targets: seq<Slot>, share: real, low: real)
    requires forall t :: t in targets ==> t in next
    requires AtLeast(next, low) && share >= 0.0
    ensures AtLeast(AddToEach(next, targets, share), low)
    decreases |targets|
  {
    if targets != [] {
      assert targets == [targets[0]] + targets[1..];
      AddToEachAtLeast(next[targets[0] := next[targets[0]] + share], targets[1..], share, low);
    }
  }

  lemma {:induction false} DistributeAtLeast(f: Feeds, rank: Rank, next: Rank, srcs: seq<Slot>, low: real)
    requires WellFed(f) && next.Keys == f.Keys == rank.Keys
    requires forall s :: s in srcs ==> s in f
    requires AtLeast(rank, 0.0) && AtLeast(next, low)
    ensures AtLeast(Distribute(f, rank, next, srcs), low)
    decreases |srcs|
  {
    if srcs != [] {
      var src := srcs[0];
      assert srcs == [src] + srcs[1..];
      ShareSign(Damped(rank[src]), |f[src]|);
      AddToEachAtLeast(next, f[src], Outflow(f, rank, src), low);
      DistributeAtLeast(f, rank, AddToEach(next, f[src], Outflow(f, rank, src)), srcs[1..], low);
    }
  }

  lemma {:induction false} PartAtMostTotal(rank: Rank, order: seq<Slot>, s: Slot)
    requires (forall t :: t in order ==> t in rank) && AtLeast(rank, 0.0)
    ensures Total(rank, order) >= 0.0
    ensures s in order ==> rank[s] <= Total(rank, order)
    decreases |order|
  {
    if order != [] {
      assert order == [order[0]] + order[1..];
      PartAtMostTotal(rank, order[1..], s);
    }
  }

  lemma StepConserves(f: Feeds, order: seq<Slot>, rank: Rank)
    requires WellFed(f) && Lists(order, f) && order != [] && rank.Keys == f.Keys
    requires AtLeast(rank, 0.0) && Total(rank, order) == 1.0
    ensures Total(Step(f, order, rank), order) == 1.0
    ensures AtLeast(Step(f, order, rank), Share(TELEPORT, |order|))
  {
    var low := Share(TELEPORT, |order|);
    var base := Uniform(f, low);
    TotalUniform(base, order, low);
    SharesAddUp(TELEPORT, |order|);
    TotalDistribute(f, order, rank, base, order);
    DistributeAtLeast(f, rank, base, order, low);
  }

  lemma StartConserves(f: Feeds, order: seq<Slot>)
    requires WellFed(f) && Lists(order, f) && order != []
    ensures Total(Uniform(f, Share(1.0, |order|)), order) == 1.0
    ensures AtLeast(Uniform(f, Share(1.0, |order|)), Share(TELEPORT, |order|))
  {
    TotalUniform(Uniform(f, Share(1.0, |order|)), order, Share(1.0, |order|));
    SharesAddUp(1.0, |order|);
    ShareMonotone(TELEPORT, 1.0, |order|);
  }

  lemma {:induction false} IterateConserves(f: Feeds, order: seq<Slot>, k: nat)
    requires WellFed(f) && Lists(order, f) && order != []
    ensures Total(Iterate(f, order, k), order) == 1.0
    ensures AtLeast(Iterate(f, order, k), Share(TELEPORT, |order|))
    decreases k
  {
    hide Step, Total, AtLeast, WellFed;
    if k == 0 {
      StartConserves(f, order);
    } else {
      IterateConserves(f, order, k - 1);
      ShareSign(TELEPORT, |order|);
      AtLeastLess(Iterate(f, order, k - 1), Share(TELEPORT, |order|), 0.0);
      StepConserves(f, order, Iterate(f, order, k - 1));
    }
  }

  /** Mass conservation: on every graph, with parallel edges, self-loops and dangling nodes, the
      ranks add up to exactly one after every iteration, and each lies in [0.15 / n, 1]. */
  lemma MassConserved<W>(p: Proj<W>, order: seq<Slot>, k: nat)
    requires ValidProj(p) && IsOrder(p, order) && order != []
    ensures Total(RankAfter(p, order, k), order) == 1.0
    ensures forall s :: s in p.slots ==> Share(TELEPORT, |order|) <= RankAfter(p, order, k)[s] <= 1.0
  {
    FeedsAreLive(p, order);
    IterateConserves(FeedsOf(p, order), order, k);
    ShareSign(TELEPORT, |order|);
    forall s | s in p.slots ensures RankAfter(p, order, k)[s] <= 1.0 {
      PartAtMostTotal(RankAfter(p, order, k), order, s);
    }
  }

  // ---- The order of iteration does not matter ----------------------------------------------------------

  ghost function Received(f: Feeds, rank: Rank, src: Slot, t: Slot): real
    requires WellFed(f) && rank.Keys == f.Keys && src in f
  {
    Times(multiset(f[src])[t], Outflow(f, rank, src))
  }

  ghost function Inflow(f: Feeds, rank: Rank, srcs: seq<Slot>, t: Slot): real
    requires WellFed(f) && rank.Keys == f.Keys
    requires forall s :: s in srcs ==> s in f
    decreases |srcs|
  {
    if srcs == [] then 0.0
    else
      assert srcs == [srcs[0]] + srcs[1..];
      Received(f, rank, srcs[0], t) + Inflow(f, rank, srcs[1..], t)
  }

  lemma {:induction false} AddToEachAt(next: Rank, targets: seq<Slot>, share: real, t: Slot)
    requires t in next && forall x :: x in targets ==> x in next
    ensures AddToEach(next, targets, share)[t] == next[t] + Times(multiset(targets)[t], share)
    decreases |targets|
  {
    if targets != [] {
      assert targets == [targets[0]] + targets[1..];
      AddToEachAt(next[targets[0] := next[targets[0]] + share], targets[1..], share, t);
    }
  }

  lemma {:induction false} DistributeAt(f: Feeds, rank: Rank, next: Rank, srcs: seq<Slot>, t: Slot)
    requires WellFed(f) && next.Keys == f.Keys == rank.Keys && t in f
    requires forall s :: s in srcs ==> s in f
    ensures Distribute(f, rank, next, srcs)[t] == next[t] + Inflow(f, rank, srcs, t)
    decreases |srcs|
  {
    if srcs != [] {
      var src := srcs[0];
      assert srcs == [src] + srcs[1..];
      AddToEachAt(next, f[src], Outflow(f, rank, src), t);
      DistributeAt(f, rank, AddToEach(next, f[src], Outflow(f, rank, src)), srcs[1..], t);
    }
  }

  /** The same walk, up to the order in which sources list what they feed. */
  ghost predicate SameFeeds(f: Feeds, g: Feeds) {
    f.Keys == g.Keys && forall s :: s in f ==> multiset(f[s]) == multiset(g[s])
  }

  lemma SameReceived(f: Feeds, g: Feeds, rank: Rank, src: Slot, t: Slot)
    requires WellFed(f) && WellFed(g) && SameFeeds(f, g) && rank.Keys == f.Keys && src in f
    ensures Received(f, rank, src, t) == Received(g, rank, src, t)
  {
    assert |f[src]| == |multiset(f[src])| == |multiset(g[src])| == |g[src]|;
  }

  lemma {:induction false} InflowSplit(f: Feeds, rank: Rank, srcs: seq<Slot>, i: nat, t: Slot)
    requires WellFed(f) && rank.Keys == f.Keys && i < |srcs|
    requires forall s :: s in srcs ==> s in f
    ensures forall s :: s in srcs[..i] + srcs[i + 1..] ==> s in f
    ensures Inflow(f, rank, srcs, t)
      == Received(f, rank, srcs[i], t) + Inflow(f, rank, srcs[..i] + srcs[i + 1..], t)
    decreases i
  {
    assert srcs[i] in srcs && srcs == [srcs[0]] + srcs[1..];
    var rest := srcs[..i] + srcs[i + 1..];
    if i == 0 {
      assert rest == srcs[1..];
    } else {
      InflowSplit(f, rank, srcs[1..], i - 1, t);
      assert rest[1..] == srcs[1..][..i - 1] + srcs[1..][i..];
    }
  }

  lemma TakeOut(s1: seq<Slot>, s2: seq<Slot>, i: nat)
    requires s1 != [] && i < |s2| && s2[i] == s1[0] && multiset(s1) == multiset(s2)
    ensures multiset(s1[1..]) == multiset(s2[..i] + s2[i + 1..])
  {
    assert s1 == [s1[0]] + s1[1..];
    assert s2 == s2[..i] + [s2[i]] + s2[i + 1..];
    var rest := s2[..i] + s2[i + 1..];
    assert multiset(s2) == multiset(s2[..i]) + multiset{s2[i]} + multiset(s2[i + 1..]);
    assert multiset(s2) == multiset{s2[i]} + multiset(rest);
    assert multiset(s1) == multiset{s1[0]} + multiset(s1[1..]);
    assert multiset(s1[1..]) == multiset(s1) - multiset{s1[0]};
    assert multiset(rest) == multiset(s2) - multiset{s2[i]};
  }

  lemma {:induction false} InflowPermuted(
    f: Feeds, g: Feeds, rank: Rank, s1: seq<Slot>, s2: seq<Slot>, t: Slot)
    requires WellFed(f) && WellFed(g) && SameFeeds(f, g) && rank.Keys == f.Keys
    requires forall s :: s in s1 ==> s in f
    requires forall s :: s in s2 ==> s in f
    requires multiset(s1) == multiset(s2)
    ensures Inflow(f, rank, s1, t) == Inflow(g, rank, s2, t)
    decreases |s1|
  {
    if s1 == [] {
      assert s2 == [] by { assert |multiset(s2)| == 0; }
    } else {
      var src := s1[0];
      assert s1 == [src] + s1[1..];
      assert src in multiset(s2);
      var i :| 0 <= i < |s2| && s2[i] == src;
      InflowSplit(g, rank, s2, i, t);
      TakeOut(s1, s2, i);
      var rest := s2[..i] + s2[i + 1..];
      InflowPermuted(f, g, rank, s1[1..], rest, t);
      SameReceived(f, g, rank, src, t);
    }
  }

  lemma {:induction false} OccursOnce(o: seq<Slot>, s: Slot)
    requires Distinct(o)
    ensures multiset(o)[s] == if s in o then 1 else 0
    decreases |o|
  {
    if o != [] {
      assert o == [o[0]] + o[1..];
      OccursOnce(o[1..], s);
    }
  }

  lemma ListsArePermutations(f: Feeds, o1: seq<Slot>, o2: seq<Slot>)
    requires Lists(o1, f) && Lists(o2, f)
    ensures multiset(o1) == multiset(o2) && |o1| == |o2|
  {
    forall s ensures multiset(o1)[s] == multiset(o2)[s] {
      OccursOnce(o1, s);
      OccursOnce(o2, s);
    }
    assert |multiset(o1)| == |o1| && |multiset(o2)| == |o2|;
  }

  /** One iteration gives a slot the same rank in any order. */
  lemma StepPermuted(f: Feeds, g: Feeds, o1: seq<Slot>, o2: seq<Slot>, rank: Rank, t: Slot)
    requires WellFed(f) && WellFed(g) && SameFeeds(f, g) && rank.Keys == f.Keys && t in f
    requires Lists(o1, f) && Lists(o2, f) && o1 != [] && o2 != []
    ensures Step(f, o1, rank)[t] == Step(g, o2, rank)[t]
  {
    ListsArePermutations(f, o1, o2);
    hide Distribute, Inflow, Share, WellFed;
    var base := Uniform(f, Share(TELEPORT, |o1|));
    assert base == Uniform(g, Share(TELEPORT, |o2|));
    DistributeAt(f, rank, base, o1, t);
    DistributeAt(g, rank, base, o2, t);
    InflowPermuted(f, g, rank, o1, o2, t);
  }

  lemma {:induction false} IteratePermuted(f: Feeds, g: Feeds, o1: seq<Slot>, o2: seq<Slot>, k: nat)
    requires WellFed(f) && WellFed(g) && SameFeeds(f, g)
    requires Lists(o1, f) && Lists(o2, f) && o1 != [] && o2 != []
    ensures Iterate(f, o1, k) == Iterate(g, o2, k)
    decreases k
  {
    hide Step, WellFed, Share, SameFeeds;
    if k == 0 {
      ListsArePermutations(f, o1, o2);
      SameStart(f, g, o1, o2);
    } else {
      IteratePermuted(f, g, o1, o2, k - 1);
      StepsAgree(f, g, o1, o2, Iterate(f, o1, k - 1));
    }
  }

  lemma SameStart(f: Feeds, g: Feeds, o1: seq<Slot>, o2: seq<Slot>)
    requires SameFeeds(f, g) && |o1| == |o2| > 0
    ensures Uniform(f, Share(1.0, |o1|)) == Uniform(g, Share(1.0, |o2|))
  {
  }

  lemma StepsAgree(f: Feeds, g: Feeds, o1: seq<Slot>, o2: seq<Slot>, rank: Rank)
    requires WellFed(f) && WellFed(g) && SameFeeds(f, g) && rank.Keys == f.Keys
    requires Lists(o1, f) && Lists(o2, f) && o1 != [] && o2 != []
    ensures Step(f, o1, rank) == Step(g, o2, rank)
  {
    hide Step;
    forall t | t in f ensures Step(f, o1, rank)[t] == Step(g, o2, rank)[t] {
      StepPermuted(f, g, o1, o2, rank, t);
    }
  }

  /** The ranks do not depend on the order in which the map yields its slots. */
  lemma OrderIrrelevant<W>(p: Proj<W>, o1: seq<Slot>, o2: seq<Slot>, k: nat)
    requires ValidProj(p) && IsOrder(p, o1) && IsOrder(p, o2) && o1 != [] && o2 != []
    ensures RankAfter(p, o1, k) == RankAfter(p, o2, k)
  {
    FeedsAreLive(p, o1);
    FeedsAreLive(p, o2);
    var f, g := FeedsOf(p, o1), FeedsOf(p, o2);
    assert Lists(o1, f) && Lists(o2, f);
    ListsArePermutations(f, o1, o2);
    IteratePermuted(f, g, o1, o2, k);
  }

  // ---- The recurrence on the edges themselves ---------------------------------------------------------------

  /** The positions of the edges that leave a slot. */
  ghost function EdgesFrom<W>(edges: seq<Edge<W>>, s: Slot): set<nat> {
    set i: nat | i < |edges| && edges[i].src == s
  }

  /** The positions of the parallel edges from one slot to another. */
  ghost function EdgesBetween<W>(edges: seq<Edge<W>>, s: Slot, t: Slot): set<nat> {
    set i: nat | i < |edges| && edges[i].src == s && edges[i].dst == t
  }

  lemma {:induction false} SuccessorsOneMore<W>(edges: seq<Edge<W>>, last: Edge<W>, s: Slot)
    ensures Successors(edges + [last], s) == Successors(edges, s) + if last.src == s then [last.dst] else []
    decreases |edges|
  {
    if edges == [] {
      assert edges + [last] == [last] && [last][1..] == [];
    } else {
      SuccessorsOneMore(edges[1..], last, s);
      assert (edges + [last])[1..] == edges[1..] + [last];
    }
  }

  lemma EdgesFromOneMore<W>(edges: seq<Edge<W>>, last: Edge<W>, s: Slot)
    ensures |EdgesFrom(edges + [last], s)| == |EdgesFrom(edges, s)| + if last.src == s then 1 else 0
  {
    var more := if last.src == s then {|edges|} else {};
    assert EdgesFrom(edges + [last], s) == EdgesFrom(edges, s) + more;
  }

  lemma EdgesBetweenOneMore<W>(edges: seq<Edge<W>>, last: Edge<W>, s: Slot, t: Slot)
    ensures |EdgesBetween(edges + [last], s, t)|
      == |EdgesBetween(edges, s, t)| + if last.src == s && last.dst == t then 1 else 0
  {
    var more := if last.src == s && last.dst == t then {|edges|} else {};
    assert EdgesBetween(edges + [last], s, t) == EdgesBetween(edges, s, t) + more;
  }

  lemma {:induction false} SuccessorsCount<W>(edges: seq<Edge<W>>, s: Slot, t: Slot)
    ensures |Successors(edges, s)| == |EdgesFrom(edges, s)|
    ensures multiset(Successors(edges, s))[t] == |EdgesBetween(edges, s, t)|
    decreases |edges|
  {
    if edges == [] {
      assert EdgesFrom(edges, s) == {} && EdgesBetween(edges, s, t) == {};
    } else {
      var n := |edges| - 1;
      assert edges == edges[..n] + [edges[n]];
      SuccessorsCount(edges[..n], s, t);
      SuccessorsOneMore(edges[..n], edges[n], s);
      EdgesFromOneMore(edges[..n], edges[n], s);
      EdgesBetweenOneMore(edges[..n], edges[n], s, t);
    }
  }

  /** m of d equal parts. */
  ghost function Part(x: real, m: nat, d: nat): real
    requires d > 0
  {
    x * m as real / d as real
  }

  /** What slot t receives from slot s: its part of the damped rank by the edges between them, or an equal
      part of it when s has no outgoing edge. */
  ghost function Flow<W>(p: Proj<W>, n: nat, rank: real, s: Slot, t: Slot): real
    requires n > 0
  {
    var out := |EdgesFrom(p.edges, s)|;
    if out == 0 then Part(0.85 * rank, 1, n) else Part(0.85 * rank, |EdgesBetween(p.edges, s, t)|, out)
  }

  ghost function FlowSum<W>(p: Proj<W>, n: nat, rank: Rank, srcs: seq<Slot>, t: Slot): real
    requires n > 0 && forall s :: s in srcs ==> s in rank
    decreases |srcs|
  {
    if srcs == [] then 0.0
    else
      assert srcs == [srcs[0]] + srcs[1..];
      Flow(p, n, rank[srcs[0]], srcs[0], t) + FlowSum(p, n, rank, srcs[1..], t)
  }

  lemma PartOfShare(m: nat, mass: real, parts: nat)
    requires parts > 0
    ensures Times(m, Share(mass, parts)) == Part(mass, m, parts)
  {
    TimesIsProduct(m, Share(mass, parts));
  }

  lemma ShareIsPart(mass: real, parts: nat)
    requires parts > 0
    ensures Share(mass, parts) == Part(mass, 1, parts)
  {
  }

  /** A slot feeds its successors, an edge each, or every slot once when it has no edge. */
  ghost predicate FeedMatches<W>(p: Proj<W>, n: nat, feed: seq<Slot>, s: Slot, t: Slot) {
    var out := |EdgesFrom(p.edges, s)|;
    if out == 0 then |feed| == n && multiset(feed)[t] == 1
    else |feed| == out && multiset(feed)[t] == |EdgesBetween(p.edges, s, t)|
  }

  ghost predicate Follows<W>(p: Proj<W>, n: nat, f: Feeds) {
    && n > 0 && WellFed(f) && f.Keys == p.slots.Keys
    && forall s, t :: s in f && t in f ==> FeedMatches(p, n, f[s], s, t)
  }

  lemma FeedCount<W>(p: Proj<W>, order: seq<Slot>, s: Slot, t: Slot)
    requires IsOrder(p, order) && s in p.slots && t in p.slots
    ensures s in FeedsOf(p, order) && FeedMatches(p, |order|, FeedsOf(p, order)[s], s, t)
  {
    SuccessorsCount(p.edges, s, t);
    OccursOnce(order, t);
  }

  lemma FeedsFollowEdges<W>(p: Proj<W>, order: seq<Slot>)
    requires ValidProj(p) && IsOrder(p, order) && order != []
    ensures Follows(p, |order|, FeedsOf(p, order))
  {
    FeedsAreLive(p, order);
    FeedKeys(p, order);
    hide WellFed, FeedMatches, FeedsOf, IsOrder, ValidProj;
    forall s, t | s in p.slots && t in p.slots ensures FeedMatches(p, |order|, FeedsOf(p, order)[s], s, t) {
      FeedCount(p, order, s, t);
    }
  }

  lemma FeedKeys<W>(p: Proj<W>, order: seq<Slot>)
    ensures FeedsOf(p, order).Keys == p.slots.Keys
  {
  }

  lemma ReceivedIsFlow<W>(p: Proj<W>, n: nat, f: Feeds, rank: Rank, s: Slot, t: Slot)
    requires Follows(p, n, f) && n > 0 && WellFed(f) && rank.Keys == f.Keys && s in f && t in f
    ensures Received(f, rank, s, t) == Flow(p, n, rank[s], s, t)
  {
    hide EdgesFrom, EdgesBetween, Share, Part, Times;
    PartOfShare(multiset(f[s])[t], Damped(rank[s]), |f[s]|);
  }

  lemma {:induction false} InflowIsFlowSum<W>(
    p: Proj<W>, n: nat, f: Feeds, rank: Rank, srcs: seq<Slot>, t: Slot)
    requires Follows(p, n, f) && n > 0 && WellFed(f) && rank.Keys == f.Keys && t in f
    requires forall s :: s in srcs ==> s in f
    ensures Inflow(f, rank, srcs, t) == FlowSum(p, n, rank, srcs, t)
    decreases |srcs|
  {
    hide Flow, Received, Follows, WellFed;
    if srcs != [] {
      assert srcs == [srcs[0]] + srcs[1..];
      ReceivedIsFlow(p, n, f, rank, srcs[0], t);
      InflowIsFlowSum(p, n, f, rank, srcs[1..], t);
    }
  }

  /** One iteration, told from the edges: 0.15 / n for every slot, with what every slot passes on. */
  ghost function EdgeStep<W>(p: Proj<W>, order: seq<Slot>, rank: Rank): (next: Rank)
    requires order != [] && forall s :: s in order ==> s in rank
    ensures next.Keys == p.slots.Keys
  {
    map t | t in p.slots :: Part(0.15, 1, |order|) + FlowSum(p, |order|, rank, order, t)
  }

  /** The ranks after k iterations, told from the edges: 1 / n for every slot at first. */
  ghost function EdgeRank<W>(p: Proj<W>, order: seq<Slot>, k: nat): (rank: Rank)
    requires IsOrder(p, order) && order != []
    ensures rank.Keys == p.slots.Keys
    decreases k
  {
    if k == 0 then map s | s in p.slots :: Part(1.0, 1, |order|) else EdgeStep(p, order, EdgeRank(p, order, k - 1))
  }

  lemma StepIsFlow<W>(p: Proj<W>, order: seq<Slot>, f: Feeds, rank: Rank, t: Slot)
    requires Follows(p, |order|, f) && WellFed(f) && f.Keys == p.slots.Keys && order != []
    requires Lists(order, f) && rank.Keys == f.Keys && t in f
    ensures Step(f, order, rank)[t] == Part(0.15, 1, |order|) + FlowSum(p, |order|, rank, order, t)
  {
    hide Follows, Distribute, Inflow, FlowSum, Share, Part, WellFed;
    InflowIsFlowSum(p, |order|, f, rank, order, t);
    ShareIsPart(TELEPORT, |order|);
    DistributeAt(f, rank, Uniform(f, Share(TELEPORT, |order|)), order, t);
  }

  lemma StartFollowsEdges<W>(p: Proj<W>, order: seq<Slot>, f: Feeds)
    requires f.Keys == p.slots.Keys && IsOrder(p, order) && order != []
    ensures Uniform(f, Share(1.0, |order|)) == EdgeRank(p, order, 0)
  {
    ShareIsPart(1.0, |order|);
    hide Part, Share;
  }

  lemma StepFollowsEdges<W>(p: Proj<W>, order: seq<Slot>, f: Feeds, rank: Rank)
    requires Follows(p, |order|, f) && WellFed(f) && f.Keys == p.slots.Keys == rank.Keys
    requires Lists(order, f) && order != [] && forall s :: s in order ==> s in f
    ensures Step(f, order, rank) == EdgeStep(p, order, rank)
  {
    hide Part, FlowSum, Step, WellFed, Follows, Lists;
    forall t | t in p.slots ensures Step(f, order, rank)[t] == EdgeStep(p, order, rank)[t] {
      StepIsFlow(p, order, f, rank, t);
    }
  }

  lemma {:induction false} IterateFollowsEdges<W>(p: Proj<W>, order: seq<Slot>, f: Feeds, k: nat)
    requires Follows(p, |order|, f) && WellFed(f) && f.Keys == p.slots.Keys
    requires Lists(order, f) && IsOrder(p, order) && order != []
    ensures Iterate(f, order, k) == EdgeRank(p, order, k)
    decreases k
  {
    hide WellFed, Follows, Step, EdgeStep, Uniform, Share;
    if k == 0 {
      StartFollowsEdges(p, order, f);
    } else {
      IterateFollowsEdges(p, order, f, k - 1);
      StepFollowsEdges(p, order, f, EdgeRank(p, order, k - 1));
    }
  }

  /** The ranks are what the edges say, parallel edges, self-loops and dangling beliefs included. */
  lemma RanksFollowEdges<W>(p: Proj<W>, order: seq<Slot>, k: nat)
    requires ValidProj(p) && IsOrder(p, order) && order != []
    ensures RankAfter(p, order, k) == EdgeRank(p, order, k)
  {
    FeedsFollowEdges(p, order);
    hide EdgeRank, Iterate;
    IterateFollowsEdges(p, order, FeedsOf(p, order), k);
  }

  /** The n of the recurrence is the number of beliefs. */
  lemma OrderLength<W>(p: Proj<W>, order: seq<Slot>)
    requires IsOrder(p, order)
    ensures |order| == |p.slots|
  {
    DistinctLength(order, p.slots.Keys);
  }

  lemma {:induction false} DistinctLength(order: seq<Slot>, s: set<Slot>)
    requires Distinct(order) && forall x :: x in order <==> x in s
    ensures |order| == |s|
    decreases |order|
  {
    if order == [] {
      assert s == {};
    } else {
      assert order == [order[0]] + order[1..] && order[0] in s;
      DistinctLength(order[1..], s - {order[0]});
    }
  }

  // ---- The loops ------------------------------------------------------------------------------------------

  method AddShares(next: Rank, targets: seq<Slot>, share: real) returns (r: Rank)
    requires forall t :: t in targets ==> t in next
    ensures r == AddToEach(next, targets, share)
  {
    r := next;
    var i := 0;
    while i < |targets|
      invariant 0 <= i <= |targets|
      invariant r.Keys == next.Keys
      invariant AddToEach(r, targets[i..], share) == AddToEach(next, targets, share)
    {
      assert targets[i] in targets;
      assert targets[i..][1..] == targets[i + 1..];
      r := r[targets[i] := r[targets[i]] + share];
      i := i + 1;
    }
  }

  lemma DistributeOne(f: Feeds, rank: Rank, next: Rank, srcs: seq<Slot>, i: nat)
    requires WellFed(f) && next.Keys == f.Keys == rank.Keys && i < |srcs|
    requires forall s :: s in srcs ==> s in f
    ensures srcs[i] in f && (forall t :: t in f[srcs[i]] ==> t in next)
    ensures Distribute(f, rank, next, srcs[i..]) ==
      Distribute(f, rank, AddToEach(next, f[srcs[i]], Outflow(f, rank, srcs[i])), srcs[i + 1..])
  {
    assert srcs[i] in srcs && srcs[i..][1..] == srcs[i + 1..];
  }

  method DistributeAll(f: Feeds, rank: Rank, start: Rank, order: seq<Slot>) returns (next: Rank)
    requires WellFed(f) && start.Keys == f.Keys == rank.Keys
    requires forall s :: s in order ==> s in f
    ensures next == Distribute(f, rank, start, order)
  {
    next := start;
    assert order[0..] == order;
    var i := 0;
    while i < |order|
      invariant 0 <= i <= |order|
      invariant next.Keys == f.Keys
      invariant Distribute(f, rank, next, order[i..]) == Distribute(f, rank, start, order)
    {
      var src := order[i];
      DistributeOne(f, rank, next, order, i);
      var share := Share(Damped(rank[src]), |f[src]|);
      next := AddShares(next, f[src], share);
      i := i + 1;
    }
  }

  method PowerIteration(f: Feeds, order: seq<Slot>) returns (rank: Rank)
    requires WellFed(f) && order != []
    requires forall s :: s in order ==> s in f
    ensures rank == Iterate(f, order, ITERATIONS)
  {
    rank := Uniform(f, Share(1.0, |order|));
    var k := 0;
    while k < ITERATIONS
      invariant 0 <= k <= ITERATIONS
      invariant rank == Iterate(f, order, k)
    {
      rank := DistributeAll(f, rank, Uniform(f, Share(TELEPORT, |order|)), order);
      k := k + 1;
    }
  }

  method Centrality<W>(g: Projection<W>, id: BeliefId, order: seq<Slot>) returns (c: real)
    requires ValidProj(g.State()) && IsOrder(g.State(), order)
    ensures id !in g.indices ==> c == 0.0
    ensures id in g.indices ==>
      && order != [] && |order| == |g.slots|
      && c == RankAfter(g.State(), order, ITERATIONS)[g.indices[id]]
      && c == EdgeRank(g.State(), order, 20)[g.indices[id]]
      && Part(0.15, 1, |order|) <= c <= 1.0
  {
    hide EdgeRank, Iterate, FeedsOf;
    var p := g.State();
    if id in g.indices {
      assert g.indices[id] in p.slots;
      assert g.indices[id] in order;
    }
    if |order| == 0 {
      return 0.0;
    }
    FeedsAreLive(p, order);
    FeedKeys(p, order);
    var rank := PowerIteration(FeedsOf(p, order), order);
    if id !in g.indices {
      return 0.0;
    }
    c := rank[g.indices[id]];
    CentralityFacts(p, order, g.indices[id]);
  }

  lemma CentralityFacts<W>(p: Proj<W>, order: seq<Slot>, s: Slot)
    requires ValidProj(p) && IsOrder(p, order) && order != [] && s in p.slots
    ensures |order| == |p.slots|
    ensures RankAfter(p, order, ITERATIONS) == EdgeRank(p, order, 20)
    ensures Part(0.15, 1, |order|) <= RankAfter(p, order, ITERATIONS)[s] <= 1.0
  {
    hide EdgeRank, RankAfter, Share, Part;
    RanksFollowEdges(p, order, ITERATIONS);
    OrderLength(p, order);
    ShareIsPart(TELEPORT, |order|);
    MassConserved(p, order, ITERATIONS);
  }
}
