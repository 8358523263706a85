/** One of the four graph projections of a quad: nodes live in slots, and an id-to-slot map is kept
    beside them.  Which free slot a new node gets is the graph library's choice, so it is an
    argument here. */
module Projections {
  type BeliefId = nat
  type Slot = nat

  datatype Edge<+W> = Edge(src: Slot, dst: Slot, weight: W)

  datatype Proj<+W> = Proj(slots: map<Slot, BeliefId>, indices: map<BeliefId, Slot>, edges: seq<Edge<W>>)

  /** An edge seen from outside: the beliefs that it joins. */
  datatype Arc<+W> = Arc(from: BeliefId, to: BeliefId, weight: W)

  // ---- The operations as functions ---------------------------------------------------------------

  function EmptyProj<W>(): Proj<W> { Proj(map[], map[], []) }

  function AddNode<W>(p: Proj<W>, id: BeliefId, slot: Slot): Proj<W> {
    p.(slots := p.slots[slot := id], indices := p.indices[id := slot])
  }

  function WithoutSlot<W>(edges: seq<Edge<W>>, s: Slot): seq<Edge<W>> {
    if edges == [] then []
    else
      var rest := WithoutSlot(edges[1..], s);
      if edges[0].src == s || edges[0].dst == s then rest else [edges[0]] + rest
  }

  function RemoveNode<W>(p: Proj<W>, id: BeliefId): Proj<W> {
    if id !in p.indices then p
    else
      var s := p.indices[id];
      Proj(p.slots - {s}, p.indices - {id}, WithoutSlot(p.edges, s))
  }

  function AddEdge<W>(p: Proj<W>, from: BeliefId, to: BeliefId, weight: W): Proj<W> {
    if from !in p.indices || to !in p.indices then p
    else p.(edges := p.edges + [Edge(p.indices[from], p.indices[to], weight)])
  }

  // ---- The invariant and the view from outside ---------------------------------------------------

  /** The two maps are mutually inverse and every edge joins occupied slots. */
  ghost predicate ValidProj<W>(p: Proj<W>) {
    && (forall id :: id in p.indices ==> p.indices[id] in p.slots && p.slots[p.indices[id]] == id)
    && (forall s :: s in p.slots ==> p.slots[s] in p.indices && p.indices[p.slots[s]] == s)
    && (forall e :: e in p.edges ==> e.src in p.slots && e.dst in p.slots)
  }

  function ArcsOf<W>(slots: map<Slot, BeliefId>, edges: seq<Edge<W>>): (arcs: seq<Arc<W>>)
    requires forall e :: e in edges ==> e.src in slots && e.dst in slots
    ensures |arcs| == |edges|
    ensures forall i :: 0 <= i < |edges| ==>
      arcs[i] == Arc(slots[edges[i].src], slots[edges[i].dst], edges[i].weight)
  {
    seq(|edges|, i requires 0 <= i < |edges| =>
      Arc(slots[edges[i].src], slots[edges[i].dst], edges[i].weight))
  }

  function Arcs<W>(p: Proj<W>): seq<Arc<W>>
    requires ValidProj(p)
  {
    ArcsOf(p.slots, p.edges)
  }

  function WithoutBelief<W>(arcs: seq<Arc<W>>, id: BeliefId): seq<Arc<W>> {
    if arcs == [] then []
    else
      var rest := WithoutBelief(arcs[1..], id);
      if arcs[0].from == id || arcs[0].to == id then rest else [arcs[0]] + rest
  }

  // ---- Slots implement a multigraph on beliefs ----------------------------------------------------

  lemma AddNodeRefines<W>(p: Proj<W>, id: BeliefId, slot: Slot)
    requires ValidProj(p) && id !in p.indices && slot !in p.slots
    ensures ValidProj(AddNode(p, id, slot))
    ensures Arcs(AddNode(p, id, slot)) == Arcs(p)
    ensures AddNode(p, id, slot).indices.Keys == p.indices.Keys + {id}
  {
  }

  lemma {:induction false} WithoutSlotSubset<W>(edges: seq<Edge<W>>, s: Slot)
    ensures forall e :: e in WithoutSlot(edges, s) <==> e in edges && e.src != s && e.dst != s
    decreases |edges|
  {
    if edges != [] {
      WithoutSlotSubset(edges[1..], s);
      assert edges == [edges[0]] + edges[1..];
    }
  }

  lemma {:induction false} WithoutSlotArcs<W>(slots: map<Slot, BeliefId>, edges: seq<Edge<W>>, s: Slot)
    requires forall e :: e in edges ==> e.src in slots && e.dst in slots
    requires s in slots && forall t :: t in slots && slots[t] == slots[s] ==> t == s
    ensures forall e :: e in WithoutSlot(edges, s) ==> e.src in slots - {s} && e.dst in slots - {s}
    ensures ArcsOf(slots - {s}, WithoutSlot(edges, s)) == WithoutBelief(ArcsOf(slots, edges), slots[s])
    decreases |edges|
  {
    WithoutSlotSubset(edges, s);
    if edges != [] {
      WithoutSlotArcs(slots, edges[1..], s);
      assert edges[0] in edges;
      assert ArcsOf(slots, edges)[1..] == ArcsOf(slots, edges[1..]);
    }
  }

  lemma RemoveNodeRefines<W>(p: Proj<W>, id: BeliefId)
    requires ValidProj(p) && id in p.indices
    ensures ValidProj(RemoveNode(p, id))
    ensures Arcs(RemoveNode(p, id)) == WithoutBelief(Arcs(p), id)
    ensures RemoveNode(p, id).indices.Keys == p.indices.Keys - {id}
  {
    WithoutSlotSubset(p.edges, p.indices[id]);
    WithoutSlotArcs(p.slots, p.edges, p.indices[id]);
  }

  lemma AddEdgeRefines<W>(p: Proj<W>, from: BeliefId, to: BeliefId, weight: W)
    requires ValidProj(p)
    ensures ValidProj(AddEdge(p, from, to, weight))
    ensures Arcs(AddEdge(p, from, to, weight)) ==
      if from in p.indices && to in p.indices then Arcs(p) + [Arc(from, to, weight)] else Arcs(p)
  {
    if from in p.indices && to in p.indices {
      var p' := AddEdge(p, from, to, weight);
      assert forall e :: e in p'.edges ==> e in p.edges || e == p'.edges[|p.edges|];
      assert forall i :: 0 <= i < |p.edges| ==> p'.edges[i] == p.edges[i];
    }
  }

  lemma {:induction false} WithoutBeliefIn<W>(arcs: seq<Arc<W>>, id: BeliefId)
    ensures forall a :: a in WithoutBelief(arcs, id) ==> a in arcs && a.from != id && a.to != id
    ensures forall a :: a in arcs && a.from != id && a.to != id ==> a in WithoutBelief(arcs, id)
    decreases |arcs|
  {
    if arcs != [] {
      WithoutBeliefIn(arcs[1..], id);
      assert arcs == [arcs[0]] + arcs[1..];
    }
  }

  lemma {:induction false} WithoutBeliefCount<W>(arcs: seq<Arc<W>>, id: BeliefId, a: Arc<W>)
    ensures multiset(WithoutBelief(arcs, id))[a] ==
      if a.from == id || a.to == id then 0 else multiset(arcs)[a]
    decreases |arcs|
  {
    if arcs != [] {
      WithoutBeliefCount(arcs[1..], id, a);
      assert arcs == [arcs[0]] + arcs[1..];
    }
  }

  // ---- The graph object ----------------------------------------------------------------------------

  class Projection<W> {
    var slots: map<Slot, BeliefId>
    var indices: map<BeliefId, Slot>
    var edges: seq<Edge<W>>

    function State(): Proj<W>
      reads this
    {
      Proj(slots, indices, edges)
    }

    constructor ()
      ensures State() == EmptyProj<W>()
    {
      slots, indices, edges := map[], map[], [];
    }

    method Add(id: BeliefId, slot: Slot)
      modifies this
      ensures State() == AddNode(old(State()), id, slot)
    {
      slots := slots[slot := id];
      indices := indices[id := slot];
    }

    method Remove(id: BeliefId)
      modifies this
      ensures State() == RemoveNode(old(State()), id)
      ensures ValidProj(old(State())) ==>
        && ValidProj(State()) && indices.Keys == old(indices.Keys) - {id}
        && Arcs(State()) ==
             if id in old(indices) then WithoutBelief(Arcs(old(State())), id) else Arcs(old(State()))
    {
      if ValidProj(State()) && id in indices { RemoveNodeRefines(State(), id); }
      if id in indices {
        var s := indices[id];
        indices := indices - {id};
        slots := slots - {s};
        edges := WithoutSlot(edges, s);
      }
    }

    method Connect(from: BeliefId, to: BeliefId, weight: W)
      modifies this
      ensures State() == AddEdge(old(State()), from, to, weight)
    {
      if from !in indices { return; }
      if to !in indices { return; }
      edges := edges + [Edge(indices[from], indices[to], weight)];
    }

    /** Overwrites the graph with a snapshot of itself. */
    method Restore(p: Proj<W>)
      modifies this
      ensures State() == p
    {
      slots, indices, edges := p.slots, p.indices, p.edges;
    }
  }
}
