/** AGM belief revision: contract the weakest support, then expand.

    Text normalisation, cached embeddings and their classification belong to other components, so
    they come in as a `Semantics` argument. */
module Revision {
  import opened Wrappers
  import opened Projections
  import opened Beliefs
  import opened Diffs
  import opened NoisyOr
  import opened Embeddings
  import opened Quads

  datatype Semantics = Semantics(
    normalize: string -> string,
    embed: Option<string -> Option<Embedding>>,
    classify: (Embedding, Embedding) -> Verdict)

  datatype VerdictTrace =
    | LiteralAgree
    | SemanticEquivalent(score: real)
    | SemanticContradicts(score: real)
    | LiteralDisagreeUndecided(score: real)
    | LiteralDisagreeNoCache

  datatype PostulateAudit = PostulateAudit(
    success: bool, inclusion: bool, vacuity: bool, consistency: bool, extensionality: bool,
    trace: VerdictTrace)
  {
    predicate AllCriticalPass() { success && inclusion && consistency && extensionality }

    function FailedPostulate(): string {
      if !success then "K*2 (success)"
      else if !inclusion then "K*3 (inclusion)"
      else if !consistency then "K*5 (consistency)"
      else if !extensionality then "K*6 (extensionality)"
      else "none"
    }
  }

  datatype RevisionRecord = RevisionRecord(
    beliefId: BeliefId, oldValue: BeliefValue, newValue: BeliefValue,
    oldConfidence: real, newConfidence: real, contracted: set<BeliefId>,
    audit: PostulateAudit, fromVersion: nat, toVersion: nat)

  datatype RevisionError = BeliefNotFound | PostulateViolation(postulate: string)

  // ---- Contradiction ------------------------------------------------------------------------------------

  predicate ValueContradicts(sem: Semantics, current: BeliefValue, new_: BeliefValue) {
    match (current, new_)
    case (Deterministic(a), Deterministic(b)) => a != b
    case (Inferred(a), Inferred(b)) => a != b
    case (Asserted(a), Asserted(b)) => sem.normalize(a) != sem.normalize(b)
    case (Reference(a), Reference(b)) => a != b
    case _ => true
  }

  function ValueContradictsSemantic(sem: Semantics, current: BeliefValue, new_: BeliefValue)
    : (bool, VerdictTrace)
  {
    if !ValueContradicts(sem, current, new_) then (false, LiteralAgree)
    else if current.Asserted? && new_.Asserted? && sem.embed.Some?
      && sem.embed.value(current.text).Some? && sem.embed.value(new_.text).Some?
    then
      match sem.classify(sem.embed.value(current.text).value, sem.embed.value(new_.text).value)
      case Equivalent(s) => (false, SemanticEquivalent(s))
      case Opposed(s) => (true, SemanticContradicts(s))
      case Undecided(s) => (true, LiteralDisagreeUndecided(s))
    else (true, LiteralDisagreeNoCache)
  }

  /** Except for texts, which are compared normalised, to contradict is to differ. */
  lemma ContradictsIff(sem: Semantics, a: BeliefValue, b: BeliefValue)
    ensures ValueContradicts(sem, a, b) <==>
      if a.Asserted? && b.Asserted? then sem.normalize(a.text) != sem.normalize(b.text) else a != b
  {
  }

  /** What the provider adds: only a verdict of equivalence lifts a literal contradiction, and the trace
      tells which verdict there was. */
  lemma SemanticContradictsIff(sem: Semantics, a: BeliefValue, b: BeliefValue)
    ensures
      var (contradicts, trace) := ValueContradictsSemantic(sem, a, b);
      var judged := a.Asserted? && b.Asserted? && sem.embed.Some?
        && sem.embed.value(a.text).Some? && sem.embed.value(b.text).Some?;
      && (contradicts <==> ValueContradicts(sem, a, b) && !Paraphrases(sem, a, b))
      && (trace == LiteralAgree <==> !ValueContradicts(sem, a, b))
      && (trace == LiteralDisagreeNoCache <==> ValueContradicts(sem, a, b) && !judged)
      && (ValueContradicts(sem, a, b) && judged ==>
            match sem.classify(sem.embed.value(a.text).value, sem.embed.value(b.text).value)
            case Equivalent(s) => trace == SemanticEquivalent(s)
            case Opposed(s) => trace == SemanticContradicts(s)
            case Undecided(s) => trace == LiteralDisagreeUndecided(s))
  {
  }

  predicate HasContradictionEdges(p: Proj<SemanticEdge>, id: BeliefId) {
    id in p.indices && exists e :: e in p.edges && e.src == p.indices[id] && e.weight == Contradicts
  }

  lemma OutgoingContradiction(p: Proj<SemanticEdge>, id: BeliefId)
    requires ValidProj(p) && id in p.indices
    ensures HasContradictionEdges(p, id) <==>
      exists a :: a in Arcs(p) && a.weight == Contradicts && a.from == id
  {
    var arcs := Arcs(p);
    if HasContradictionEdges(p, id) {
      var e :| e in p.edges && e.src == p.indices[id] && e.weight == Contradicts;
      var k :| 0 <= k < |p.edges| && p.edges[k] == e;
      assert arcs[k] in arcs && arcs[k].from == id;
    }
    if a :| a in arcs && a.weight == Contradicts && a.from == id {
      var k :| 0 <= k < |arcs| && arcs[k] == a;
      assert p.edges[k] in p.edges && p.edges[k].src == p.indices[id];
    }
  }

  /** Looking at outgoing edges only is enough: contradictions are stored in both directions. */
  lemma ContradictionSeenFromBothEnds(q: Quad, id: BeliefId)
    requires Synced(q) && id in q.nodes
    ensures HasContradictionEdges(q.semantic, id) <==>
      exists a :: a in Arcs(q.semantic) && a.weight == Contradicts && (a.from == id || a.to == id)
  {
    OutgoingContradiction(q.semantic, id);
    hide ValidProj, HasContradictionEdges;
    var arcs := Arcs(q.semantic);
    if a :| a in arcs && a.weight == Contradicts && a.to == id {
      assert a in multiset(arcs) && Flip(a) in multiset(arcs);
      assert Flip(a) in arcs;
    }
  }

  function CheckContradiction(q: Quad, sem: Semantics, id: BeliefId, new_: BeliefValue)
    : (bool, VerdictTrace)
  {
    if id !in q.nodes then (false, LiteralAgree)
    else
      var (byValue, trace) := ValueContradictsSemantic(sem, q.nodes[id].value, new_);
      (byValue || HasContradictionEdges(q.semantic, id), trace)
  }

  // ---- The postulate audit --------------------------------------------------------------------------------

  /** `other` paraphrases the new text, and revising with it would get the opposite verdict. */
  predicate Disagrees(
    q: Quad, sem: Semantics, id: BeliefId, new_: BeliefValue, expected: bool, other: BeliefId)
  {
    && id in q.nodes && other in q.nodes && other != id
    && new_.Asserted? && q.nodes[other].value.Asserted? && sem.embed.Some?
    && sem.embed.value(new_.text).Some? && sem.embed.value(q.nodes[other].value.text).Some?
    && sem.classify(sem.embed.value(new_.text).value,
                    sem.embed.value(q.nodes[other].value.text).value).Equivalent?
    && (ValueContradictsSemantic(sem, q.nodes[id].value, q.nodes[other].value).0
        || HasContradictionEdges(q.semantic, id)) != expected
  }

  predicate Extensional(q: Quad, sem: Semantics, id: BeliefId, new_: BeliefValue, expected: bool) {
    forall other :: other in q.nodes ==> !Disagrees(q, sem, id, new_, expected, other)
  }

  /** The search stops at the first disagreeing paraphrase in iteration order. */
  method CheckExtensionality(q: Quad, sem: Semantics, id: BeliefId, new_: BeliefValue, expected: bool)
    returns (holds: bool, culprit: Option<BeliefId>)
    ensures holds <==> Extensional(q, sem, id, new_, expected)
    ensures holds <==> culprit.None?
    ensures culprit.Some? ==>
      && Disagrees(q, sem, id, new_, expected, culprit.value)
      && forall other :: other in q.nodes && other < culprit.value ==>
           !Disagrees(q, sem, id, new_, expected, other)
  {
    if sem.embed.None? || !new_.Asserted? || sem.embed.value(new_.text).None? || id !in q.nodes {
      return true, None;
    }
    var rest := q.nodes.Keys;
    while rest != {}
      invariant rest <= q.nodes.Keys
      invariant forall other :: other in q.nodes && other !in rest ==>
        !Disagrees(q, sem, id, new_, expected, other) && forall r :: r in rest ==> other < r
      decreases rest
    {
      ghost var least := Least(rest);
      var other: BeliefId :| other in rest && forall x :: x in rest ==> other <= x;
      rest := rest - {other};
      if other != id && q.nodes[other].value.Asserted? {
        var emb := sem.embed.value(q.nodes[other].value.text);
        if emb.Some? && sem.classify(sem.embed.value(new_.text).value, emb.value).Equivalent? {
          var (altContradicts, _) := ValueContradictsSemantic(sem, q.nodes[id].value, q.nodes[other].value);
          var altTotal := altContradicts || HasContradictionEdges(q.semantic, id);
          if altTotal != expected {
            return false, Some(other);
          }
        }
      }
    }
    return true, None;
  }

  /** No value is recognised as self-contradictory, a JSON null included. */
  predicate IsSelfContradictory(value: BeliefValue) {
    match value
    case Deterministic(json) => json == "null" && false
    case _ => false
  }

  function Audit(q: Quad, sem: Semantics, id: BeliefId, new_: BeliefValue): PostulateAudit {
    var (contradicts, trace) := CheckContradiction(q, sem, id, new_);
    PostulateAudit(
      id in q.nodes, id in q.nodes, !contradicts, !IsSelfContradictory(new_),
      Extensional(q, sem, id, new_, contradicts), trace)
  }

  // ---- Contraction ------------------------------------------------------------------------------------------

  /** A premise that is gone counts as confidence zero. */
  function Trust(nodes: Arena, id: BeliefId): real {
    if id in nodes then nodes[id].fast else 0.0
  }

  /** The first of the least trusted premises. */
  function Weakest(nodes: Arena, premises: seq<BeliefId>): (w: BeliefId)
    requires premises != []
    ensures w in premises && forall p :: p in premises ==> Trust(nodes, w) <= Trust(nodes, p)
  {
    assert premises == [premises[0]] + premises[1..];
    if |premises| == 1 then premises[0]
    else
      var w := Weakest(nodes, premises[1..]);
      if Trust(nodes, premises[0]) <= Trust(nodes, w) then premises[0] else w
  }

  /** The premise chosen of a path: the first among those of least confidence, where a premise that is gone
      counts as zero. */
  lemma {:induction false} WeakestIsFirst(nodes: Arena, premises: seq<BeliefId>) returns (i: nat)
    requires premises != []
    ensures i < |premises| && Weakest(nodes, premises) == premises[i]
    ensures
      var least := if premises[i] in nodes then nodes[premises[i]].fast else 0.0;
      forall j :: 0 <= j < |premises| ==>
        var other := if premises[j] in nodes then nodes[premises[j]].fast else 0.0;
        least <= other && (j < i ==> least < other)
    decreases |premises|
  {
    if |premises| == 1 {
      i := 0;
    } else {
      var k := WeakestIsFirst(nodes, premises[1..]);
      var w := Weakest(nodes, premises[1..]);
      assert forall j :: 0 < j < |premises| ==> premises[j] == premises[1..][j - 1];
      if Trust(nodes, premises[0]) <= Trust(nodes, w) {
        i := 0;
      } else {
        i := k + 1;
      }
    }
  }

  function WeakestOfEach(nodes: Arena, lists: seq<seq<BeliefId>>): (s: set<BeliefId>)
    ensures forall x :: x in s <==> exists ps :: ps in lists && ps != [] && x == Weakest(nodes, ps)
  {
    if lists == [] then {}
    else
      var rest := WeakestOfEach(nodes, lists[1..]);
      assert forall ps :: ps in lists <==> ps == lists[0] || ps in lists[1..];
      if lists[0] == [] then rest else rest + {Weakest(nodes, lists[0])}
  }

  function ContractionSet(q: Quad, id: BeliefId): set<BeliefId> {
    WeakestOfEach(q.nodes, InferredFromPremises(q.causal, id))
  }

  function WithoutSlots<W>(edges: seq<Edge<W>>, dead: set<Slot>): seq<Edge<W>> {
    if edges == [] then []
    else
      var rest := WithoutSlots(edges[1..], dead);
      if edges[0].src in dead || edges[0].dst in dead then rest else [edges[0]] + rest
  }

  function SlotsOf<W>(p: Proj<W>, ids: set<BeliefId>): set<Slot> {
    set id | id in ids && id in p.indices :: p.indices[id]
  }

  function RemoveNodes<W>(p: Proj<W>, ids: set<BeliefId>): Proj<W> {
    Proj(p.slots - SlotsOf(p, ids), p.indices - ids, WithoutSlots(p.edges, SlotsOf(p, ids)))
  }

  /** Removing a set of beliefs at once, in no particular order. */
  function Contract(q: Quad, ids: set<BeliefId>): Quad {
    q.(nodes := q.nodes - ids,
       semantic := RemoveNodes(q.semantic, ids),
       temporal := RemoveNodes(q.temporal, ids),
       causal := RemoveNodes(q.causal, ids),
       entity := RemoveNodes(q.entity, ids),
       version := q.version + |q.nodes.Keys * ids|)
  }

  lemma {:induction false} WithoutNoSlots<W>(edges: seq<Edge<W>>)
    ensures WithoutSlots(edges, {}) == edges
    decreases |edges|
  {
    if edges != [] {
      WithoutNoSlots(edges[1..]);
      assert edges == [edges[0]] + edges[1..];
    }
  }

  lemma {:induction false} WithoutOneMore<W>(edges: seq<Edge<W>>, dead: set<Slot>, s: Slot)
    ensures WithoutSlot(WithoutSlots(edges, dead), s) == WithoutSlots(edges, dead + {s})
    decreases |edges|
  {
    if edges != [] {
      WithoutOneMore(edges[1..], dead, s);
      var rest := WithoutSlots(edges[1..], dead);
      assert ([edges[0]] + rest)[1..] == rest;
    }
  }

  lemma RemoveNoNodes<W>(p: Proj<W>)
    ensures RemoveNodes(p, {}) == p
  {
    WithoutNoSlots(p.edges);
    assert SlotsOf(p, {}) == {};
  }

  lemma RemoveOneMore<W>(p: Proj<W>, ids: set<BeliefId>, id: BeliefId)
    requires ValidProj(p) && id !in ids && id in p.indices
    ensures RemoveNode(RemoveNodes(p, ids), id) == RemoveNodes(p, ids + {id})
  {
    var s := p.indices[id];
    WithoutOneMore(p.edges, SlotsOf(p, ids), s);
    assert SlotsOf(p, ids + {id}) == SlotsOf(p, ids) + {s};
    assert RemoveNodes(p, ids).indices[id] == s;
  }

  lemma RemoveAbsent<W>(p: Proj<W>, ids: set<BeliefId>, id: BeliefId)
    requires id !in p.indices
    ensures RemoveNodes(p, ids + {id}) == RemoveNodes(p, ids)
  {
    assert SlotsOf(p, ids + {id}) == SlotsOf(p, ids);
    MinusOneMore(p.indices, ids, id);
  }

  lemma MinusOneMore<V>(m: map<BeliefId, V>, s: set<BeliefId>, k: BeliefId)
    ensures m - s - {k} == m - (s + {k})
    ensures k !in m ==> m - s == m - (s + {k})
  {
    assert (m - s - {k}).Keys == (m - (s + {k})).Keys;
  }

  lemma LiveOneMore(live: set<BeliefId>, s: set<BeliefId>, k: BeliefId)
    requires k !in s
    ensures |live * (s + {k})| == |live * s| + if k in live then 1 else 0
  {
    if k in live {
      assert live * (s + {k}) == live * s + {k};
    } else {
      assert live * (s + {k}) == live * s;
    }
  }

  lemma ContractLive(q: Quad, ids: set<BeliefId>, id: BeliefId)
    requires AllInStep(q) && id !in ids && id in q.nodes
    ensures RemoveBelief(Contract(q, ids), id) == Contract(q, ids + {id})
  {
    var a, b := RemoveBelief(Contract(q, ids), id), Contract(q, ids + {id});
    assert a.semantic == b.semantic by { RemoveOneMore(q.semantic, ids, id); }
    assert a.temporal == b.temporal by { RemoveOneMore(q.temporal, ids, id); }
    assert a.causal == b.causal by { RemoveOneMore(q.causal, ids, id); }
    assert a.entity == b.entity by { RemoveOneMore(q.entity, ids, id); }
    assert a.version == b.version by { LiveOneMore(q.nodes.Keys, ids, id); }
    assert a.nodes == b.nodes by { MinusOneMore(q.nodes, ids, id); }
  }

  lemma ContractAbsent(q: Quad, ids: set<BeliefId>, id: BeliefId)
    requires AllInStep(q) && id !in ids && id !in q.nodes
    ensures Contract(q, ids) == Contract(q, ids + {id})
  {
    var a, b := Contract(q, ids), Contract(q, ids + {id});
    assert a.semantic == b.semantic by { RemoveAbsent(q.semantic, ids, id); }
    assert a.temporal == b.temporal by { RemoveAbsent(q.temporal, ids, id); }
    assert a.causal == b.causal by { RemoveAbsent(q.causal, ids, id); }
    assert a.entity == b.entity by { RemoveAbsent(q.entity, ids, id); }
    assert a.version == b.version by { LiveOneMore(q.nodes.Keys, ids, id); }
    assert a.nodes == b.nodes by { MinusOneMore(q.nodes, ids, id); }
  }

  /** Removing beliefs one by one, in any order, is removing them at once. */
  lemma ContractOneMore(q: Quad, ids: set<BeliefId>, id: BeliefId)
    requires AllInStep(q) && id !in ids
    ensures RemoveBelief(Contract(q, ids), id) == Contract(q, ids + {id})
  {
    if id in q.nodes {
      ContractLive(q, ids, id);
    } else {
      ContractAbsent(q, ids, id);
    }
  }

  lemma ContractNothing(q: Quad)
    ensures Contract(q, {}) == q
  {
    RemoveNoNodes(q.semantic);
    RemoveNoNodes(q.temporal);
    RemoveNoNodes(q.causal);
    RemoveNoNodes(q.entity);
  }

  lemma ContractStepKeepsValid(q: Quad, ids: set<BeliefId>, id: BeliefId)
    requires ValidQuad(q) && ValidQuad(Contract(q, ids)) && id !in ids
    ensures ValidQuad(Contract(q, ids + {id}))
  {
    RemoveKeepsValid(Contract(q, ids), id);
    ContractOneMore(q, ids, id);
  }

  lemma {:induction false} ContractKeepsValid(q: Quad, ids: set<BeliefId>)
    requires ValidQuad(q)
    ensures ValidQuad(Contract(q, ids))
    decreases |ids|
  {
    hide ValidQuad, Contract;
    if ids == {} {
      ContractNothing(q);
    } else {
      var id :| id in ids;
      ContractKeepsValid(q, ids - {id});
      ContractStepKeepsValid(q, ids - {id}, id);
      assert ids - {id} + {id} == ids;
    }
  }

  // ---- Revision as a function --------------------------------------------------------------------------------

  function Expand(
    q: Quad, id: BeliefId, value: BeliefValue, prov: Provenance, confidence: real, resetSlow: bool): Quad
    requires id in q.nodes
  {
    var node := q.nodes[id];
    q.(nodes := q.nodes[id := node.(
         value := value, provenance := prov, fast := Clamp01(confidence),
         slow := if resetSlow then None else node.slow)],
       version := q.version + 1)
  }

  function Record(
    q: Quad, id: BeliefId, value: BeliefValue, confidence: real, contracted: set<BeliefId>,
    audit: PostulateAudit): RevisionRecord
    requires id in q.nodes
  {
    RevisionRecord(id, q.nodes[id].value, value, q.nodes[id].fast, confidence, contracted, audit,
                   q.version, q.version + 1)
  }

  function Revise(
    q: Quad, sem: Semantics, id: BeliefId, value: BeliefValue, prov: Provenance, confidence: real)
    : (Quad, Result<RevisionRecord, RevisionError>)
  {
    if id !in q.nodes then (q, Err(BeliefNotFound))
    else
      var audit := Audit(q, sem, id, value);
      if !audit.AllCriticalPass() then (q, Err(PostulateViolation(audit.FailedPostulate())))
      else if !CheckContradiction(q, sem, id, value).0 then
        (Expand(q, id, value, prov, confidence, false), Ok(Record(q, id, value, confidence, {}, audit)))
      else
        var contracted := ContractionSet(q, id);
        var base := Contract(q, contracted);
        if id !in base.nodes then (base, Err(BeliefNotFound))
        else (Expand(base, id, value, prov, confidence, true),
              Ok(Record(base, id, value, confidence, contracted, audit)))
  }

  // ---- When revision succeeds, and what it leaves -----------------------------------------------------------

  /** Revision succeeds if and only if the belief is live, no in-quad paraphrase disagrees, and a
      contradicting revision does not have to remove the belief itself. */
  lemma ReviseSucceedsIff(
    q: Quad, sem: Semantics, id: BeliefId, value: BeliefValue, prov: Provenance, confidence: real)
    ensures
      var contradicts := CheckContradiction(q, sem, id, value).0;
      Revise(q, sem, id, value, prov, confidence).1.Ok? <==>
        && id in q.nodes
        && Extensional(q, sem, id, value, contradicts)
        && (contradicts ==> id !in ContractionSet(q, id))
  {
  }

  /** What the audit records, and with what error a revision fails: not found, or K*6 by name. */
  lemma AuditAndErrors(
    q: Quad, sem: Semantics, id: BeliefId, value: BeliefValue, prov: Provenance, confidence: real)
    ensures
      var audit := Audit(q, sem, id, value);
      var contradicts := CheckContradiction(q, sem, id, value).0;
      && (audit.success <==> id in q.nodes) && (audit.inclusion <==> id in q.nodes)
      && (audit.vacuity <==> !contradicts) && audit.consistency
      && (audit.extensionality <==> Extensional(q, sem, id, value, contradicts))
      && audit.trace == CheckContradiction(q, sem, id, value).1
    ensures
      var (q', r) := Revise(q, sem, id, value, prov, confidence);
      var contradicts := CheckContradiction(q, sem, id, value).0;
      && (r.Err? && r.error.PostulateViolation? <==>
            id in q.nodes && !Extensional(q, sem, id, value, contradicts))
      && (r.Err? && r.error.PostulateViolation? ==> r.error.postulate == "K*6 (extensionality)" && q' == q)
      && (r == Err(BeliefNotFound) <==>
            || id !in q.nodes
            || (Extensional(q, sem, id, value, contradicts) && contradicts && id in ContractionSet(q, id)))
  {
    hide ContractionSet, CheckContradiction, Extensional;
  }

  /** A contradiction is one of values or one on record. */
  lemma ContradictionIff(q: Quad, sem: Semantics, id: BeliefId, value: BeliefValue)
    ensures CheckContradiction(q, sem, id, value).0 <==>
      id in q.nodes && (ValueContradictsSemantic(sem, q.nodes[id].value, value).0
                        || HasContradictionEdges(q.semantic, id))
  {
  }

  /** The failing family: a belief that is the weakest premise of one of its own support paths is
      itself removed, and the caller is told that it does not exist. */
  lemma SelfSupportedRevisionLosesBelief(
    q: Quad, sem: Semantics, id: BeliefId, value: BeliefValue, prov: Provenance, confidence: real)
    requires id in q.nodes && CheckContradiction(q, sem, id, value).0
    requires Extensional(q, sem, id, value, true) && id in ContractionSet(q, id)
    ensures
      var (q', r) := Revise(q, sem, id, value, prov, confidence);
      r == Err(BeliefNotFound) && q'.nodes == q.nodes - ContractionSet(q, id) && id !in q'.nodes
  {
  }

  /** The state after a successful revision depends on the value only through the verdict. */
  lemma ReviseByVerdict(
    q: Quad, sem: Semantics, id: BeliefId, value: BeliefValue, prov: Provenance, confidence: real)
    requires Revise(q, sem, id, value, prov, confidence).1.Ok?
    ensures
      var (q', r) := Revise(q, sem, id, value, prov, confidence);
      var contradicts := CheckContradiction(q, sem, id, value).0;
      var gone := if contradicts then ContractionSet(q, id) else {};
      var base := if contradicts then Contract(q, gone) else q;
      && id in q.nodes && id in base.nodes
      && r.value == Record(base, id, value, confidence, gone, Audit(q, sem, id, value))
      && Extensional(q, sem, id, value, contradicts)
      && q' == Expand(base, id, value, prov, confidence, contradicts)
  {
  }

  /** On success the belief holds the new value, the others are the old ones minus the contracted,
      untouched, and nothing is contracted without a contradiction. */
  lemma ReviseEffect(
    q: Quad, sem: Semantics, id: BeliefId, value: BeliefValue, prov: Provenance, confidence: real)
    requires Revise(q, sem, id, value, prov, confidence).1.Ok?
    ensures
      var (q', r) := Revise(q, sem, id, value, prov, confidence);
      var contradicts := CheckContradiction(q, sem, id, value).0;
      && q'.nodes.Keys == q.nodes.Keys - r.value.contracted
      && r.value.contracted == (if contradicts then ContractionSet(q, id) else {})
      && id in q'.nodes
      && q'.nodes[id] == q.nodes[id].(
           value := value, provenance := prov, fast := Clamp01(confidence),
           slow := if contradicts then None else q.nodes[id].slow)
      && (forall other :: other in q'.nodes && other != id ==> q'.nodes[other] == q.nodes[other])
      && r.value == RevisionRecord(
           id, q.nodes[id].value, value, q.nodes[id].fast, confidence, r.value.contracted,
           Audit(q, sem, id, value), q'.version - 1, q'.version)
      && q'.version == q.version + |q.nodes.Keys * r.value.contracted| + 1
      && q'.checkpoints == q.checkpoints
  {
    ReviseByVerdict(q, sem, id, value, prov, confidence);
    hide Revise, Audit, CheckContradiction, ContractionSet, RemoveNodes, Extensional;
    assert q.nodes.Keys * {} == {};
  }

  lemma {:induction false} SurvivingLists(
    edges: seq<Edge<CausalEdge>>, dead: set<Slot>, target: Slot)
    ensures forall ps :: ps in PremiseLists(WithoutSlots(edges, dead), target) ==>
      ps in PremiseLists(edges, target)
    decreases |edges|
  {
    if edges != [] {
      SurvivingLists(edges[1..], dead, target);
      var rest := WithoutSlots(edges[1..], dead);
      assert ([edges[0]] + rest)[1..] == rest;
    }
  }

  /** After a contradicting revision no support path into the belief is both non-empty and fully
      live. */
  lemma SupportIsBroken(
    q: Quad, sem: Semantics, id: BeliefId, value: BeliefValue, prov: Provenance, confidence: real)
    requires Synced(q) && CheckContradiction(q, sem, id, value).0
    requires Revise(q, sem, id, value, prov, confidence).1.Ok?
    ensures
      var q' := Revise(q, sem, id, value, prov, confidence).0;
      forall ps :: ps in InferredFromPremises(q'.causal, id) && ps != [] ==>
        exists p :: p in ps && p !in q'.nodes
  {
    var q' := Revise(q, sem, id, value, prov, confidence).0;
    SurvivingLists(q.causal.edges, SlotsOf(q.causal, ContractionSet(q, id)), q.causal.indices[id]);
    forall ps | ps in InferredFromPremises(q'.causal, id) && ps != []
      ensures exists p :: p in ps && p !in q'.nodes
    {
      assert ps in InferredFromPremises(q.causal, id);
      var w := Weakest(q.nodes, ps);
      assert w in ContractionSet(q, id);
    }
  }

  lemma ExpandKeepsValid(
    q: Quad, id: BeliefId, value: BeliefValue, prov: Provenance, confidence: real, resetSlow: bool)
    requires ValidQuad(q) && id in q.nodes
    ensures ValidQuad(Expand(q, id, value, prov, confidence, resetSlow))
  {
    UpdateKeepsValid(q, Expand(q, id, value, prov, confidence, resetSlow));
  }

  lemma ReviseKeepsValid(
    q: Quad, sem: Semantics, id: BeliefId, value: BeliefValue, prov: Provenance, confidence: real)
    requires ValidQuad(q)
    ensures ValidQuad(Revise(q, sem, id, value, prov, confidence).0)
  {
    hide ValidQuad, Contract, Expand, Audit, CheckContradiction, ContractionSet;
    var base := Contract(q, ContractionSet(q, id));
    ContractKeepsValid(q, ContractionSet(q, id));
    if id in q.nodes { ExpandKeepsValid(q, id, value, prov, confidence, false); }
    if id in base.nodes { ExpandKeepsValid(base, id, value, prov, confidence, true); }
  }

  // ---- Hitting sets -----------------------------------------------------------------------------------------

  ghost predicate Hits(s: set<BeliefId>, lists: seq<seq<BeliefId>>) {
    forall ps :: ps in lists && ps != [] ==> exists p :: p in ps && p in s
  }

  ghost predicate MinimalHitting(s: set<BeliefId>, lists: seq<seq<BeliefId>>) {
    Hits(s, lists) && forall x :: x in s ==> !Hits(s - {x}, lists)
  }

  /** x is the only chosen premise of some path. */
  ghost predicate HasPrivatePath(s: set<BeliefId>, lists: seq<seq<BeliefId>>, x: BeliefId) {
    exists ps :: ps in lists && x in ps && forall p :: p in ps && p in s ==> p == x
  }

  lemma ContractionHits(nodes: Arena, lists: seq<seq<BeliefId>>)
    ensures Hits(WeakestOfEach(nodes, lists), lists)
  {
    forall ps | ps in lists && ps != []
      ensures exists p :: p in ps && p in WeakestOfEach(nodes, lists)
    {
      assert Weakest(nodes, ps) in ps;
    }
  }

  lemma PrivatePathIff(nodes: Arena, lists: seq<seq<BeliefId>>, s: set<BeliefId>, x: BeliefId)
    requires s == WeakestOfEach(nodes, lists) && x in s
    ensures !Hits(s - {x}, lists) <==> HasPrivatePath(s, lists, x)
  {
    if !Hits(s - {x}, lists) {
      var ps :| ps in lists && ps != [] && forall p :: p in ps ==> p !in s - {x};
      var w := Weakest(nodes, ps);
      assert w in s && w in ps;
      assert ps in lists && x in ps && forall p :: p in ps && p in s ==> p == x;
    }
    if HasPrivatePath(s, lists, x) {
      var ps :| ps in lists && x in ps && forall p :: p in ps && p in s ==> p == x;
      assert ps != [] && forall p :: p in ps ==> p !in s - {x};
    }
  }

  /** The weakest premise of some path. */
  ghost predicate Chosen(nodes: Arena, lists: seq<seq<BeliefId>>, p: BeliefId) {
    exists ps :: ps in lists && ps != [] && p == Weakest(nodes, ps)
  }

  /** A path that contains no other path's weakest premise. */
  ghost predicate StandsAlone(nodes: Arena, lists: seq<seq<BeliefId>>, ps: seq<BeliefId>) {
    ps in lists && ps != [] && forall p :: p in ps && Chosen(nodes, lists, p) ==> p == Weakest(nodes, ps)
  }

  ghost predicate HasLonePath(nodes: Arena, lists: seq<seq<BeliefId>>, x: BeliefId) {
    exists ps :: StandsAlone(nodes, lists, ps) && Weakest(nodes, ps) == x
  }

  lemma PrivateIffAlone(nodes: Arena, lists: seq<seq<BeliefId>>, s: set<BeliefId>, x: BeliefId)
    requires s == WeakestOfEach(nodes, lists) && x in s
    ensures HasPrivatePath(s, lists, x) <==> HasLonePath(nodes, lists, x)
  {
    assert forall p :: p in s <==> Chosen(nodes, lists, p);
    if HasPrivatePath(s, lists, x) {
      var ps :| ps in lists && x in ps && forall p :: p in ps && p in s ==> p == x;
      assert Weakest(nodes, ps) in ps && Weakest(nodes, ps) in s;
      assert StandsAlone(nodes, lists, ps);
    }
    if HasLonePath(nodes, lists, x) {
      var ps :| StandsAlone(nodes, lists, ps) && Weakest(nodes, ps) == x;
      assert ps in lists && x in ps;
    }
  }

  lemma NeededIffLonePath(nodes: Arena, lists: seq<seq<BeliefId>>, s: set<BeliefId>, x: BeliefId)
    requires s == WeakestOfEach(nodes, lists) && x in s
    ensures !Hits(s - {x}, lists) <==> HasLonePath(nodes, lists, x)
  {
    hide WeakestOfEach;
    PrivatePathIff(nodes, lists, s, x);
    PrivateIffAlone(nodes, lists, s, x);
  }

  /** The contraction set is minimal if and only if for every support path there is one with the same
      weakest premise that contains no other path's weakest premise. */
  lemma ContractionMinimalIff(nodes: Arena, lists: seq<seq<BeliefId>>)
    ensures MinimalHitting(WeakestOfEach(nodes, lists), lists) <==>
      forall ps :: ps in lists && ps != [] ==> HasLonePath(nodes, lists, Weakest(nodes, ps))
  {
    MinimalIffLonePaths(nodes, lists);
    var s := WeakestOfEach(nodes, lists);
    hide MinimalHitting, HasLonePath, WeakestOfEach, Weakest;
    if forall x :: x in s ==> HasLonePath(nodes, lists, x) {
      forall ps | ps in lists && ps != [] ensures HasLonePath(nodes, lists, Weakest(nodes, ps)) {
        assert Weakest(nodes, ps) in s;
      }
    } else {
      var x :| x in s && !HasLonePath(nodes, lists, x);
      var ps :| ps in lists && ps != [] && x == Weakest(nodes, ps);
    }
  }

  lemma MinimalIffLonePaths(nodes: Arena, lists: seq<seq<BeliefId>>)
    ensures
      var s := WeakestOfEach(nodes, lists);
      MinimalHitting(s, lists) <==> forall x :: x in s ==> HasLonePath(nodes, lists, x)
  {
    hide Hits, HasLonePath, WeakestOfEach;
    var s := WeakestOfEach(nodes, lists);
    ContractionHits(nodes, lists);
    forall x | x in s ensures !Hits(s - {x}, lists) <==> HasLonePath(nodes, lists, x) {
      NeededIffLonePath(nodes, lists, s, x);
    }
  }

  ghost predicate DisjointLists(lists: seq<seq<BeliefId>>) {
    forall a, b, p :: a in lists && b in lists && p in a && p in b ==> a == b
  }

  lemma DisjointPathIsAlone(nodes: Arena, lists: seq<seq<BeliefId>>, ps: seq<BeliefId>)
    requires DisjointLists(lists) && ps in lists && ps != []
    ensures StandsAlone(nodes, lists, ps)
  {
    forall p | p in ps && Chosen(nodes, lists, p) ensures p == Weakest(nodes, ps) {
      var other :| other in lists && other != [] && p == Weakest(nodes, other);
    }
  }

  /** Disjoint support paths make the contraction set minimal. */
  lemma DisjointPathsContractMinimally(nodes: Arena, lists: seq<seq<BeliefId>>)
    requires DisjointLists(lists)
    ensures MinimalHitting(WeakestOfEach(nodes, lists), lists)
  {
    ContractionMinimalIff(nodes, lists);
    hide MinimalHitting, WeakestOfEach;
    forall ps | ps in lists && ps != [] ensures HasLonePath(nodes, lists, Weakest(nodes, ps)) {
      DisjointPathIsAlone(nodes, lists, ps);
    }
  }

  // ---- Extensionality ---------------------------------------------------------------------------------------

  /** `b` is an in-quad paraphrase of the text `a`. */
  predicate Paraphrases(sem: Semantics, a: BeliefValue, b: BeliefValue) {
    && a.Asserted? && b.Asserted? && sem.embed.Some?
    && sem.embed.value(a.text).Some? && sem.embed.value(b.text).Some?
    && sem.classify(sem.embed.value(a.text).value, sem.embed.value(b.text).value).Equivalent?
  }

  lemma ParaphraseSameVerdict(q: Quad, sem: Semantics, id: BeliefId, value: BeliefValue, other: BeliefId)
    requires id in q.nodes && other in q.nodes && other != id
    requires Paraphrases(sem, value, q.nodes[other].value)
    requires Extensional(q, sem, id, value, CheckContradiction(q, sem, id, value).0)
    ensures CheckContradiction(q, sem, id, q.nodes[other].value).0 == CheckContradiction(q, sem, id, value).0
  {
    assert !Disagrees(q, sem, id, value, CheckContradiction(q, sem, id, value).0, other);
  }

  /** The two states differ at most in what the belief says. */
  ghost predicate Alike(a: Quad, b: Quad, id: BeliefId) {
    id in a.nodes && id in b.nodes
      && b == a.(nodes := a.nodes[id := a.nodes[id].(value := b.nodes[id].value)])
  }

  /** A contradiction would remove no belief and reset no slow confidence. */
  ghost predicate ContractsNothing(q: Quad, id: BeliefId) {
    id in q.nodes && ContractionSet(q, id) !! q.nodes.Keys && q.nodes[id].slow.None?
  }

  lemma AlikeSymmetric(a: Quad, b: Quad, id: BeliefId)
    requires Alike(a, b, id)
    ensures Alike(b, a, id)
  {
    assert a.nodes == b.nodes[id := b.nodes[id].(value := a.nodes[id].value)];
  }

  lemma ExpandAlike(
    base: Quad, id: BeliefId, v: BeliefValue, w: BeliefValue, prov: Provenance, confidence: real, reset: bool)
    requires id in base.nodes
    ensures Alike(Expand(base, id, v, prov, confidence, reset), Expand(base, id, w, prov, confidence, reset), id)
  {
    var a := Expand(base, id, v, prov, confidence, reset);
    var b := Expand(base, id, w, prov, confidence, reset);
    assert b.nodes == a.nodes[id := a.nodes[id].(value := b.nodes[id].value)];
  }

  lemma RemoveOthers<W>(p: Proj<W>, ids: set<BeliefId>)
    requires ids !! p.indices.Keys
    ensures RemoveNodes(p, ids) == p
  {
    WithoutNoSlots(p.edges);
    assert SlotsOf(p, ids) == {};
    assert p.indices - ids == p.indices && p.slots - {} == p.slots;
  }

  lemma ContractOthers(q: Quad, ids: set<BeliefId>)
    requires AllInStep(q) && ids !! q.nodes.Keys
    ensures Contract(q, ids) == q
  {
    RemoveOthers(q.semantic, ids);
    RemoveOthers(q.temporal, ids);
    RemoveOthers(q.causal, ids);
    RemoveOthers(q.entity, ids);
    hide ValidProj, RemoveNodes;
    MinusOthers(q.nodes, ids);
  }

  lemma MinusOthers<V>(m: map<BeliefId, V>, s: set<BeliefId>)
    requires s !! m.Keys
    ensures m - s == m && m.Keys * s == {}
  {
  }

  /** Nothing to contract: the two ways of expanding agree. */
  lemma ContractionHidden(
    q: Quad, id: BeliefId, v: BeliefValue, w: BeliefValue, prov: Provenance, confidence: real)
    requires AllInStep(q) && ContractsNothing(q, id)
    ensures
      var base := Contract(q, ContractionSet(q, id));
      && id in base.nodes
      && Alike(Expand(q, id, v, prov, confidence, false), Expand(base, id, w, prov, confidence, true), id)
  {
    ContractOthers(q, ContractionSet(q, id));
    hide ContractionSet, Contract, AllInStep;
    ExpandAlike(q, id, v, w, prov, confidence, false);
    assert Expand(q, id, w, prov, confidence, true) == Expand(q, id, w, prov, confidence, false);
  }

  /** Otherwise the arenas show the difference. */
  lemma ContractionSeen(
    q: Quad, base: Quad, gone: set<BeliefId>, id: BeliefId, v: BeliefValue, w: BeliefValue,
    prov: Provenance, confidence: real)
    requires id in q.nodes && id !in gone && base.nodes == q.nodes - gone
    requires Alike(Expand(q, id, v, prov, confidence, false), Expand(base, id, w, prov, confidence, true), id)
    ensures gone !! q.nodes.Keys && q.nodes[id].slow.None?
  {
    var a, b := Expand(q, id, v, prov, confidence, false), Expand(base, id, w, prov, confidence, true);
    assert a.nodes.Keys == q.nodes.Keys && b.nodes.Keys == q.nodes.Keys - gone;
    assert a.nodes.Keys == b.nodes.Keys;
    assert b.nodes[id].slow == a.nodes[id].slow;
  }

  /** Expanding with and without contraction agree only when there is nothing to contract. */
  lemma ContractionShowsIff(
    q: Quad, id: BeliefId, v: BeliefValue, w: BeliefValue, prov: Provenance, confidence: real)
    requires AllInStep(q) && id in q.nodes && id !in ContractionSet(q, id)
    ensures
      var base := Contract(q, ContractionSet(q, id));
      && id in base.nodes
      && Alike(Expand(q, id, v, prov, confidence, false), Expand(base, id, w, prov, confidence, true), id)
           == ContractsNothing(q, id)
  {
    var gone := ContractionSet(q, id);
    var base := Contract(q, gone);
    assert base.nodes == q.nodes - gone;
    if ContractsNothing(q, id) { ContractionHidden(q, id, v, w, prov, confidence); }
    hide AllInStep, ContractionSet, Contract, Alike, Expand;
    if Alike(Expand(q, id, v, prov, confidence, false), Expand(base, id, w, prov, confidence, true), id) {
      ContractionSeen(q, base, gone, id, v, w, prov, confidence);
    }
  }

  /** K*6 for any two values, told from the quad alone: given that revision by the first succeeds,
      revision by the second succeeds and leaves the same state but for the value if and only if no
      in-quad paraphrase disagrees with the second and the two get the same verdict, or the verdict
      makes no difference. */
  lemma RevisedAlikeIff(
    q: Quad, sem: Semantics, id: BeliefId, v: BeliefValue, w: BeliefValue, prov: Provenance, confidence: real)
    requires AllInStep(q) && Revise(q, sem, id, v, prov, confidence).1.Ok?
    ensures
      var (a, ra) := Revise(q, sem, id, v, prov, confidence);
      var (b, rb) := Revise(q, sem, id, w, prov, confidence);
      var cv, cw := CheckContradiction(q, sem, id, v).0, CheckContradiction(q, sem, id, w).0;
      (rb.Ok? && Alike(a, b, id)) == (Extensional(q, sem, id, w, cw) && (cv == cw || ContractsNothing(q, id)))
  {
    ReviseSucceedsIff(q, sem, id, v, prov, confidence);
    ReviseSucceedsIff(q, sem, id, w, prov, confidence);
    hide Revise, CheckContradiction, Extensional, Contract, ContractionSet, Expand, AllInStep, Alike;
    var cv, cw := CheckContradiction(q, sem, id, v).0, CheckContradiction(q, sem, id, w).0;
    if Revise(q, sem, id, w, prov, confidence).1.Ok? {
      ReviseByVerdict(q, sem, id, v, prov, confidence);
      ReviseByVerdict(q, sem, id, w, prov, confidence);
      if cv == cw {
        var base := if cv then Contract(q, ContractionSet(q, id)) else q;
        ExpandAlike(base, id, v, w, prov, confidence, cv);
      } else if cw {
        ContractionShowsIff(q, id, v, w, prov, confidence);
      } else {
        ContractionShowsIff(q, id, w, v, prov, confidence);
        AlikeBothWays(Revise(q, sem, id, v, prov, confidence).0, Revise(q, sem, id, w, prov, confidence).0, id);
      }
    }
  }

  lemma AlikeBothWays(a: Quad, b: Quad, id: BeliefId)
    ensures Alike(a, b, id) <==> Alike(b, a, id)
  {
    if Alike(a, b, id) { AlikeSymmetric(a, b, id); }
    if Alike(b, a, id) { AlikeSymmetric(b, a, id); }
  }

  /** K*6 as the audit secures it: when revision by a text succeeds, revision by an in-quad paraphrase
      of it either contracts the same beliefs and leaves the same state, but for the text itself, or is
      refused; and it is refused exactly when some paraphrase of the paraphrase gets another verdict. */
  lemma ParaphrasesReviseAlike(
    q: Quad, sem: Semantics, id: BeliefId, value: BeliefValue, other: BeliefId,
    prov: Provenance, confidence: real)
    requires id in q.nodes && other in q.nodes && other != id
    requires Paraphrases(sem, value, q.nodes[other].value)
    requires Revise(q, sem, id, value, prov, confidence).1.Ok?
    ensures
      var (a, ra) := Revise(q, sem, id, value, prov, confidence);
      var (b, rb) := Revise(q, sem, id, q.nodes[other].value, prov, confidence);
      var contradicts := CheckContradiction(q, sem, id, value).0;
      && (rb.Ok? <==> Extensional(q, sem, id, q.nodes[other].value, contradicts))
      && (rb.Err? ==> rb.error == PostulateViolation("K*6 (extensionality)") && b == q)
      && (rb.Ok? ==> ra.value.contracted == rb.value.contracted && Alike(a, b, id))
  {
    var v := q.nodes[other].value;
    ReviseSucceedsIff(q, sem, id, value, prov, confidence);
    ReviseSucceedsIff(q, sem, id, v, prov, confidence);
    if !Extensional(q, sem, id, v, CheckContradiction(q, sem, id, v).0) {
      RefusedForExtensionality(q, sem, id, v, prov, confidence);
    }
    ReviseByVerdict(q, sem, id, value, prov, confidence);
    hide Revise, CheckContradiction, Paraphrases, Extensional, Contract, ContractionSet, Expand, Alike;
    ParaphraseSameVerdict(q, sem, id, value, other);
    if Revise(q, sem, id, v, prov, confidence).1.Ok? {
      ReviseByVerdict(q, sem, id, v, prov, confidence);
      var contradicts := CheckContradiction(q, sem, id, value).0;
      var base := if contradicts then Contract(q, ContractionSet(q, id)) else q;
      ExpandAlike(base, id, value, v, prov, confidence, contradicts);
    }
  }

  lemma RefusedForExtensionality(
    q: Quad, sem: Semantics, id: BeliefId, value: BeliefValue, prov: Provenance, confidence: real)
    requires id in q.nodes && !Extensional(q, sem, id, value, CheckContradiction(q, sem, id, value).0)
    ensures Revise(q, sem, id, value, prov, confidence) == (q, Err(PostulateViolation("K*6 (extensionality)")))
  {
  }

  // ---- The method -------------------------------------------------------------------------------------------

  method ApplyContraction(q: BeliefQuad, ids: set<BeliefId>)
    requires q.Separate() && AllInStep(q.State())
    modifies q.Owned()
    ensures q.State() == Contract(old(q.State()), ids)
  {
    hide AllInStep, Contract, RemoveBelief;
    ghost var start := q.State();
    ContractNothing(start);
    var rest := ids;
    assert ids - rest == {};
    while rest != {}
      invariant rest <= ids
      invariant q.State() == Contract(start, ids - rest)
      decreases rest
    {
      var id :| id in rest;
      ContractOneMore(start, ids - rest, id);
      assert ids - rest + {id} == ids - (rest - {id});
      var removed := q.Remove(id);
      rest := rest - {id};
    }
    assert ids - rest == ids;
  }

  method ExpandNode(
    q: BeliefQuad, id: BeliefId, value: BeliefValue, prov: Provenance, confidence: real, resetSlow: bool)
    requires q.Separate() && id in q.nodes
    modifies q`nodes, q`version
    ensures q.State() == Expand(old(q.State()), id, value, prov, confidence, resetSlow)
  {
    var node := q.nodes[id].(value := value, provenance := prov, fast := Clamp01(confidence));
    if resetSlow {
      node := node.(slow := None);
    }
    q.nodes := q.nodes[id := node];
    q.version := q.version + 1;
  }

  method ComputeAudit(q: Quad, sem: Semantics, id: BeliefId, value: BeliefValue)
    returns (contradicts: bool, audit: PostulateAudit)
    requires id in q.nodes
    ensures contradicts == CheckContradiction(q, sem, id, value).0
    ensures audit == Audit(q, sem, id, value)
  {
    var (c, trace) := CheckContradiction(q, sem, id, value);
    contradicts := c;
    var extensional, culprit := CheckExtensionality(q, sem, id, value, contradicts);
    audit := PostulateAudit(true, true, !contradicts, !IsSelfContradictory(value), extensional, trace);
  }

  method ReviseQuad(
    q: BeliefQuad, sem: Semantics, id: BeliefId, value: BeliefValue, prov: Provenance, confidence: real)
    returns (r: Result<RevisionRecord, RevisionError>)
    requires q.Separate() && AllInStep(q.State())
    modifies q.Owned()
    ensures (q.State(), r) == Revise(old(q.State()), sem, id, value, prov, confidence)
  {
    if id !in q.nodes {
      return Err(BeliefNotFound);
    }
    var contradicts, audit := ComputeAudit(q.State(), sem, id, value);
    if !audit.AllCriticalPass() {
      return Err(PostulateViolation(audit.FailedPostulate()));
    }
    if !contradicts {
      r := Ok(Record(q.State(), id, value, confidence, {}, audit));
      ExpandNode(q, id, value, prov, confidence, false);
      return;
    }
    var contracted := ContractionSet(q.State(), id);
    ApplyContraction(q, contracted);
    if id !in q.nodes {
      return Err(BeliefNotFound);
    }
    r := Ok(Record(q.State(), id, value, confidence, contracted, audit));
    ExpandNode(q, id, value, prov, confidence, true);
  }
}
