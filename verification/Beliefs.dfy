/** Belief nodes and the edge kinds of the four projections.
    Confidences are reals: NaN and rounding are not modelled.  A JSON value is modelled by its text. */
module Beliefs {
  import opened Wrappers
  import opened Projections

  datatype BeliefValue =
    | Deterministic(json: string)
    | Inferred(json: string)
    | Asserted(text: string)
    | Reference(target: BeliefId)

  datatype Provenance =
    | ToolResult(tool: string, callId: nat)
    | LlmInference(model: string, callId: nat, promptHash: nat)
    | UserStatement(turn: nat)

  datatype BeliefNode = BeliefNode(
    id: BeliefId,
    key: string,
    value: BeliefValue,
    provenance: Provenance,
    createdAtMs: nat,
    ttlMs: Option<nat>,
    fast: real,
    slow: Option<real>,
    reflectionThreshold: real,
    prospect: bool)

  datatype SemanticEdge = Subsumes | Contradicts | Synonymous

  datatype TemporalEdge = Precedes(gapMs: nat) | CoOccurs | Supersedes

  datatype CausalEdge =
    | Causes(effectSize: real, confidence: real)
    | InferredFrom(premises: seq<BeliefId>)
    | Counterfactual(antecedent: BeliefId)

  datatype EntityEdge =
    | ProducedBy(agent: string)
    | Consumed(byAgent: string, atTurn: nat)
    | SharedWith(agents: seq<string>)

  function Clamp01(x: real): (r: real)
    ensures 0.0 <= r <= 1.0
    ensures 0.0 <= x <= 1.0 ==> r == x
    ensures (x < 0.0 ==> r == 0.0) && (x > 1.0 ==> r == 1.0)
  {
    if x < 0.0 then 0.0 else if x > 1.0 then 1.0 else x
  }
}
