# Epica: verified models of the ledger, the belief quad, contracts and the System 2 budget

Epica keeps an agent's beliefs in a *quad*: an arena of belief nodes mirrored in four graph
projections (semantic, temporal, causal, entity).  Updates go through AGM revision, confidence
propagation and contract enforcement; every governance event can be sealed into a hash-chained,
Merkle-committed ledger and attested by signed receipts.  This project models those parts in Dafny
and proves what they promise, on all inputs and over all runs.

`dafny verify dfyconfig.toml` checks the whole project.

## How the model is built

- **State as a value, code as objects.**  The source's mutable structures are classes (`AuditLedger`,
  `Projection`, `BeliefQuad`, `ContractEngine`, `BeliefRuntime`, `TokenBucket`, `InMemoryTaskStore`,
  `Service`); its loops are methods with invariants.  Each method is proved to do what a function on
  the state's value says, and the theorems are about those functions.
- **Digests are terms** (`Digests.Digest`): equal digests mean equal inputs of the same kind, and a
  digest that no hash call made is `Other`.  Signatures are ideal: `Signed(key, message)`.  Two
  assumptions about the JSON encoding of audit entries stand behind this.  That different entries
  encode differently is named, `Digests.InjectiveEncoding`, and only the results that need it require
  it.  That an entry digest is never a leaf, node or binding digest is built into the term `EntryH`:
  `hash_entry` adds no domain prefix (crates/epica-contracts/src/sovereignty/ledger.rs:299-305), so it
  rests on the encoding being longer than the 1 and 33 bytes that a leaf or a node would leave for it,
  which the field names alone ensure, and on no previous hash beginning with the binding's tag.
- **Whatever a library, a clock or a random generator chooses is an argument**: belief ids, graph
  slots and checkpoint ids (required to be unused), the decay factor at a visit, the times a bucket
  reads, the order in which a hash map yields its keys.  Belief ids are numbers ordered as the arena
  iterates.  Results hold for every choice.
- **Numbers.**  Confidences and ranks are reals; NaN and rounding are not modelled.  Sequence numbers,
  lengths and versions are unbounded naturals: the source only counts with them.
- `hide` statements keep large definitions out of proofs that only pass them along.

| file | subject |
|---|---|
| Wrappers, Sequences, Digests, Merkle, Ledger, Receipts | hash chain, Merkle tree, inclusion proofs, receipts |
| Projection, Reachability, PageRank | one graph projection, depth-first search, centrality |
| Beliefs, Diffs, Quads, Runs | the quad, its diff, checkpoints and rollback, runs of operations |
| NoisyOr, System1, FreeEnergy | propagation and the structural prior |
| Embedding, Revision | similarity, AGM revision |
| Counterfactuals | counterfactual worlds, verified forgetting |
| Scenarios | reachable states in which the code falls short of its documentation |
| Contracts, Runtime | contract enforcement and the update transaction |
| Budget | token bucket, task store, the System 2 protocol |

## Where the code and its documentation differ

The model follows the code.

- `verify_chain` never looks at the recorded head hash, although its comment says so
  (crates/epica-contracts/src/sovereignty/ledger.rs:125-144): `Ledger.AuditLedger.VerifyChain`.
- Inclusion proofs in a receipt are checked against the root of the full ledger, not against the
  receipt's own root (crates/epica-zk-evidence/src/receipt.rs:36-39 against
  crates/epica-zk-evidence/src/verifier.rs:201-207).  `Receipts.InclusionMeetsReceiptRootIff` says when
  the documented check would pass as well: exactly when the receipt seals the whole ledger.
  `Receipts.SubWindowInclusionMissesRoot` is a receipt that verifies although it would not.  In return a
  single in-range inclusion request makes a receipt bind the whole ledger: `Receipts.SealedVerifiesIff`.
- System 1 visits each belief once, in an order that hash iteration picks, so it does not reach a fixed
  point in general.  `System1.PropagationSettlesIff` gives the exact condition on the graph under which
  every order that the recursion can take reaches one, and `Scenarios.ChainStaysUnsettled` is a
  reachable quad on which an order of the recursion does not.
- For the same reason it is not deterministic (crates/epica-core/src/system1/mod.rs:14).
  `System1.PropagationDeterministicIff` gives the exact condition on the graph, and
  `Scenarios.ChainDependsOnOrder` a reachable quad on which two orders leave different confidences.
- The contraction set is not minimal in general: `Revision.ContractionMinimalIff` gives the exact
  condition, `Scenarios.OverlapContractsTooMuch` a reachable quad that fails it.
- A contradicting revision of a belief that is its own weakest premise removes the belief and reports
  that it does not exist: `Revision.ReviseSucceedsIff`, `Scenarios.SelfSupportedBeliefIsLost`.
- The comment on the postulate audit calls it not blocking
  (crates/epica-core/src/revision/postulates.rs:12); a failed K*6 check blocks the revision, as
  docs/agm_postulates.md says and `Scenarios.ParaphraseIsRefused` shows on a reachable quad.
- K*6 is documented as exact given the provider's verdicts.  Similarity is not transitive, so revision by
  a text can succeed where revision by its paraphrase is refused: `Scenarios.ParaphraseIsRefused`.
  `Revision.ParaphrasesReviseAlike` says exactly when, and `Revision.RevisedAlikeIff` gives the exact
  condition for any two values, in the quad or not.
- The contraction set is documented as the direct premises (docs/agm_postulates.md:139-141); the code
  takes the weakest premise of each list.
- Rollback is refused when the diff sees nothing, and the diff sees neither edges nor slow
  confidences: `Runs.RollbackExact`, `Runs.RollbackIgnoresEdges`, `Contracts.RecoverySucceedsIff`.  A
  successful rollback leaves no checkpoints and can lower the version.
- `update_belief` starts propagation at the updated belief, so while the belief has an InferredFrom edge
  its premises decide what is stored, not the caller: `Contracts.StoredConfidence`, and on reachable quads
  `Scenarios.CallersConfidenceIsReplaced`.
- `surviving_count` is off by one for an antecedent that is not live: `Counterfactuals.CountRightIffLive`.
- The degraded confidence floor is not clamped: `Contracts.DegradeConfidentIff`.
- The structural prior is documented to coincide with System 1; `FreeEnergy.PriorCoincidesIff` says
  exactly on which premise lists it does, and `FreeEnergy.PriorDominatesIff` exactly on which it is at
  least an upper bound.  `Scenarios.RepeatedPremiseBeatsPrior` is a reachable quad on which it is not.

## Model

| member | source | states |
|---|---|---|
| Ledger.AuditLedger.Append | crates/epica-contracts/src/sovereignty/ledger.rs:113-121 | appending keeps the chain sound, adds exactly the given entry on top and leaves everything below |
| Ledger.AuditLedger.VerifyChain | crates/epica-contracts/src/sovereignty/ledger.rs:128-144 | accepts exactly the chains with invariants 1 to 4; otherwise names the least broken index, and reports a hash mismatch exactly when position and linkage are intact there |
| Ledger.LastHashDeterminesChain | crates/epica-contracts/src/sovereignty/ledger.rs:71-81 | two sound chains with the same final self-hash, or both empty, are identical |
| Ledger.HistoryDetermined | crates/epica-contracts/src/sovereignty/ledger.rs:21-26 | a self-hash determines its position and the whole history up to it |
| Ledger.TamperPropagates | crates/epica-contracts/src/sovereignty/ledger.rs:7-12 | if two sound chains differ in some entry, every self-hash from there on differs |
| Ledger.RewrittenEntryFound | crates/epica-contracts/src/sovereignty/ledger.rs:363-382 | rewriting one entry in place breaks the checks at that entry, as a hash mismatch, and nowhere else |
| Ledger.SoundIffSealed | crates/epica-contracts/src/sovereignty/ledger.rs:71-81 | the sound chains are exactly the ones that sealing their own entries one by one produces |
| Ledger.SealedIsSound | crates/epica-contracts/src/sovereignty/ledger.rs:113-121 | appending any entries to an empty ledger gives a sound chain that holds exactly those entries |
| Ledger.SelfHashesDistinct | crates/epica-contracts/src/sovereignty/ledger.rs:113-121 | no two entries of a sound chain share a self-hash |
| Ledger.AuditLedger.MerkleRoot | crates/epica-contracts/src/sovereignty/ledger.rs:156-176 | the loop computes the reference root of the self-hashes, the zero digest when empty |
| Ledger.AuditLedger.MerkleProof | crates/epica-contracts/src/sovereignty/ledger.rs:194-235 | the loop computes the reference path, or nothing out of range |
| Ledger.RootDeterminesLedger | crates/epica-contracts/src/sovereignty/ledger.rs:146-176 | two append-built ledgers have the same Merkle root if and only if they are equal, length included |
| Ledger.LedgerInclusionExact | crates/epica-contracts/src/sovereignty/ledger.rs:238-274 | against a ledger's root a proof passes exactly when it is the ledger's own proof for that position and leaf |
| Merkle.InclusionExact | crates/epica-contracts/src/sovereignty/ledger.rs:248-274 | the verifier accepts if and only if the position is in range, the leaf is right and the path is the computed one; no longer or shorter path passes |
| Merkle.SamePathSameRoot | crates/epica-contracts/src/sovereignty/ledger.rs:206-234 | the same path from the same node leads two levels in a common order to the same root only, whatever their sizes and wherever the node stands |
| Merkle.ProofLength | crates/epica-contracts/src/sovereignty/ledger.rs:183-190 | the length of every proof is the base-2 logarithm of the entry count, rounded up |
| Merkle.PathClimbs | crates/epica-contracts/src/sovereignty/ledger.rs:194-235 | completeness: climbing along the computed path rebuilds the root in exactly that many steps |
| Merkle.ClimbExact | crates/epica-contracts/src/sovereignty/ledger.rs:248-274 | soundness: only the node at the position, along the computed path, climbs to the root |
| Merkle.RootDeterminesLeaves | crates/epica-contracts/src/sovereignty/ledger.rs:156-176 | pairwise distinct self-hashes are recovered from their root, their number included, despite odd-tail duplication |
| Merkle.DuplicatedTailCollides | crates/epica-contracts/src/sovereignty/ledger.rs:166-174 | without distinctness the odd-tail rule collides: [a, b, c] and [a, b, c, c] have the same root |
| Merkle.VerifyMerkleProof | crates/epica-contracts/src/sovereignty/ledger.rs:248-274 | the loop decides exactly the reference acceptance predicate |
| Merkle.ComputePath | crates/epica-contracts/src/sovereignty/ledger.rs:206-234 | the level-by-level loop with odd-tail siblings yields the reference path |
| Merkle.ReduceLevel | crates/epica-contracts/src/sovereignty/ledger.rs:167-173 | pairing up a level in chunks of two yields the reference reduction |
| Merkle.SmallTrees | crates/epica-contracts/src/sovereignty/ledger.rs:156-176 | the trees over one, three and four entries: left to right, an odd last node paired with itself |
| Receipts.WindowMerkleRoot | crates/epica-zk-evidence/src/prover.rs:215-249 | the window loop computes the reference root of the window, the zero digest for a bad window |
| Receipts.FullWindowRoot | crates/epica-zk-evidence/src/prover.rs:209-214 | over the whole ledger the window root is the ledger's Merkle root |
| Receipts.SealVerifyRoundTrip | crates/epica-zk-evidence/src/prover.rs:125-189 | sealing succeeds exactly on in-range windows; the receipt carries the given label, time, range, length and key and, in order and with repeats, one proof for each inclusion request that exists, with that entry's self-hash and path; and it verifies against its ledger |
| Receipts.VerifyIff | crates/epica-zk-evidence/src/verifier.rs:130-217 | verification accepts exactly the receipts with the right schema, length, range, window root and signature whose inclusions are all the ledger's own proofs; an error names the first layer, and the first inclusion, that fails |
| Receipts.SealedVerifiesIff | crates/epica-zk-evidence/src/verifier.rs:130-217 | the exact set of append-built ledgers a sealed receipt verifies against: same length and same entries up to the window's end, or the sealed ledger alone once an in-range inclusion was requested |
| Receipts.ReceiptBindsPrefix | crates/epica-zk-evidence/src/verifier.rs:130-217 | no receipt, whoever made it, verifies against two append-built ledgers that differ in length or before the window's end |
| Receipts.WindowRootBinds | crates/epica-zk-evidence/src/prover.rs:215-249 | equal window roots over a range are equivalent to equal histories up to its end |
| Receipts.SignatureBindsFields | crates/epica-zk-evidence/src/receipt.rs:134-151 | a receipt that carries a sealed signature verifies only with the sealing key and with every signed field unchanged |
| Receipts.IssuedProofPassesIff | crates/epica-zk-evidence/src/verifier.rs:185-213 | a proof issued by one ledger passes against another of the same length exactly when their full roots are equal |
| Receipts.InclusionMeetsReceiptRootIff | crates/epica-zk-evidence/src/receipt.rs:36-39 | an inclusion that passed verification hashes into the receipt's own root, from its place in the ledger or in the window, if and only if the receipt seals the whole ledger |
| Receipts.SubWindowInclusionMissesRoot | crates/epica-zk-evidence/src/verifier.rs:185-213 | a receipt over one of two entries with a proof for that entry verifies, and the proof misses the receipt's root |
| Receipts.RebuildLedger | crates/epica-zk-evidence/src/bin/verify.rs:230-242 | rebuilding succeeds exactly when the sequence numbers count up, gives a sound ledger with the listed entries, and otherwise fails at the first wrong number |
| Receipts.WireDeterminesChain | crates/epica-zk-evidence/src/bin/verify.rs:215-228 | two sound chains with the same serialised (seq, entry) list are equal |
| Receipts.SealShipVerify | crates/epica-zk-evidence/src/bin/verify.rs:174-200 | a ledger shipped as (seq, entry) pairs is rebuilt identically, and a sealed receipt verifies against the rebuilt one |
| Projections.RemoveNodeRefines | crates/epica-core/src/quad/causal.rs:54-58 | removing a node keeps slots and ids mutually inverse and drops exactly the arcs that touch the belief |
| Projections.AddEdgeRefines | crates/epica-core/src/quad/causal.rs:60-64 | adding an edge adds exactly one arc between live beliefs, and nothing otherwise |
| Projections.AddNodeRefines | crates/epica-core/src/quad/causal.rs:48-52 | adding a node in an unused slot keeps the invariant and all arcs |
| Projections.Projection.Remove | crates/epica-core/src/quad/semantic.rs:60-65 | the object's removal keeps slots and ids mutually inverse, drops exactly the arcs that touch the belief, and changes nothing for an unknown one |
| Reachability.DescendantsOf | crates/epica-core/src/quad/causal.rs:69-79 | the search returns exactly the beliefs reachable from the start, without the start, also on cycles |
| Reachability.AncestorsOf | crates/epica-core/src/quad/causal.rs:85-95 | the reversed search returns exactly the beliefs that reach the start, without the start |
| Reachability.Search | crates/epica-core/src/quad/causal.rs:71-77 | the stack-based search terminates on every graph and visits every reachable slot exactly once, the start first |
| Reachability.DescendantIffAncestor | crates/epica-core/src/quad/causal.rs:66-95 | descendants and ancestors are dual |
| PageRank.MassConserved | crates/epica-core/src/quad/causal.rs:103-134 | on every graph the ranks sum to exactly 1 after every iteration and each lies in [0.15 / n, 1] |
| PageRank.RanksFollowEdges | crates/epica-core/src/quad/causal.rs:111-132 | the ranks by the edges alone: 1/n at first, and then 0.15/n plus, over every slot, 0.85 of its rank by the part of its outgoing edges that end here, parallel edges counted, or an n-th of it when it has none |
| PageRank.DistributeAt | crates/epica-core/src/quad/causal.rs:116-130 | for any choice of what the slots feed, one iteration adds to a slot the sum over all sources of the damped rank per target, times the target's multiplicity |
| PageRank.OrderIrrelevant | crates/epica-core/src/quad/causal.rs:111-132 | the ranks do not depend on the order in which the hash map yields its slots |
| PageRank.Centrality | crates/epica-core/src/quad/causal.rs:103-134 | the loops compute the belief's rank after 20 iterations as the edges say, between 0.15/n and 1, with n the number of beliefs, and zero for an unknown belief |
| NoisyOr.PremiseListsCount | crates/epica-core/src/quad/causal.rs:139-151 | a premise list occurs exactly once for each InferredFrom edge that ends in the belief and carries it, parallel edges included |
| NoisyOr.CombineLaws | crates/epica-core/src/system1/noisy_or.rs:10-18 | no evidence has strength zero, a single piece its own clamped confidence, and two bodies of evidence together fail with the product of their failures |
| NoisyOr.LiveConfidencesConcat | crates/epica-core/src/system1/mod.rs:77-81 | a path contributes the confidence of each live premise, in order and with repeats, and nothing for a dead one |
| NoisyOr.BestEvidenceIsMax | crates/epica-core/src/system1/mod.rs:86-87 | the combined evidence is the maximum over the support paths, zero when there is none |
| System1.PropagateSystem1 | crates/epica-core/src/system1/mod.rs:58-103 | propagation terminates on every graph, visits the changed belief and everything reachable from it exactly once each, in an order that the recursion can take; each visited live belief ends at the evidence that its premises gave when it was visited, times its decay factor, or unchanged without an InferredFrom edge, and nothing but the arena changes |
| System1.FinalConfidence | crates/epica-core/src/system1/mod.rs:70-96 | the same for any order: a belief ends at best evidence times decay factor, cut off at 0 and 1, as of its visit |
| System1.DecayScales | crates/epica-core/src/system1/mod.rs:89-91 | with a decay factor in [0, 1] that is exactly the product |
| System1.SettledStores | crates/epica-core/src/system1/mod.rs:15-24 | a belief is settled exactly when it stores that product for its premises as they are |
| System1.VisitsDepthFirst | crates/epica-core/src/system1/mod.rs:98-102 | in every order that the recursion can take, whatever is downstream of a visited belief and still unvisited comes right after it |
| System1.VisitAllFrame | crates/epica-core/src/system1/mod.rs:73-96 | a run of visits changes only fast confidences of visited beliefs that have an InferredFrom edge, and leaves those in [0, 1] |
| System1.PropagationSettlesIff | crates/epica-core/src/system1/mod.rs:15-24 | every order that the recursion can take leaves every visited belief at the value its premises imply, for all confidences and decay factors, if and only if no live belief within reach rests on a live belief that is rewritten too, the changed one excepted |
| System1.PropagationDeterministicIff | crates/epica-core/src/system1/mod.rs:13-14 | all orders that the recursion can take leave the same arena, for all confidences and decay factors, if and only if no live belief downstream of the change rests on another live one that is rewritten |
| System1.PremisesFirstSettles | crates/epica-core/src/system1/mod.rs:73-96 | an order that visits rewritten premises before what rests on them settles every visited belief |
| System1.EarlyReadUnsettles | crates/epica-core/src/system1/mod.rs:73-96 | an order that reads a premise before rewriting it leaves a belief unsettled in every arena where only that premise is certain |
| System1.UnfavourableOrderAllowed | crates/epica-core/src/system1/mod.rs:98-102 | on a chain of three the recursion can visit first, third, second, and then reads the second before rewriting it |
| Scenarios.ChainStaysUnsettled | crates/epica-core/src/system1/mod.rs:58-103 | a reachable quad and an order of the recursion that leaves a belief unsettled |
| Scenarios.ChainDependsOnOrder | crates/epica-core/src/system1/mod.rs:98-102 | a reachable quad and two orders of the recursion that leave different confidences |
| FreeEnergy.ComputeStructuralPrior | crates/epica-active-inference/src/free_energy.rs:94-114 | the nested loops compute the Noisy-OR over the flattened, de-duplicated, live premises |
| FreeEnergy.PriorDominatesIff | crates/epica-active-inference/src/free_energy.rs:84-114 | the prior is at least System 1's best evidence before decay, for all confidences, if and only if no premise list repeats a live premise |
| FreeEnergy.PriorCoincidesIff | crates/epica-active-inference/src/free_energy.rs:84-114 | the two are equal for all confidences if and only if some premise is live, no list repeats a live premise, and one list names every live premise |
| FreeEnergy.SinglePathPriorIsSystem1 | crates/epica-active-inference/src/free_energy.rs:84-114 | so they are equal on a single list that has a live premise and repeats none |
| FreeEnergy.RepeatBreaksDominance | crates/epica-core/src/system1/mod.rs:74-84 | whatever the lists, a live premise that one of them repeats counts twice for System 1 and once for the prior: at one half, with all else at zero, 0.75 or more against 0.5 |
| Scenarios.RepeatedPremiseBeatsPrior | crates/epica-core/src/system1/mod.rs:74-84 | a reachable quad on which that happens |
| Embeddings.CauchySchwarz | crates/epica-core/src/embedding/mod.rs:151-167 | for all equal-length vectors the squared dot product is at most the product of the squared norms |
| Embeddings.CosineInRange | crates/epica-core/src/embedding/mod.rs:145-167 | the similarity lies in [-1, 1], zero and mismatched vectors included |
| Embeddings.ClassifySymmetric | crates/epica-core/src/embedding/mod.rs:198-207 | the verdict does not depend on the order of the two texts |
| Embeddings.ClassifyIff | crates/epica-core/src/embedding/mod.rs:198-207 | equivalent exactly when the dot product reaches the first threshold times both norms, opposed exactly when it does not and is at most the second times both norms |
| Embeddings.OppositesAreOpposed | crates/epica-core/src/embedding/mod.rs:198-207 | a non-zero vector is opposed to its opposite, with score -1 |
| Embeddings.CosineScales | crates/epica-core/src/embedding/mod.rs:151-167 | the similarity times both norms is the dot product, sign included, and zero for mismatched, empty and zero vectors |
| Embeddings.SelfSimilarity | crates/epica-core/src/embedding/mod.rs:254-268 | a vector has similarity 1 to itself and the zero vector 0, so it is equivalent to itself under any positive threshold exactly when it is not zero |
| Embeddings.Sums | crates/epica-core/src/embedding/mod.rs:155-164 | the accumulator loop computes the dot product and both squared norms |
| Revision.ReviseQuad | crates/epica-core/src/revision/agm.rs:67-173 | the method does exactly what the revision function says, state and result |
| Revision.ReviseSucceedsIff | crates/epica-core/src/revision/agm.rs:74-105 | revision succeeds if and only if the belief is live, no in-quad paraphrase disagrees, and a contradicting revision need not remove the belief itself |
| Revision.ReviseEffect | crates/epica-core/src/revision/agm.rs:90-130 | on success only value, provenance, fast confidence and, after a contradiction, slow confidence of the belief change, the beliefs are the old ones minus the contracted, the others are untouched, nothing is contracted without contradiction, and the record reports old and new |
| Revision.AuditAndErrors | crates/epica-core/src/revision/postulates.rs:47-127 | what the audit records for each postulate, and when a revision fails with which error |
| Revision.SemanticContradictsIff | crates/epica-core/src/quad/semantic.rs:163-205 | texts contradict when they differ normalised and the provider does not call them equivalent, opposed and undecided ones included; the trace tells which verdict there was |
| Revision.ContradictionIff | crates/epica-core/src/quad/mod.rs:306-320 | a new value contradicts when the belief lives and its old value contradicts it or a contradiction edge leaves it |
| Revision.ContradictsIff | crates/epica-core/src/quad/semantic.rs:137-155 | texts aside, to contradict is to differ |
| Revision.SupportIsBroken | crates/epica-core/src/revision/agm.rs:175-199 | after a contradicting revision no support path into the belief is non-empty and fully live |
| Scenarios.SelfSupportedBeliefIsLost | crates/epica-core/src/revision/agm.rs:94-105 | a reachable quad on which a belief that is its own weakest premise is removed by its revision and reported as not found |
| Revision.ContractionHits | crates/epica-core/src/revision/agm.rs:175-199 | the contraction set hits every non-empty support path |
| Revision.WeakestIsFirst | crates/epica-core/src/revision/agm.rs:183-199 | of each path the first premise of least confidence is chosen, a dead premise counting as zero |
| Revision.ContractionMinimalIff | crates/epica-core/src/revision/agm.rs:175-199 | it is minimal if and only if for every support path there is one with the same weakest premise that contains no other path's weakest premise |
| Revision.DisjointPathsContractMinimally | crates/epica-core/src/revision/agm.rs:175-199 | it is minimal when support paths are disjoint |
| Scenarios.OverlapContractsTooMuch | crates/epica-core/src/revision/agm.rs:67-206 | a reachable quad on which revision removes two beliefs where removing one of them would break all support |
| Revision.ContractOneMore | crates/epica-core/src/revision/agm.rs:202-206 | removing beliefs one by one, in any order, equals removing them at once |
| Revision.CheckExtensionality | crates/epica-core/src/revision/postulates.rs:145-194 | the search holds exactly when no paraphrase disagrees, and its culprit is the first one that does |
| Revision.ParaphrasesReviseAlike | crates/epica-core/src/revision/postulates.rs:32-40 | K*6: when revision by a text succeeds, revision by an in-quad paraphrase of it succeeds exactly when no paraphrase of that paraphrase gets another verdict; then it contracts the same and leaves the same state but for the text, and otherwise it is refused for K*6 and changes nothing |
| Revision.RevisedAlikeIff | crates/epica-core/src/revision/postulates.rs:32-40 | given that revision by one value succeeds, revision by any other succeeds with the same state but for the value if and only if no in-quad paraphrase disagrees with the other and the two verdicts agree or make no difference |
| Scenarios.ParaphraseIsRefused | crates/epica-core/src/revision/postulates.rs:145-194 | a reachable quad, under cosine similarity and the default thresholds, on which revision by a text succeeds and revision by its paraphrase is refused for K*6 |
| Revision.ContradictionSeenFromBothEnds | crates/epica-core/src/quad/semantic.rs:79-88 | in a valid quad looking at outgoing contradictions finds every contradiction that touches the belief |
| Quads.BeliefQuad.Insert | crates/epica-core/src/quad/mod.rs:181-192 | the object's insertion is the insertion function on all four projections |
| Quads.InsertEffect | crates/epica-core/src/quad/mod.rs:181-192 | insertion adds one unconnected belief with every field as given, in all four projections, and changes no other belief and no edge |
| Quads.RemoveEffect | crates/epica-core/src/quad/mod.rs:207-216 | removal takes out one belief and, in all four graphs, exactly the edges that touch it; an unknown belief changes nothing |
| Quads.SetConfidenceEffect | crates/epica-core/src/quad/mod.rs:202-204 | writing through a mutable reference changes the confidences of one live belief and nothing else |
| Quads.BeliefQuad.Remove | crates/epica-core/src/quad/mod.rs:207-216 | the object's removal is the removal function, and returns the removed node |
| Quads.AddSemanticKeepsSymmetry | crates/epica-core/src/quad/semantic.rs:69-77 | adding any semantic edge keeps contradiction and synonymy equally frequent in both directions |
| Quads.AddSemanticArcs | crates/epica-core/src/quad/semantic.rs:67-77 | exactly the edge is added, with its reverse for contradiction and synonymy, and nothing between unknown beliefs |
| Quads.BeliefQuad.Rollback | crates/epica-core/src/checkpoint/ops.rs:32-49 | the object's rollback is the rollback function, an error changes nothing, and the diff returned is the diff between old and new state |
| Quads.RollbackKeepsValid | crates/epica-core/src/checkpoint/ops.rs:32-49 | rollback changes nothing on error, and on success lands on a valid snapshot without checkpoints and with a version no higher |
| Quads.CheckpointKeepsValid | crates/epica-core/src/checkpoint/types.rs:78-100 | taking a checkpoint keeps the history ordered by version, un-nested and uniquely named |
| Quads.EdgesJoinLiveBeliefs | crates/epica-core/src/quad/mod.rs:47-54 | in a projection in step with the arena every edge joins live beliefs |
| Runs.Perform | crates/epica-core/src/quad/mod.rs:181-262 | each operation of a run is what the quad's own method does, propagation in the order that it takes |
| Runs.RunsKeepValid | crates/epica-core/src/quad/mod.rs:32-54 | every run of insert, remove, edge adds, direct writes, revision, propagation, checkpoint, rollback and clear keeps arena and projections in step, edges live, symmetric edges symmetric, and the history ordered |
| Runs.ReachableStatesValid | crates/epica-core/src/quad/mod.rs:117-130 | so every state reachable from the empty quad is valid |
| Runs.VersionBehaviour | crates/epica-core/src/quad/mod.rs:236-240 | inserting, removing and revising raise the version, edges, confidences and checkpoints leave it, and only rollback can lower it |
| Runs.RunsKeepConfident | crates/epica-core/src/belief/node.rs:40-42 | along every run whose callers write confidences in [0, 1], all confidences stay there, in snapshots too |
| Runs.RollbackExact | crates/epica-core/src/checkpoint/ops.rs:14-49 | after any run that keeps the history, rollback restores exactly the checkpointed nodes, graphs and version with no checkpoints left, or is refused because the states agree |
| Runs.RollbackIgnoresEdges | crates/epica-core/src/diff/mod.rs:157-161 | a rollback that would only undo an added edge is refused |
| Diffs.ComputeDiff | crates/epica-core/src/diff/mod.rs:102-165 | the loops list each added, removed and changed key exactly once and nothing else, and the result is empty exactly when the states agree |
| Diffs.DiffTells | crates/epica-core/src/diff/mod.rs:115-154 | what a diff lists: the newer snapshot of an added key, the older one of a removed key, both values and confidences of a changed key, the older first, and the confidence pair of each key beyond tolerance |
| Diffs.ChangedIff | crates/epica-core/src/diff/mod.rs:130-131 | a key has changed when its value differs or its confidence by more than a millionth |
| Diffs.CollectByKey | crates/epica-core/src/diff/mod.rs:103-106 | collecting by key keeps, for each key, the last belief in iteration order |
| Diffs.PatchRoundTrip | crates/epica-core/src/diff/mod.rs:95-165 | replaying a diff on the older state gives the newer one, values exactly and confidences within the tolerance |
| Diffs.HasContradictionsIff | crates/epica-core/src/diff/mod.rs:78-80 | a diff has contradictions if and only if keys, values or confidences beyond tolerance differ |
| Counterfactuals.CounterfactualQuery | crates/epica-core/src/counterfactual/mod.rs:44-52 | the excluded set is the antecedent with exactly everything reachable from it |
| Counterfactuals.SurvivorsAreIndependent | crates/epica-core/src/counterfactual/mod.rs:40-52 | no causal edge leaves the excluded set into a survivor, and excluded means reachable |
| Counterfactuals.CountRightIffLive | crates/epica-core/src/counterfactual/mod.rs:24-35 | the surviving count is the number of survivors if and only if the antecedent is live, and one too low otherwise |
| Counterfactuals.VerdictIff | crates/epica-contracts/src/sovereignty/forget.rs:124-141 | the verdict by paths: an error for a dead belief, Verified exactly for a live one from which no causal path leads elsewhere, and otherwise exactly the beliefs that one leads to |
| Counterfactuals.DefaultCausalVerify | crates/epica-contracts/src/sovereignty/forget.rs:124-141 | the search computes that verdict |
| Counterfactuals.Forget | crates/epica-contracts/src/sovereignty/forget.rs:66-74 | for any verifier the verdict is the one on the quad before removal, and the belief is removed whatever it says |
| Counterfactuals.ForgetWithBackends | crates/epica-contracts/src/sovereignty/forget.rs:81-100 | for any verifier a verified verdict is demoted exactly when a persistence backend is active, and every other verdict stands |
| Counterfactuals.VerifiedForgetPreservesReachability | crates/epica-contracts/src/sovereignty/forget.rs:109-141 | a forget that the default verifier calls Verified leaves reachability among all other beliefs unchanged |
| Contracts.PostUpdateAccounting | crates/epica-runtime/src/contract_engine.rs:109-203 | whatever enforcement returns: at most one recovery ran, for the first hard violation and by its own contract's policy, and without one the quad is untouched; every soft and hard violation collected before the end is logged once and in order; a critical one ends it logged and named, a refused recovery ends it unlogged and without effect |
| Contracts.CollectsBroken | crates/epica-contracts/src/contract.rs:92-110 | the violations collected are, in order and one each, the invariants that do not hold, with their description, severity and the quad's version |
| Contracts.QuietPass | crates/epica-runtime/src/contract_engine.rs:109-203 | when every invariant of every contract holds, enforcement changes nothing and returns no outcome |
| Contracts.FirstSevereDecides | crates/epica-runtime/src/contract_engine.rs:109-203 | the first broken invariant that is more than soft decides: a critical one halts the pass by name with the quad as it was, a hard one runs its contract's policy on the quad, and the result stands |
| Contracts.UpdateIsTransaction | crates/epica-runtime/src/runtime.rs:431-520 | the final state of an update for each result: denied and over-limit updates leave the quad alone, a failed revision leaves its checkpoint and contraction, and otherwise the quad is the proposed one or where the one recovery landed, also when a later critical violation makes the update fail |
| Contracts.TurnedAwayIff | crates/epica-runtime/src/runtime.rs:431-463 | exactly when an update is refused as unauthorized, for a precondition of which contract, over the token limit, or by the revision |
| Contracts.RecoveryLands | crates/epica-runtime/src/contract_engine.rs:225-304 | where each policy lands: rollback to the last checkpoint on exactly the nodes, graphs and version from before the update, rollback by id or by version on the snapshot stored there, degrading on the proposed state with raised confidences |
| Contracts.RecoveryRefused | crates/epica-runtime/src/contract_engine.rs:225-304 | why a recovery is refused, policy by policy: no checkpoint, none at or before the version, a checkpoint that is gone, nothing to undo, or a policy that halts |
| Contracts.RecoverySucceedsIff | crates/epica-runtime/src/contract_engine.rs:231-241 | that recovery succeeds exactly when the proposed state differs by key, value or confidence beyond tolerance; otherwise the proposed state stays in place |
| Contracts.StoredConfidence | crates/epica-runtime/src/runtime.rs:465-475 | after revision and propagation the belief holds the new value, and as confidence the caller's if no InferredFrom edge is left, and else the best evidence of its premises times the decay factor |
| Scenarios.CallersConfidenceIsReplaced | crates/epica-runtime/src/runtime.rs:465-475 | reachable quads on which, with decay one half, an update with confidence 0.9 stores 0.15 for a premise of 0.3, and 0.45 when the belief is its own only premise |
| Contracts.LatestIsMostRecent | crates/epica-runtime/src/contract_engine.rs:250-262 | rollback to a version picks the most recent checkpoint at or before it, and finds none only when there is none |
| Contracts.RollbackToVersionLands | crates/epica-runtime/src/contract_engine.rs:250-267 | it then restores that checkpoint's own snapshot |
| Contracts.DegradeConfidentIff | crates/epica-runtime/src/contract_engine.rs:269-281 | degrading keeps confidences in [0, 1] if and only if the floor is at most one or there are no beliefs |
| Contracts.RaiseFloorEffect | crates/epica-runtime/src/contract_engine.rs:269-281 | degrading raises each confidence below the floor to the floor and leaves everything else |
| Contracts.UpdateKeepsQuadValid | crates/epica-runtime/src/runtime.rs:431-520 | an update leaves a valid quad whatever its outcome |
| Runtimes.ExecuteRecovery | crates/epica-runtime/src/contract_engine.rs:225-304 | recovery dispatch does what the recovery function says for each of the five policies |
| Runtimes.ContractEngine.PostUpdate | crates/epica-runtime/src/contract_engine.rs:109-203 | the nested loops perform exactly the reference scan over quad, log and outcome |
| Runtimes.ContractEngine.PreUpdate | crates/epica-runtime/src/contract_engine.rs:91-100 | the loop finds the first contract with a precondition that fails |
| Runtimes.BeliefRuntime.Update | crates/epica-runtime/src/runtime.rs:431-520 | the method performs exactly the reference update with an order that propagation can take, keeps the runtime valid, and asks for System 2 exactly when a client is attached and the pre-enforcement confidence is further from the baseline than the threshold |
| Budget.TokensConserved | crates/epica-runtime/src/system2/token_bucket.rs:38-75 | without refill, over all interleavings, available plus in flight plus completed equals the capacity |
| Budget.RateBound | crates/epica-runtime/src/system2/token_bucket.rs:67-75 | with refill, in flight plus completed never exceeds the capacity plus what accrues over the elapsed time |
| Budget.BurstBound | crates/epica-runtime/src/system2/token_bucket.rs:38-75 | from any balanced state on, what is newly held never exceeds what was available there plus what accrues since the last refill, so idle time buys no burst beyond a full bucket |
| Budget.ReachedIsBalanced | crates/epica-mcp/src/handlers/belief.rs:120-183 | every state that an interleaving reaches is balanced: the bucket between empty and full, tokens accounted for, applied results counted |
| Budget.TerminalIsFinal | crates/epica-mcp/src/tasks.rs:96-101 | over all interleavings a task that has completed or failed never changes status again, and the store mirrors every activation's stage |
| Budget.QuiescentAccounts | crates/epica-mcp/src/handlers/belief.rs:144-176 | when nothing is under way every task has completed or failed and each completed one was applied once; without refill each completed one has been paid for and each failed one refunded |
| Budget.Service.HandlePending | crates/epica-mcp/src/handlers/belief.rs:120-183 | the handler's code is the protocol's request, followed on success by insertion and spawning |
| Budget.Service.RunTask | crates/epica-mcp/src/handlers/belief.rs:144-176 | the spawned code is the protocol's begin, reflect and report; success writes the revised confidence into the belief if it still lives, failure refunds the token, and nothing else in the quad changes |
| Budget.Service.ApplyResult | crates/epica-runtime/src/runtime.rs:551-561 | applying a result counts it once and changes at most the slow confidence of its belief |
| Budget.TokenBucket.Consume | crates/epica-runtime/src/system2/token_bucket.rs:38-75 | with refill the bucket gains the rate times the elapsed time up to its capacity, and without refill nothing; it then grants exactly when that many tokens are there, taking just those, and a refusal takes nothing |
| Budget.TokenBucket.Refund | crates/epica-runtime/src/system2/token_bucket.rs:52-54 | a refund adds its tokens, cut off at the capacity |
| Budget.RequestAcceptedIff | crates/epica-mcp/src/handlers/belief.rs:120-131 | a request becomes an activation exactly when a whole token is there after refilling, and is counted as throttled otherwise |
| Budget.IdleRefills | crates/epica-runtime/src/system2/token_bucket.rs:67-75 | after capacity / rate of idle time the bucket is full and the request is accepted |
| Budget.RequestsCounted | crates/epica-mcp/src/handlers/belief.rs:120-143 | over all interleavings every request is either an activation or throttled |

## Left out

- BLAKE3, Ed25519, hex and serde_json internals: replaced by digest terms, ideal signatures, decoded
  fields and the named encoding assumption; parsing of malformed public keys is not modelled.
- Revision and Contracts leave the prospective index out: the code does not keep it in step with live beliefs.
- The runtime key index, confidence history, drift bounds, audit emission and the recovery verifier's
  verdict: bookkeeping that the modelled operations only write.
- The embedding provider and thresholds inside a checkpoint: they are arguments of revision here, so
  rollback does not restore them.
- Cosine over floats: the square roots are arguments known only to be roots.
- Exponential decay, KL divergence and log-likelihood: they need exp and ln; decay is any factor per visit.
- Petgraph's choice of slots and the order of incident edges: any unused slot is allowed, and every
  modelled result is independent of edge order.
- The legacy synchronous System 2 result and runs without a client: the handler cannot reach them.
- Locks and thread scheduling: one update is a sequential unit, and the budget protocol interleaves atomic steps.
- Tool-call caps and human approval, retention, allow and deny lists, cross-agent sharing.
- HTTP routing, LLM clients, Redis, Neo4j and sled stores, Python bindings, reports and the command line.
