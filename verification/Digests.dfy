/** Digests, signatures and audit entries, idealised.
    A BLAKE3 digest is modelled by the term that was hashed, so two digests are equal exactly
    when the same kind of input was hashed from equal parts.  Leaf, node and binding inputs carry a
    tag of their own.  Entry inputs do not, so keeping `EntryH` apart assumes that the encoding of an
    entry is never 1 or 33 bytes long and that no previous hash begins with the binding's tag.  An
    Ed25519 signature is modelled by the key and the message it was made from. */
module Digests {
  import opened Wrappers

  type PublicKey = nat

  datatype Digest =
    | Genesis                                       // the all-zero digest
    | EntryH(prev: Digest, canonical: seq<bv8>)     // previous hash followed by the entry's JSON
    | LeafH(selfHash: Digest)                       // 0x00 followed by a self-hash
    | NodeH(left: Digest, right: Digest)            // 0x01 followed by two digests
    | BindingH(root: Digest, startSeq: nat, endSeq: nat, ledgerLen: nat, signer: PublicKey, schema: nat)
    | Other(code: nat)                              // 32 bytes that no hash call produced

  datatype Signature = Signed(key: PublicKey, message: Digest) | Garbage(code: nat)

  datatype AuditEventType =
    | BeliefWrite | BeliefUpdate | BeliefRead | BeliefForgotten
    | ContractViolation | RecoveryExecuted | AuthDenied

  datatype AuditEntry = AuditEntry(
    timestampMs: nat,
    eventType: AuditEventType,
    beliefKey: Option<string>,
    agentId: Option<string>,
    details: string)

  /** The canonical JSON encoding of an entry. */
  type Encoder = AuditEntry -> seq<bv8>

  /** The assumption made about the JSON encoding where a result needs it: different entries encode
      differently. */
  ghost predicate InjectiveEncoding(enc: Encoder) {
    forall a, b :: enc(a) == enc(b) ==> a == b
  }

  function HashEntry(enc: Encoder, prev: Digest, entry: AuditEntry): Digest {
    EntryH(prev, enc(entry))
  }

  /** How many entries were hashed, one on top of the other, to make this digest. */
  ghost function ChainLength(d: Digest): nat {
    if d.EntryH? then 1 + ChainLength(d.prev) else 0
  }
}
