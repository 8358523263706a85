/** The append-only audit ledger: a hash chain with a Merkle commitment on top. */
module Ledger {
  import opened Wrappers
  import opened Sequences
  import opened Digests
  import opened Merkle

  datatype LedgerEntry = LedgerEntry(seqNo: nat, entry: AuditEntry, prevHash: Digest, selfHash: Digest)

  datatype TamperError = EntryHashMismatch(index: nat) | ChainLinkBroken(index: nat)

  // ---- The chain as a predicate --------------------------------------------------------------

  ghost function ExpectedPrev(es: seq<LedgerEntry>, i: nat): Digest
    requires i <= |es|
  {
    if i == 0 then Genesis else es[i - 1].selfHash
  }

  /** Position and linkage of entry i (invariants 1 to 3). */
  ghost predicate Linked(es: seq<LedgerEntry>, i: nat)
    requires i < |es|
  {
    es[i].seqNo == i && es[i].prevHash == ExpectedPrev(es, i)
  }

  /** Invariants 1 to 4 at entry i. */
  ghost predicate Sound(enc: Encoder, es: seq<LedgerEntry>, i: nat)
    requires i < |es|
  {
    Linked(es, i) && es[i].selfHash == HashEntry(enc, es[i].prevHash, es[i].entry)
  }

  ghost predicate ChainSound(enc: Encoder, es: seq<LedgerEntry>) {
    forall i :: 0 <= i < |es| ==> Sound(enc, es, i)
  }

  function SelfHashes(es: seq<LedgerEntry>): (hs: seq<Digest>)
    ensures |hs| == |es| && forall i :: 0 <= i < |es| ==> hs[i] == es[i].selfHash
  {
    seq(|es|, i requires 0 <= i < |es| => es[i].selfHash)
  }

  /** The chain that appending `entries` one by one to an empty ledger produces. */
  function Seal(enc: Encoder, entries: seq<AuditEntry>): (es: seq<LedgerEntry>)
    ensures |es| == |entries|
  {
    if entries == [] then []
    else
      var before := Seal(enc, entries[..|entries| - 1]);
      var entry := entries[|entries| - 1];
      var prev := if before == [] then Genesis else before[|before| - 1].selfHash;
      before + [LedgerEntry(|before|, entry, prev, HashEntry(enc, prev, entry))]
  }

  function Entries(es: seq<LedgerEntry>): (entries: seq<AuditEntry>)
    ensures |entries| == |es| && forall i :: 0 <= i < |es| ==> entries[i] == es[i].entry
  {
    seq(|es|, i requires 0 <= i < |es| => es[i].entry)
  }

  // ---- What a sound chain determines -----------------------------------------------------------

  lemma {:induction false} SelfHashCountsPosition(enc: Encoder, es: seq<LedgerEntry>, i: nat)
    requires ChainSound(enc, es) && i < |es|
    ensures ChainLength(es[i].selfHash) == i + 1
    decreases i
  {
    assert Sound(enc, es, i);
    if i > 0 {
      SelfHashCountsPosition(enc, es, i - 1);
    }
  }

  /** The self-hash at one position of a sound chain determines the position and the whole history
      up to it. */
  lemma {:induction false} HistoryDetermined(
    enc: Encoder, a: seq<LedgerEntry>, b: seq<LedgerEntry>, i: nat, j: nat)
    requires InjectiveEncoding(enc) && ChainSound(enc, a) && ChainSound(enc, b)
    requires i < |a| && j < |b| && a[i].selfHash == b[j].selfHash
    ensures i == j && a[..i + 1] == b[..i + 1]
    decreases i
  {
    SelfHashCountsPosition(enc, a, i);
    SelfHashCountsPosition(enc, b, j);
    assert Sound(enc, a, i) && Sound(enc, b, j);
    if i > 0 {
      HistoryDetermined(enc, a, b, i - 1, j - 1);
      assert a[..i + 1] == a[..i] + [a[i]];
      assert b[..i + 1] == b[..i] + [b[i]];
    }
  }

  lemma SameHashSameEntries(enc: Encoder, a: seq<LedgerEntry>, b: seq<LedgerEntry>, i: nat, j: nat)
    requires InjectiveEncoding(enc) && ChainSound(enc, a) && ChainSound(enc, b)
    requires i <= j < |a| && j < |b| && a[j].selfHash == b[j].selfHash
    ensures a[i] == b[i]
  {
    HistoryDetermined(enc, a, b, j, j);
    assert a[..j + 1][i] == b[..j + 1][i];
  }

  /** A change of history at any point changes every later self-hash of the chain. */
  lemma TamperPropagates(enc: Encoder, a: seq<LedgerEntry>, b: seq<LedgerEntry>, i: nat, j: nat)
    requires InjectiveEncoding(enc) && ChainSound(enc, a) && ChainSound(enc, b)
    requires i <= j < |a| && j < |b| && a[i].entry != b[i].entry
    ensures a[j].selfHash != b[j].selfHash
  {
    if a[j].selfHash == b[j].selfHash {
      SameHashSameEntries(enc, a, b, i, j);
    }
  }

  /** Rewriting one entry in place, hashes kept, is found at exactly that entry. */
  lemma RewrittenEntryFound(enc: Encoder, es: seq<LedgerEntry>, i: nat, forged: AuditEntry)
    requires InjectiveEncoding(enc) && ChainSound(enc, es) && i < |es| && forged != es[i].entry
    ensures
      var es' := es[i := es[i].(entry := forged)];
      && (forall k :: 0 <= k < |es| ==> (Sound(enc, es', k) <==> k != i))
      && Linked(es', i)
  {
    var es' := es[i := es[i].(entry := forged)];
    assert Sound(enc, es, i);
    forall k | 0 <= k < |es| ensures Sound(enc, es', k) <==> k != i {
      assert Sound(enc, es, k);
    }
  }

  /** Two accepted chains that end in the same self-hash are identical. */
  lemma LastHashDeterminesChain(enc: Encoder, a: seq<LedgerEntry>, b: seq<LedgerEntry>)
    requires InjectiveEncoding(enc) && ChainSound(enc, a) && ChainSound(enc, b)
    requires ExpectedPrev(a, |a|) == ExpectedPrev(b, |b|)
    ensures a == b
  {
    if a != [] { assert Sound(enc, a, |a| - 1); }
    if b != [] { assert Sound(enc, b, |b| - 1); }
    if a != [] && b != [] {
      HistoryDetermined(enc, a, b, |a| - 1, |b| - 1);
    }
  }

  /** No two entries of a sound chain share a self-hash, whatever the encoding does. */
  lemma SelfHashesDistinct(enc: Encoder, es: seq<LedgerEntry>)
    requires ChainSound(enc, es)
    ensures Distinct(SelfHashes(es))
  {
    forall i, j | 0 <= i < j < |es|
      ensures es[i].selfHash != es[j].selfHash
    {
      SelfHashCountsPosition(enc, es, i);
      SelfHashCountsPosition(enc, es, j);
    }
  }

  /** The Merkle root determines the whole ledger, its length included. */
  lemma RootDeterminesLedger(enc: Encoder, a: seq<LedgerEntry>, b: seq<LedgerEntry>)
    requires InjectiveEncoding(enc) && ChainSound(enc, a) && ChainSound(enc, b)
    ensures RootOf(SelfHashes(a)) == RootOf(SelfHashes(b)) <==> a == b
  {
    if RootOf(SelfHashes(a)) == RootOf(SelfHashes(b)) {
      SelfHashesDistinct(enc, a);
      SelfHashesDistinct(enc, b);
      RootDeterminesLeaves(SelfHashes(a), SelfHashes(b));
      assert |SelfHashes(a)| == |SelfHashes(b)|;
      if a != [] {
        assert SelfHashes(a)[|a| - 1] == SelfHashes(b)[|a| - 1];
      }
      LastHashDeterminesChain(enc, a, b);
    }
  }

  /** Sealing is the only way to a sound chain: soundness fixes every field but the entries. */
  lemma {:induction false} SoundIffSealed(enc: Encoder, es: seq<LedgerEntry>)
    ensures ChainSound(enc, es) <==> es == Seal(enc, Entries(es))
    decreases |es|
  {
    if es != [] {
      var n := |es| - 1;
      var before := es[..n];
      SoundIffSealed(enc, before);
      assert Entries(es)[..n] == Entries(before);
      assert es == before + [es[n]];
      assert forall i :: 0 <= i < n ==> Sound(enc, es, i) == Sound(enc, before, i);
      assert ChainSound(enc, es) <==> ChainSound(enc, before) && Sound(enc, es, n);
      var sealed := Seal(enc, Entries(es));
      assert sealed[..n] == Seal(enc, Entries(before));
      assert es == sealed <==> before == sealed[..n] && es[n] == sealed[n];
    }
  }

  lemma {:induction false} EntriesOfSeal(enc: Encoder, entries: seq<AuditEntry>)
    ensures Entries(Seal(enc, entries)) == entries
    decreases |entries|
  {
    if entries != [] {
      var n := |entries| - 1;
      EntriesOfSeal(enc, entries[..n]);
      var sealed := Seal(enc, entries);
      assert sealed[..n] == Seal(enc, entries[..n]);
      forall i | 0 <= i < |entries| ensures Entries(sealed)[i] == entries[i] {
        if i < n {
          assert Entries(Seal(enc, entries[..n]))[i] == entries[..n][i];
          assert sealed[i] == sealed[..n][i];
        }
      }
    }
  }

  /** Appending alone gives a sound chain, which holds just what was appended. */
  lemma SealedIsSound(enc: Encoder, entries: seq<AuditEntry>)
    ensures ChainSound(enc, Seal(enc, entries)) && Entries(Seal(enc, entries)) == entries
  {
    EntriesOfSeal(enc, entries);
    SoundIffSealed(enc, Seal(enc, entries));
  }

  // ---- The ledger ------------------------------------------------------------------------------

  class AuditLedger {
    const canonical: Encoder
    var entries: seq<LedgerEntry>
    var lastHash: Digest

    ghost predicate Valid()
      reads this
    {
      ChainSound(canonical, entries) && lastHash == ExpectedPrev(entries, |entries|)
    }

    constructor (canonical: Encoder)
      ensures Valid() && entries == [] && this.canonical == canonical
    {
      this.canonical := canonical;
      entries := [];
      lastHash := Genesis;
    }

    /** Appending seals exactly one entry on top of the chain and changes nothing below it. */
    method Append(entry: AuditEntry) returns (sealed: LedgerEntry)
      requires Valid()
      modifies this
      ensures Valid()
      ensures entries == old(entries) + [sealed]
      ensures sealed.entry == entry && lastHash == sealed.selfHash
      ensures Entries(entries) == Entries(old(entries)) + [entry]
    {
      var seqNo := |entries|;
      var prevHash := lastHash;
      var selfHash := HashEntry(canonical, prevHash, entry);
      sealed := LedgerEntry(seqNo, entry, prevHash, selfHash);
      lastHash := selfHash;
      entries := entries + [sealed];
      assert forall i :: 0 <= i < seqNo ==> Sound(canonical, old(entries), i) ==> Sound(canonical, entries, i);
      assert Sound(canonical, entries, seqNo);
    }

    /** Accepts exactly the sound chains, and otherwise names the first broken entry and the first
        check that it fails.  The recorded head hash takes no part in the verdict. */
    method VerifyChain() returns (r: Result<(), TamperError>)
      ensures r.Ok? <==> ChainSound(canonical, entries)
      ensures r.Err? ==>
        var k := r.error.index;
        && k < |entries|
        && (forall i :: 0 <= i < k ==> Sound(canonical, entries, i))
        && !Sound(canonical, entries, k)
        && (r.error.EntryHashMismatch? <==> Linked(entries, k))
    {
      var expectedPrev := Genesis;
      var i := 0;
      while i < |entries|
        invariant 0 <= i <= |entries|
        invariant expectedPrev == ExpectedPrev(entries, i)
        invariant forall j :: 0 <= j < i ==> Sound(canonical, entries, j)
      {
        var e := entries[i];
        if e.seqNo != i {
          assert !Sound(canonical, entries, i);
          return Err(ChainLinkBroken(i));
        }
        if e.prevHash != expectedPrev {
          assert !Sound(canonical, entries, i);
          return Err(ChainLinkBroken(i));
        }
        var recomputed := HashEntry(canonical, e.prevHash, e.entry);
        if recomputed != e.selfHash {
          assert !Sound(canonical, entries, i);
          return Err(EntryHashMismatch(i));
        }
        expectedPrev := e.selfHash;
        i := i + 1;
      }
      return Ok(());
    }

    method MerkleRoot() returns (root: Digest)
      ensures root == RootOf(SelfHashes(entries))
    {
      if entries == [] {
        return Genesis;
      }
      root := ComputeRoot(Leaves(SelfHashes(entries)));
    }

    method MerkleProof(seqNo: nat) returns (proof: Option<seq<Digest>>)
      ensures proof == ProofFor(entries, seqNo)
    {
      if seqNo >= |entries| {
        return None;
      }
      var path := ComputePath(Leaves(SelfHashes(entries)), seqNo);
      proof := Some(path);
    }
  }

  function ProofFor(es: seq<LedgerEntry>, seqNo: nat): Option<seq<Digest>> {
    if seqNo >= |es| then None else Some(Path(Leaves(SelfHashes(es)), seqNo))
  }

  /** Every proof the ledger hands out passes, and against its root nothing else does. */
  lemma LedgerInclusionExact(es: seq<LedgerEntry>, x: Digest, seqNo: nat, proof: seq<Digest>)
    ensures Accepts(x, seqNo, |es|, proof, RootOf(SelfHashes(es)))
      <==> ProofFor(es, seqNo) == Some(proof) && x == es[seqNo].selfHash
  {
    InclusionExact(SelfHashes(es), x, seqNo, proof);
  }
}
