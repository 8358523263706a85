/** Evidence receipts: sealing a window of the ledger, verifying the receipt layer by layer, and
    rebuilding a ledger from its serialised entries. */
module Receipts {
  import opened Wrappers
  import opened Sequences
  import opened Digests
  import opened Merkle
  import opened Ledger

  const RECEIPT_SCHEMA_VERSION: nat := 1

  /** A hex-encoded field of fixed length, as the verifier sees it after decoding. */
  datatype Hex<+T> = Decoded(bytes: T) | BadHex | WrongLength(got: nat)

  datatype InclusionProof = InclusionProof(seqNo: nat, selfHash: Hex<Digest>, path: seq<Hex<Digest>>)

  datatype Receipt = Receipt(
    note: Option<string>,
    sealedAtMs: nat,
    schemaVersion: nat,
    merkleRoot: Hex<Digest>,
    startSeq: nat,
    endSeq: nat,
    ledgerLen: nat,
    proverPubkey: Hex<PublicKey>,
    signature: Hex<Signature>,
    inclusions: seq<InclusionProof>)

  datatype SealOptions = SealOptions(note: Option<string>, inclusions: seq<nat>)

  datatype ProverError = InvalidProverRange(start: nat, end: nat, len: nat)

  datatype VerificationError =
    | Decode(field: string)
    | UnsupportedSchemaVersion(got: nat)
    | InvalidRange(start: nat, end: nat, len: nat)
    | LedgerLengthMismatch(expected: nat, current: nat)
    | MerkleRootMismatch(claimed: Digest, reconstructed: Digest)
    | BadSignature
    | Inclusion(seqNo: nat)
    | InclusionOutOfBounds(seqNo: nat)
    | InclusionLeafMismatch(seqNo: nat)

  // ---- The window root -------------------------------------------------------------------------

  function WindowRoot(es: seq<LedgerEntry>, start: nat, end: nat): Digest {
    if end >= |es| || start > end then Genesis else RootOf(SelfHashes(es[start..end + 1]))
  }

  method WindowMerkleRoot(ledger: AuditLedger, start: nat, end: nat) returns (root: Digest)
    ensures root == WindowRoot(ledger.entries, start, end)
  {
    if end >= |ledger.entries| || start > end {
      return Genesis;
    }
    root := ComputeRoot(Leaves(SelfHashes(ledger.entries[start..end + 1])));
  }

  /** A window over the whole ledger has the ledger's own root. */
  lemma FullWindowRoot(es: seq<LedgerEntry>)
    requires es != []
    ensures WindowRoot(es, 0, |es| - 1) == RootOf(SelfHashes(es))
  {
    assert es[0..|es|] == es;
  }

  // ---- Sealing ---------------------------------------------------------------------------------

  function Encoded(path: seq<Digest>): (hex: seq<Hex<Digest>>)
    ensures |hex| == |path| && forall i :: 0 <= i < |path| ==> hex[i] == Decoded(path[i])
  {
    seq(|path|, i requires 0 <= i < |path| => Decoded(path[i]))
  }

  /** Requested positions that do not exist are skipped. */
  function ProofsFor(es: seq<LedgerEntry>, requests: seq<nat>): seq<InclusionProof> {
    if requests == [] then []
    else
      var rest := ProofsFor(es, requests[1..]);
      match ProofFor(es, requests[0])
      case None => rest
      case Some(path) =>
        [InclusionProof(requests[0], Decoded(es[requests[0]].selfHash), Encoded(path))] + rest
  }

  /** The positions of the requests that exist in the ledger. */
  ghost function InRange(requests: seq<nat>, from: nat, n: nat): set<nat> {
    set i: nat | from <= i < |requests| && requests[i] < n
  }

  ghost predicate ProvesEntry(inc: InclusionProof, es: seq<LedgerEntry>, s: nat) {
    && s < |es| && inc.seqNo == s
    && inc.selfHash == Decoded(es[s].selfHash) && inc.path == Encoded(Path(Leaves(SelfHashes(es)), s))
  }

  /** One proof for each request from a position on that exists, in order and with repeats. */
  ghost predicate ProvesRequests(
    incs: seq<InclusionProof>, es: seq<LedgerEntry>, requests: seq<nat>, from: nat, ps: seq<nat>)
  {
    && Enumerates(ps, InRange(requests, from, |es|)) && |incs| == |ps|
    && forall j :: 0 <= j < |ps| ==> ps[j] < |requests| && ProvesEntry(incs[j], es, requests[ps[j]])
  }

  lemma {:induction false} ProofsForRequests(es: seq<LedgerEntry>, requests: seq<nat>, from: nat)
    returns (ps: seq<nat>)
    requires from <= |requests|
    ensures ProvesRequests(ProofsFor(es, requests[from..]), es, requests, from, ps)
    decreases |requests| - from
  {
    if from == |requests| {
      ps := [];
    } else {
      var rest := ProofsForRequests(es, requests, from + 1);
      assert requests[from..][1..] == requests[from + 1..];
      var incs := ProofsFor(es, requests[from + 1..]);
      if requests[from] < |es| {
        var s := requests[from];
        var inc := InclusionProof(s, Decoded(es[s].selfHash), Encoded(Path(Leaves(SelfHashes(es)), s)));
        assert ProofsFor(es, requests[from..]) == [inc] + incs;
        hide ProofsFor, ProvesRequests;
        OneMoreRequest(es, requests, from, inc, incs, rest);
        ps := [from] + rest;
      } else {
        assert ProofsFor(es, requests[from..]) == incs;
        hide ProofsFor, Enumerates;
        assert InRange(requests, from, |es|) == InRange(requests, from + 1, |es|);
        ps := rest;
      }
    }
  }

  lemma OneMoreRequest(
    es: seq<LedgerEntry>, requests: seq<nat>, from: nat, inc: InclusionProof, incs: seq<InclusionProof>,
    rest: seq<nat>)
    requires from < |requests| && ProvesEntry(inc, es, requests[from])
    requires ProvesRequests(incs, es, requests, from + 1, rest)
    ensures ProvesRequests([inc] + incs, es, requests, from, [from] + rest)
  {
    var later := InRange(requests, from + 1, |es|);
    EnumeratesInFront(rest, later, from);
    assert InRange(requests, from, |es|) == later + {from};
    hide Enumerates, ProvesEntry;
  }

  function SealWithOptions(
    key: PublicKey, es: seq<LedgerEntry>, start: nat, end: nat, opts: SealOptions, nowMs: nat)
    : Result<Receipt, ProverError>
  {
    if start > end || end >= |es| then Err(InvalidProverRange(start, end, |es|))
    else
      var root := WindowRoot(es, start, end);
      var binding := BindingH(root, start, end, |es|, key, RECEIPT_SCHEMA_VERSION);
      Ok(Receipt(
        opts.note, nowMs, RECEIPT_SCHEMA_VERSION, Decoded(root), start, end, |es|,
        Decoded(key), Decoded(Signed(key, binding)), ProofsFor(es, opts.inclusions)))
  }

  // ---- Verifying -------------------------------------------------------------------------------

  function DecodeAll(path: seq<Hex<Digest>>): Option<seq<Digest>> {
    if path == [] then Some([])
    else if !path[0].Decoded? then None
    else
      match DecodeAll(path[1..])
      case None => None
      case Some(rest) => Some([path[0].bytes] + rest)
  }

  function CheckInclusion(inc: InclusionProof, es: seq<LedgerEntry>): Result<(), VerificationError> {
    if inc.seqNo >= |es| then Err(InclusionOutOfBounds(inc.seqNo))
    else if !inc.selfHash.Decoded? then Err(Decode("inclusion.self_hash_hex"))
    else if es[inc.seqNo].selfHash != inc.selfHash.bytes then Err(InclusionLeafMismatch(inc.seqNo))
    else
      match DecodeAll(inc.path)
      case None => Err(Decode("inclusion.path"))
      case Some(path) =>
        if Accepts(inc.selfHash.bytes, inc.seqNo, |es|, path, RootOf(SelfHashes(es)))
        then Ok(()) else Err(Inclusion(inc.seqNo))
  }

  function CheckInclusions(incs: seq<InclusionProof>, es: seq<LedgerEntry>): Result<(), VerificationError> {
    if incs == [] then Ok(())
    else
      var first := CheckInclusion(incs[0], es);
      if first.Err? then first else CheckInclusions(incs[1..], es)
  }

  /** `key` is the verifier's own public key, which need not be the one in the receipt. */
  function Verify(key: PublicKey, r: Receipt, es: seq<LedgerEntry>): Result<(), VerificationError> {
    if r.schemaVersion != RECEIPT_SCHEMA_VERSION then Err(UnsupportedSchemaVersion(r.schemaVersion))
    else if r.ledgerLen != |es| then Err(LedgerLengthMismatch(r.ledgerLen, |es|))
    else if r.startSeq > r.endSeq || r.endSeq >= |es| then Err(InvalidRange(r.startSeq, r.endSeq, |es|))
    else
      var reconstructed := WindowRoot(es, r.startSeq, r.endSeq);
      if !r.merkleRoot.Decoded? then Err(Decode("merkle_root_hex"))
      else if reconstructed != r.merkleRoot.bytes then
        Err(MerkleRootMismatch(r.merkleRoot.bytes, reconstructed))
      else if !r.proverPubkey.Decoded? then Err(Decode("prover_pubkey_hex"))
      else if !r.signature.Decoded? then Err(Decode("signature_hex"))
      else if r.signature.bytes != Signed(key, Binding(r, reconstructed)) then Err(BadSignature)
      else CheckInclusions(r.inclusions, es)
  }

  function Binding(r: Receipt, root: Digest): Digest
    requires r.proverPubkey.Decoded?
  {
    BindingH(root, r.startSeq, r.endSeq, r.ledgerLen, r.proverPubkey.bytes, r.schemaVersion)
  }

  // ---- Inclusion checks ------------------------------------------------------------------------

  lemma {:induction false} DecodeEncoded(path: seq<Digest>)
    ensures DecodeAll(Encoded(path)) == Some(path)
    decreases |path|
  {
    if path != [] {
      DecodeEncoded(path[1..]);
      assert Encoded(path)[1..] == Encoded(path[1..]);
      assert path == [path[0]] + path[1..];
    }
  }

  lemma {:induction false} AllInclusionsPass(incs: seq<InclusionProof>, es: seq<LedgerEntry>)
    ensures CheckInclusions(incs, es).Ok? <==> forall inc :: inc in incs ==> CheckInclusion(inc, es).Ok?
    decreases |incs|
  {
    if incs != [] {
      AllInclusionsPass(incs[1..], es);
      assert incs == [incs[0]] + incs[1..];
    }
  }

  /** The layers of the check before the inclusions. */
  ghost predicate Layered(key: PublicKey, r: Receipt, es: seq<LedgerEntry>) {
    && r.schemaVersion == 1 && r.ledgerLen == |es| && r.startSeq <= r.endSeq < |es|
    && r.merkleRoot == Decoded(WindowRoot(es, r.startSeq, r.endSeq)) && r.proverPubkey.Decoded?
    && r.signature == Decoded(Signed(key, BindingH(
         r.merkleRoot.bytes, r.startSeq, r.endSeq, r.ledgerLen, r.proverPubkey.bytes, r.schemaVersion)))
  }

  /** The ledger's own proof for the entry that it names. */
  ghost predicate Included(inc: InclusionProof, es: seq<LedgerEntry>) {
    ProvesEntry(inc, es, inc.seqNo)
  }

  /** The inclusion at i is the first bad one, and the error says in what way. */
  ghost predicate FailsAt(incs: seq<InclusionProof>, es: seq<LedgerEntry>, i: nat, e: VerificationError) {
    && i < |incs| && (forall j :: 0 <= j < i ==> Included(incs[j], es)) && !Included(incs[i], es)
    && var inc := incs[i];
       match e
       case InclusionOutOfBounds(s) => s == inc.seqNo >= |es|
       case InclusionLeafMismatch(s) =>
         s == inc.seqNo < |es| && inc.selfHash.Decoded? && inc.selfHash.bytes != es[s].selfHash
       case Inclusion(s) =>
         s == inc.seqNo < |es| && inc.selfHash == Decoded(es[s].selfHash) && DecodeAll(inc.path).Some?
       case Decode(_) => inc.seqNo < |es| && !(inc.selfHash.Decoded? && DecodeAll(inc.path).Some?)
       case _ => false
  }

  lemma {:induction false} EncodedDecoded(path: seq<Hex<Digest>>)
    ensures DecodeAll(path).Some? ==> path == Encoded(DecodeAll(path).value)
    decreases |path|
  {
    if path != [] && DecodeAll(path).Some? {
      EncodedDecoded(path[1..]);
      assert path == [path[0]] + path[1..];
      var bytes := DecodeAll(path[1..]).value;
      assert Encoded([path[0].bytes] + bytes) == [Decoded(path[0].bytes)] + Encoded(bytes);
    }
  }

  lemma InclusionPassesIff(inc: InclusionProof, es: seq<LedgerEntry>)
    ensures CheckInclusion(inc, es).Ok? <==> Included(inc, es)
  {
    if inc.seqNo < |es| && inc.selfHash.Decoded? {
      var own := Path(Leaves(SelfHashes(es)), inc.seqNo);
      DecodeEncoded(own);
      EncodedDecoded(inc.path);
      if DecodeAll(inc.path).Some? {
        LedgerInclusionExact(es, inc.selfHash.bytes, inc.seqNo, DecodeAll(inc.path).value);
      }
    }
  }

  /** Verification accepts exactly the receipts that pass every layer, and an error names the first layer
      that fails. */
  lemma VerifyIff(key: PublicKey, r: Receipt, es: seq<LedgerEntry>)
    ensures Verify(key, r, es).Ok? <==> Layered(key, r, es) && forall inc :: inc in r.inclusions ==> Included(inc, es)
    ensures Verify(key, r, es).Err? ==>
      match Verify(key, r, es).error
      case UnsupportedSchemaVersion(got) => got == r.schemaVersion != 1
      case LedgerLengthMismatch(expected, current) =>
        r.schemaVersion == 1 && expected == r.ledgerLen && current == |es| && expected != current
      case InvalidRange(s, e, len) =>
        && r.schemaVersion == 1 && r.ledgerLen == len == |es|
        && s == r.startSeq && e == r.endSeq && !(s <= e < len)
      case MerkleRootMismatch(claimed, root) =>
        && r.schemaVersion == 1 && r.ledgerLen == |es| && r.startSeq <= r.endSeq < |es|
        && r.merkleRoot == Decoded(claimed) && root == WindowRoot(es, r.startSeq, r.endSeq) != claimed
      case BadSignature =>
        && r.merkleRoot == Decoded(WindowRoot(es, r.startSeq, r.endSeq)) && r.proverPubkey.Decoded?
        && r.signature.Decoded? && !Layered(key, r, es)
      case Decode(_) =>
        || !(r.merkleRoot.Decoded? && r.proverPubkey.Decoded? && r.signature.Decoded?)
        || (Layered(key, r, es) && exists i: nat :: FailsAt(r.inclusions, es, i, Verify(key, r, es).error))
      case _ => Layered(key, r, es) && exists i: nat :: FailsAt(r.inclusions, es, i, Verify(key, r, es).error)
  {
    AllInclusionsPass(r.inclusions, es);
    forall inc | inc in r.inclusions ensures CheckInclusion(inc, es).Ok? <==> Included(inc, es) {
      InclusionPassesIff(inc, es);
    }
    if CheckInclusions(r.inclusions, es).Err? {
      var i := FirstBadInclusion(r.inclusions, es);
    }
    hide CheckInclusion, CheckInclusions, Included, FailsAt, WindowRoot;
  }

  lemma {:induction false} FirstBadInclusion(incs: seq<InclusionProof>, es: seq<LedgerEntry>) returns (i: nat)
    requires CheckInclusions(incs, es).Err?
    ensures FailsAt(incs, es, i, CheckInclusions(incs, es).error)
    decreases |incs|
  {
    InclusionPassesIff(incs[0], es);
    if CheckInclusion(incs[0], es).Ok? {
      hide CheckInclusion, Included, DecodeAll;
      var k := FirstBadInclusion(incs[1..], es);
      i := k + 1;
      assert incs[1..][k] == incs[i];
      forall j | 0 <= j < i ensures Included(incs[j], es) {
        assert j > 0 ==> incs[j] == incs[1..][j - 1];
      }
    } else {
      hide Included;
      i := 0;
    }
  }

  lemma {:induction false} ProofsAreForRequests(es: seq<LedgerEntry>, requests: seq<nat>)
    ensures forall inc :: inc in ProofsFor(es, requests) ==>
      && inc.seqNo < |es| && inc.selfHash == Decoded(es[inc.seqNo].selfHash)
      && inc.path == Encoded(Path(Leaves(SelfHashes(es)), inc.seqNo))
    ensures ProofsFor(es, requests) == [] <==> forall s :: s in requests ==> s >= |es|
    decreases |requests|
  {
    if requests != [] {
      ProofsAreForRequests(es, requests[1..]);
      var first, rest := requests[0], requests[1..];
      assert requests == [first] + rest;
      if first < |es| {
        assert first in requests && ProofsFor(es, requests) != [];
      } else if ProofsFor(es, rest) == [] {
        assert forall s :: s in requests ==> s == first || s in rest;
      } else {
        var s :| s in rest && s < |es|;
        assert s in requests;
      }
    }
  }

  /** A proof issued by one ledger passes against another of the same length exactly when the two
      have the same full root. */
  lemma IssuedProofPassesIff(a: seq<LedgerEntry>, b: seq<LedgerEntry>, inc: InclusionProof)
    requires |a| == |b| && inc.seqNo < |a|
    requires inc.selfHash == Decoded(a[inc.seqNo].selfHash)
    requires inc.path == Encoded(Path(Leaves(SelfHashes(a)), inc.seqNo))
    ensures CheckInclusion(inc, b).Ok? <==> RootOf(SelfHashes(a)) == RootOf(SelfHashes(b))
  {
    var k := inc.seqNo;
    var path := Path(Leaves(SelfHashes(a)), k);
    DecodeEncoded(path);
    LedgerInclusionExact(a, a[k].selfHash, k, path);
    LedgerInclusionExact(b, a[k].selfHash, k, path);
  }

  // ---- What a receipt proves -------------------------------------------------------------------

  /** Equal window roots over the same range mean equal histories up to the end of the window, not
      only inside it. */
  lemma WindowRootBinds(enc: Encoder, a: seq<LedgerEntry>, b: seq<LedgerEntry>, start: nat, end: nat)
    requires InjectiveEncoding(enc) && ChainSound(enc, a) && ChainSound(enc, b)
    requires start <= end < |a| && end < |b|
    ensures WindowRoot(a, start, end) == WindowRoot(b, start, end) <==> a[..end + 1] == b[..end + 1]
  {
    var wa, wb := a[start..end + 1], b[start..end + 1];
    if WindowRoot(a, start, end) == WindowRoot(b, start, end) {
      SelfHashesDistinct(enc, a);
      SelfHashesDistinct(enc, b);
      assert Distinct(SelfHashes(wa)) by { WindowDistinct(a, start, end); }
      assert Distinct(SelfHashes(wb)) by { WindowDistinct(b, start, end); }
      RootDeterminesLeaves(SelfHashes(wa), SelfHashes(wb));
      assert SelfHashes(wa)[end - start] == a[end].selfHash;
      assert SelfHashes(wb)[end - start] == b[end].selfHash;
      HistoryDetermined(enc, a, b, end, end);
    } else {
      assert wa == a[..end + 1][start..] && wb == b[..end + 1][start..];
    }
  }

  lemma WindowDistinct(a: seq<LedgerEntry>, start: nat, end: nat)
    requires start <= end < |a| && Distinct(SelfHashes(a))
    ensures Distinct(SelfHashes(a[start..end + 1]))
  {
    var w := a[start..end + 1];
    forall i, j | 0 <= i < j < |w| ensures SelfHashes(w)[i] != SelfHashes(w)[j] {
      assert SelfHashes(a)[start + i] != SelfHashes(a)[start + j];
    }
  }

  /** Prefix binding: one receipt, whoever made it, cannot verify against two append-built ledgers
      that differ in length or anywhere up to the end of the sealed window. */
  lemma ReceiptBindsPrefix(
    enc: Encoder, k1: PublicKey, k2: PublicKey, r: Receipt, a: seq<LedgerEntry>, b: seq<LedgerEntry>)
    requires InjectiveEncoding(enc) && ChainSound(enc, a) && ChainSound(enc, b)
    requires Verify(k1, r, a).Ok? && Verify(k2, r, b).Ok?
    ensures k1 == k2 && |a| == |b| && a[..r.endSeq + 1] == b[..r.endSeq + 1]
  {
    WindowRootBinds(enc, a, b, r.startSeq, r.endSeq);
  }

  /** Which ledgers a sealed receipt verifies against, exactly.  Without an in-range inclusion
      request: those of the same length that agree up to the end of the window.  With one: the
      sealed ledger alone. */
  lemma SealedVerifiesIff(
    enc: Encoder, key: PublicKey, a: seq<LedgerEntry>, b: seq<LedgerEntry>,
    start: nat, end: nat, opts: SealOptions, nowMs: nat)
    requires InjectiveEncoding(enc) && ChainSound(enc, a) && ChainSound(enc, b)
    requires start <= end < |a|
    ensures
      var sealed := SealWithOptions(key, a, start, end, opts, nowMs);
      && sealed.Ok?
      && (Verify(key, sealed.value, b).Ok? <==>
           if exists s :: s in opts.inclusions && s < |a| then a == b
           else |a| == |b| && a[..end + 1] == b[..end + 1])
  {
    var r := SealWithOptions(key, a, start, end, opts, nowMs).value;
    AllInclusionsPass(r.inclusions, b);
    ProofsAreForRequests(a, opts.inclusions);
    RootDeterminesLedger(enc, a, b);
    if |a| == |b| {
      WindowRootBinds(enc, a, b, start, end);
      forall inc | inc in r.inclusions
        ensures CheckInclusion(inc, b).Ok? <==> a == b
      {
        IssuedProofPassesIff(a, b, inc);
      }
      assert exists s :: s in opts.inclusions && s < |a| <==> r.inclusions != [];
      if r.inclusions != [] {
        assert r.inclusions[0] in r.inclusions;
      }
    }
  }

  // ---- Inclusions against the receipt's own root -------------------------------------------------

  lemma ChainRanked(enc: Encoder, es: seq<LedgerEntry>)
    requires ChainSound(enc, es)
    ensures Ranked(Leaves(SelfHashes(es)))
  {
    forall i | 0 <= i < |es| ensures Age(Leaves(SelfHashes(es))[i]) == i + 1 {
      SelfHashCountsPosition(enc, es, i);
    }
  }

  lemma WindowRanked(es: seq<LedgerEntry>, start: nat, end: nat)
    requires start <= end < |es| && Ranked(Leaves(SelfHashes(es)))
    ensures Ranked(Leaves(SelfHashes(es[start..end + 1])))
  {
    var all, level := Leaves(SelfHashes(es)), Leaves(SelfHashes(es[start..end + 1]));
    forall i, j | 0 <= i < j < |level| ensures Age(level[i]) < Age(level[j]) {
      assert level[i] == all[start + i] && level[j] == all[start + j];
    }
  }

  /** Only a window over everything has the ledger's root. */
  lemma WindowRootIsFullIff(enc: Encoder, es: seq<LedgerEntry>, start: nat, end: nat)
    requires ChainSound(enc, es) && start <= end < |es|
    ensures WindowRoot(es, start, end) == RootOf(SelfHashes(es)) <==> start == 0 && end == |es| - 1
  {
    FullWindowRoot(es);
    if WindowRoot(es, start, end) == RootOf(SelfHashes(es)) {
      SelfHashesDistinct(enc, es);
      WindowDistinct(es, start, end);
      RootDeterminesLeaves(SelfHashes(es[start..end + 1]), SelfHashes(es));
      assert |SelfHashes(es[start..end + 1])| == end - start + 1;
    }
  }

  /** The claimed leaf and path lead to this root from a position among `n` leaves. */
  predicate HashesInto(inc: InclusionProof, pos: nat, n: nat, root: Hex<Digest>) {
    inc.selfHash.Decoded? && DecodeAll(inc.path).Some? && root.Decoded?
      && Accepts(inc.selfHash.bytes, pos, n, DecodeAll(inc.path).value, root.bytes)
  }

  lemma CheckedInclusion(es: seq<LedgerEntry>, inc: InclusionProof)
    requires CheckInclusion(inc, es).Ok?
    ensures inc.seqNo < |es| && inc.selfHash == Decoded(es[inc.seqNo].selfHash)
    ensures DecodeAll(inc.path) == Some(Path(Leaves(SelfHashes(es)), inc.seqNo))
    ensures forall root :: HashesInto(inc, inc.seqNo, |es|, Decoded(root)) <==> root == RootOf(SelfHashes(es))
  {
    LedgerInclusionExact(es, inc.selfHash.bytes, inc.seqNo, DecodeAll(inc.path).value);
  }

  lemma SelfHashInWindow(es: seq<LedgerEntry>, start: nat, end: nat, k: nat)
    requires start <= k <= end < |es|
    ensures |SelfHashes(es[start..end + 1])| == end - start + 1
    ensures SelfHashes(es[start..end + 1])[k - start] == SelfHashes(es)[k]
  {
  }

  /** The ledger's own path for an entry leads to the root of a window that holds the entry, from the
      entry's place in the window, only when that is the ledger's root. */
  lemma OwnPathMeetsWindowIff(enc: Encoder, es: seq<LedgerEntry>, start: nat, end: nat, k: nat)
    requires ChainSound(enc, es) && start <= k <= end < |es|
    ensures
      var path := Path(Leaves(SelfHashes(es)), k);
      Accepts(es[k].selfHash, k - start, end - start + 1, path, WindowRoot(es, start, end))
        == (WindowRoot(es, start, end) == RootOf(SelfHashes(es)))
  {
    hide Distinct, Ranked, Path, Accepts, RootOf, ChainSound;
    SelfHashesDistinct(enc, es);
    WindowDistinct(es, start, end);
    ChainRanked(enc, es);
    WindowRanked(es, start, end);
    SelfHashInWindow(es, start, end, k);
    OwnPathPassesIff(SelfHashes(es), SelfHashes(es[start..end + 1]), start, k);
  }

  /** The same for a checked inclusion and the window of a receipt. */
  lemma WindowPositionMeetsRootIff(
    enc: Encoder, es: seq<LedgerEntry>, start: nat, end: nat, inc: InclusionProof)
    requires ChainSound(enc, es) && start <= end < |es| && CheckInclusion(inc, es).Ok?
    requires start <= inc.seqNo <= end
    ensures HashesInto(inc, inc.seqNo - start, end - start + 1, Decoded(WindowRoot(es, start, end)))
      <==> start == 0 && end == |es| - 1
  {
    CheckedInclusion(es, inc);
    WindowRootIsFullIff(enc, es, start, end);
    hide CheckInclusion, Accepts, Path, DecodeAll, WindowRoot;
    OwnPathMeetsWindowIff(enc, es, start, end, inc.seqNo);
  }

  /** When an inclusion that `Verify` passed hashes into the receipt's own root, whether the entry is
      placed by its number in the ledger or relative to the window: exactly when the receipt seals the
      whole ledger. */
  lemma InclusionMeetsReceiptRootIff(
    enc: Encoder, key: PublicKey, r: Receipt, es: seq<LedgerEntry>, inc: InclusionProof)
    requires ChainSound(enc, es) && Verify(key, r, es).Ok? && inc in r.inclusions
    ensures HashesInto(inc, inc.seqNo, r.ledgerLen, r.merkleRoot)
      <==> r.startSeq == 0 && r.endSeq + 1 == r.ledgerLen
    ensures r.startSeq <= inc.seqNo <= r.endSeq ==>
      HashesInto(inc, inc.seqNo - r.startSeq, r.endSeq - r.startSeq + 1, r.merkleRoot)
        == (r.startSeq == 0 && r.endSeq + 1 == r.ledgerLen)
  {
    AllInclusionsPass(r.inclusions, es);
    hide HashesInto, CheckInclusion;
    CheckedInclusion(es, inc);
    WindowRootIsFullIff(enc, es, r.startSeq, r.endSeq);
    if r.startSeq <= inc.seqNo <= r.endSeq {
      WindowPositionMeetsRootIff(enc, es, r.startSeq, r.endSeq, inc);
    }
  }

  /** A receipt over the first of two entries, with a proof for that entry: it verifies, and the proof
      misses the receipt's root. */
  lemma SubWindowInclusionMissesRoot(enc: Encoder, key: PublicKey, a: AuditEntry, b: AuditEntry, nowMs: nat)
    ensures
      var es := Seal(enc, [a, b]);
      var sealed := SealWithOptions(key, es, 0, 0, SealOptions(None, [0]), nowMs);
      && sealed.Ok? && Verify(key, sealed.value, es).Ok? && |sealed.value.inclusions| == 1
      && sealed.value.inclusions[0].seqNo == 0
      && !HashesInto(sealed.value.inclusions[0], 0, 2, sealed.value.merkleRoot)
      && !HashesInto(sealed.value.inclusions[0], 0, 1, sealed.value.merkleRoot)
  {
    var es := Seal(enc, [a, b]);
    SealedIsSound(enc, [a, b]);
    SealVerifyRoundTrip(key, es, 0, 0, SealOptions(None, [0]), nowMs);
    var r := SealWithOptions(key, es, 0, 0, SealOptions(None, [0]), nowMs).value;
    assert [0][1..] == [] && ProofsFor(es, []) == [];
    hide Seal, Verify, HashesInto;
    InclusionMeetsReceiptRootIff(enc, key, r, es, r.inclusions[0]);
  }

  /** Seal and verify round trip on every ledger, with no assumption on chain or encoding. */
  lemma SealVerifyRoundTrip(
    key: PublicKey, es: seq<LedgerEntry>, start: nat, end: nat, opts: SealOptions, nowMs: nat)
    ensures
      var sealed := SealWithOptions(key, es, start, end, opts, nowMs);
      && (sealed.Ok? <==> start <= end < |es|)
      && (sealed.Err? ==> sealed.error == InvalidProverRange(start, end, |es|))
      && (sealed.Ok? ==>
            var r := sealed.value;
            && Verify(key, r, es).Ok?
            && r.note == opts.note && r.sealedAtMs == nowMs && r.schemaVersion == 1
            && r.startSeq == start && r.endSeq == end && r.ledgerLen == |es| && r.proverPubkey == Decoded(key)
            && exists ps :: ProvesRequests(r.inclusions, es, opts.inclusions, 0, ps))
  {
    if start <= end < |es| {
      var r := SealWithOptions(key, es, start, end, opts, nowMs).value;
      AllInclusionsPass(r.inclusions, es);
      ProofsAreForRequests(es, opts.inclusions);
      assert opts.inclusions[0..] == opts.inclusions;
      var ps := ProofsForRequests(es, opts.inclusions, 0);
      forall inc | inc in r.inclusions ensures CheckInclusion(inc, es).Ok? {
        IssuedProofPassesIff(es, es, inc);
      }
    }
  }

  /** Tamper evidence: whoever keeps a sealed signature but changes any signed field gets a receipt
      that no key and no ledger accepts. */
  lemma SignatureBindsFields(
    key: PublicKey, a: seq<LedgerEntry>, start: nat, end: nat, opts: SealOptions, nowMs: nat,
    forged: Receipt, k: PublicKey, b: seq<LedgerEntry>)
    requires start <= end < |a|
    requires forged.signature == SealWithOptions(key, a, start, end, opts, nowMs).value.signature
    requires Verify(k, forged, b).Ok?
    ensures
      var r := SealWithOptions(key, a, start, end, opts, nowMs).value;
      && k == key
      && forged.merkleRoot == r.merkleRoot && forged.startSeq == start && forged.endSeq == end
      && forged.ledgerLen == |a| && forged.proverPubkey == Decoded(key)
      && forged.schemaVersion == RECEIPT_SCHEMA_VERSION
  {
    var r := SealWithOptions(key, a, start, end, opts, nowMs).value;
    assert r.signature.bytes == Signed(k, Binding(forged, forged.merkleRoot.bytes));
  }

  // ---- Rebuilding a ledger ---------------------------------------------------------------------

  datatype WireEntry = WireEntry(seqNo: nat, entry: AuditEntry)

  datatype RebuildError = NonMonotonicSeq(index: nat, got: nat)

  function ToWire(es: seq<LedgerEntry>): (wire: seq<WireEntry>)
    ensures |wire| == |es|
    ensures forall i :: 0 <= i < |es| ==> wire[i] == WireEntry(es[i].seqNo, es[i].entry)
  {
    seq(|es|, i requires 0 <= i < |es| => WireEntry(es[i].seqNo, es[i].entry))
  }

  ghost predicate Numbered(wire: seq<WireEntry>, n: nat)
    requires n <= |wire|
  {
    forall i :: 0 <= i < n ==> wire[i].seqNo == i
  }

  /** Rebuilding re-seals the listed entries; it fails at the first wrong sequence number. */
  method RebuildLedger(canonical: Encoder, wire: seq<WireEntry>)
    returns (r: Result<AuditLedger, RebuildError>)
    ensures r.Ok? <==> Numbered(wire, |wire|)
    ensures r.Ok? ==>
      && fresh(r.value) && r.value.Valid() && r.value.canonical == canonical
      && ToWire(r.value.entries) == wire
    ensures r.Err? ==>
      var k := r.error.index;
      k < |wire| && Numbered(wire, k) && wire[k].seqNo == r.error.got != k
  {
    var ledger := new AuditLedger(canonical);
    var i := 0;
    while i < |wire|
      invariant 0 <= i <= |wire|
      invariant fresh(ledger) && ledger.Valid() && ledger.canonical == canonical
      invariant ToWire(ledger.entries) == wire[..i]
      invariant Numbered(wire, i)
    {
      var e := wire[i];
      if e.seqNo != i {
        return Err(NonMonotonicSeq(i, e.seqNo));
      }
      var sealed := ledger.Append(e.entry);
      assert |ToWire(ledger.entries)| == i + 1;
      assert Sound(canonical, ledger.entries, i);
      i := i + 1;
    }
    return Ok(ledger);
  }

  /** A sound chain is the only sound chain with its serialised form, so rebuilding it gives back
      the same ledger, against which its receipts still verify. */
  lemma WireDeterminesChain(enc: Encoder, a: seq<LedgerEntry>, b: seq<LedgerEntry>)
    requires ChainSound(enc, a) && ChainSound(enc, b) && ToWire(a) == ToWire(b)
    ensures a == b
  {
    SoundIffSealed(enc, a);
    SoundIffSealed(enc, b);
    assert |a| == |ToWire(a)| == |b|;
    forall i | 0 <= i < |a| ensures Entries(a)[i] == Entries(b)[i] {
      assert ToWire(a)[i] == ToWire(b)[i];
    }
    assert Entries(a) == Entries(b);
  }

  /** The whole pipeline: seal a window, ship the ledger as (seq, entry) pairs, rebuild it, and
      verify the receipt against the rebuilt ledger. */
  method SealShipVerify(
    ledger: AuditLedger, key: PublicKey, start: nat, end: nat, opts: SealOptions, nowMs: nat)
    returns (rebuilt: Result<AuditLedger, RebuildError>, verdict: Result<(), VerificationError>)
    requires ledger.Valid() && start <= end < |ledger.entries|
    ensures rebuilt.Ok? && rebuilt.value.entries == ledger.entries && verdict.Ok?
  {
    var wire := ToWire(ledger.entries);
    assert Numbered(wire, |wire|) by {
      forall i | 0 <= i < |wire| ensures wire[i].seqNo == i {
        assert Sound(ledger.canonical, ledger.entries, i);
      }
    }
    rebuilt := RebuildLedger(ledger.canonical, wire);
    WireDeterminesChain(ledger.canonical, ledger.entries, rebuilt.value.entries);
    var sealed := SealWithOptions(key, ledger.entries, start, end, opts, nowMs);
    SealVerifyRoundTrip(key, ledger.entries, start, end, opts, nowMs);
    verdict := Verify(key, sealed.value, rebuilt.value.entries);
  }
}
