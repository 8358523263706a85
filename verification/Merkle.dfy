/** The binary reduction shared by the ledger root, the window root and inclusion proofs.
    A level of odd length pairs its last node with itself. */
module Merkle {
  import opened Sequences
  import opened Digests

  // ---- The reduction as functions -------------------------------------------------------------

  function PairAt(level: seq<Digest>, i: nat): Digest
    requires 2 * i < |level|
  {
    NodeH(level[2 * i], if 2 * i + 1 < |level| then level[2 * i + 1] else level[2 * i])
  }

  function Reduce(level: seq<Digest>): (next: seq<Digest>)
    ensures |next| == (|level| + 1) / 2
    ensures forall i :: 0 <= i < |next| ==> next[i] == PairAt(level, i)
  {
    seq((|level| + 1) / 2, i requires 0 <= i < (|level| + 1) / 2 => PairAt(level, i))
  }

  function Root(level: seq<Digest>): Digest
    requires |level| > 0
    decreases |level|
  {
    if |level| == 1 then level[0] else Root(Reduce(level))
  }

  function Sibling(path: nat, size: nat): (s: nat)
    requires path < size
    ensures s < size && s / 2 == path / 2
    ensures s == path <==> path % 2 == 0 && path + 1 == size
  {
    if path % 2 == 0 then (if path + 1 < size then path + 1 else path) else path - 1
  }

  function Path(level: seq<Digest>, i: nat): seq<Digest>
    requires i < |level|
    decreases |level|
  {
    if |level| == 1 then [] else [level[Sibling(i, |level|)]] + Path(Reduce(level), i / 2)
  }

  /** One verification step: combine with a sibling on the side the position dictates. */
  function Combine(hash: Digest, path: nat, sib: Digest): Digest {
    if path % 2 == 0 then NodeH(hash, sib) else NodeH(sib, hash)
  }

  function Climb(hash: Digest, path: nat, proof: seq<Digest>): Digest
    decreases |proof|
  {
    if proof == [] then hash else Climb(Combine(hash, path, proof[0]), path / 2, proof[1..])
  }

  /** The number of nodes left on the level reached after `k` halvings. */
  function SizeAfter(n: nat, k: nat): nat
    decreases k
  {
    if k == 0 then n else SizeAfter((n + 1) / 2, k - 1)
  }

  function Leaves(selfHashes: seq<Digest>): (level: seq<Digest>)
    ensures |level| == |selfHashes|
    ensures forall i :: 0 <= i < |level| ==> level[i] == LeafH(selfHashes[i])
  {
    seq(|selfHashes|, i requires 0 <= i < |selfHashes| => LeafH(selfHashes[i]))
  }

  /** The commitment to a list of self-hashes; the empty list commits to the zero digest. */
  function RootOf(selfHashes: seq<Digest>): Digest {
    if selfHashes == [] then Genesis else Root(Leaves(selfHashes))
  }

  /** What the verifier decides about a claimed position. */
  predicate Accepts(x: Digest, seqNo: nat, n: nat, proof: seq<Digest>, root: Digest) {
    seqNo < n && SizeAfter(n, |proof|) == 1 && Climb(LeafH(x), seqNo, proof) == root
  }

  // ---- Heights --------------------------------------------------------------------------------

  /** The number of reductions that bring `n` nodes down to one. */
  ghost function Depth(n: nat): nat
    requires n > 0
  {
    if n == 1 then 0 else 1 + Depth((n + 1) / 2)
  }

  ghost function Pow2(k: nat): nat {
    if k == 0 then 1 else 2 * Pow2(k - 1)
  }

  /** Depth(n) is the base-2 logarithm of n, rounded up. */
  lemma {:induction false} DepthIsCeilLog2(n: nat)
    requires n > 0
    ensures n <= Pow2(Depth(n))
    ensures Depth(n) > 0 ==> Pow2(Depth(n) - 1) < n
    decreases n
  {
    if n > 1 {
      DepthIsCeilLog2((n + 1) / 2);
    }
  }

  lemma {:induction false} SizeAfterDepth(n: nat, k: nat)
    requires n > 0
    ensures SizeAfter(n, k) == 1 <==> k >= Depth(n)
    decreases n, k
  {
    if n == 1 {
      if k > 0 { SizeAfterDepth(1, k - 1); }
    } else if k > 0 {
      SizeAfterDepth((n + 1) / 2, k - 1);
    }
  }

  /** A full tree: every leaf is a LeafH and lies exactly `h` nodes down. */
  ghost predicate Full(d: Digest, h: nat) {
    if h == 0 then d.LeafH? else d.NodeH? && Full(d.left, h - 1) && Full(d.right, h - 1)
  }

  ghost predicate FullLevel(level: seq<Digest>, h: nat) {
    forall i :: 0 <= i < |level| ==> Full(level[i], h)
  }

  lemma {:induction false} FullHeightUnique(d: Digest, h: nat, k: nat)
    requires Full(d, h) && Full(d, k)
    ensures h == k
    decreases h
  {
    if h > 0 && k > 0 {
      FullHeightUnique(d.left, h - 1, k - 1);
    }
  }

  lemma {:induction false} RootIsFull(level: seq<Digest>, h: nat)
    requires |level| > 0 && FullLevel(level, h)
    ensures Full(Root(level), h + Depth(|level|))
    decreases |level|
  {
    if |level| > 1 {
      RootIsFull(Reduce(level), h + 1);
    }
  }

  // ---- Inclusion proofs are exact ---------------------------------------------------------------

  /** A climb that reaches a full tree consumed no more siblings than its height. */
  lemma {:induction false} ClimbHeight(d: Digest, path: nat, proof: seq<Digest>, k: nat)
    requires Full(Climb(d, path, proof), k)
    ensures |proof| <= k && Full(d, k - |proof|)
    decreases |proof|
  {
    if proof != [] {
      ClimbHeight(Combine(d, path, proof[0]), path / 2, proof[1..], k);
    }
  }

  /** Climbing along the computed path rebuilds the root. */
  lemma {:induction false} PathClimbs(level: seq<Digest>, i: nat)
    requires i < |level|
    ensures |Path(level, i)| == Depth(|level|)
    ensures Climb(level[i], i, Path(level, i)) == Root(level)
    decreases |level|
  {
    if |level| > 1 {
      PathClimbs(Reduce(level), i / 2);
      assert Path(level, i)[1..] == Path(Reduce(level), i / 2);
    }
  }

  lemma CombineInjective(level: seq<Digest>, d: Digest, i: nat, sib: Digest)
    requires i < |level|
    requires Combine(d, i, sib) == PairAt(level, i / 2)
    ensures d == level[i] && sib == level[Sibling(i, |level|)]
  {
    if i % 2 == 0 {
      assert 2 * (i / 2) == i;
    } else {
      assert 2 * (i / 2) == i - 1;
    }
  }

  /** Only the node at position i, along the computed path, climbs to the root in Depth steps. */
  lemma {:induction false} ClimbExact(level: seq<Digest>, d: Digest, i: nat, proof: seq<Digest>)
    requires i < |level| && |proof| == Depth(|level|)
    requires Climb(d, i, proof) == Root(level)
    ensures d == level[i] && proof == Path(level, i)
    decreases |level|
  {
    if |level| > 1 {
      var next := Reduce(level);
      ClimbExact(next, Combine(d, i, proof[0]), i / 2, proof[1..]);
      assert next[i / 2] == PairAt(level, i / 2);
      CombineInjective(level, d, i, proof[0]);
      assert proof == [proof[0]] + Path(next, i / 2);
    }
  }

  /** Inclusion exactness: against the root of n entries, a proof passes if and only if the
      position is in range, the leaf is the entry's own self-hash, and the path is the one that
      the ledger computes.  No longer, shorter or otherwise different path ever passes. */
  lemma InclusionExact(xs: seq<Digest>, x: Digest, seqNo: nat, proof: seq<Digest>)
    ensures Accepts(x, seqNo, |xs|, proof, RootOf(xs))
      <==> seqNo < |xs| && x == xs[seqNo] && proof == Path(Leaves(xs), seqNo)
  {
    if seqNo < |xs| {
      var level := Leaves(xs);
      SizeAfterDepth(|xs|, |proof|);
      PathClimbs(level, seqNo);
      if Accepts(x, seqNo, |xs|, proof, RootOf(xs)) {
        RootIsFull(level, 0);
        ClimbHeight(LeafH(x), seqNo, proof, Depth(|xs|));
        ClimbExact(level, LeafH(x), seqNo, proof);
      }
    }
  }

  // ---- One path, two trees ------------------------------------------------------------------------

  /** How long a chain the leftmost leaf below a node closes. */
  ghost function Age(d: Digest): nat {
    match d
    case NodeH(left, _) => Age(left)
    case LeafH(selfHash) => ChainLength(selfHash)
    case _ => 0
  }

  /** The leftmost leaves below a level get strictly older from left to right. */
  ghost predicate Ranked(level: seq<Digest>) {
    forall i, j :: 0 <= i < j < |level| ==> Age(level[i]) < Age(level[j])
  }

  lemma ReduceKeepsRanked(level: seq<Digest>)
    requires Ranked(level)
    ensures Ranked(Reduce(level))
  {
    var next := Reduce(level);
    forall i, j | 0 <= i < j < |next| ensures Age(next[i]) < Age(next[j]) {
      assert Age(next[i]) == Age(level[2 * i]) && Age(next[j]) == Age(level[2 * j]);
    }
  }

  /** Two levels that agree on a node and on its sibling agree on the side of the sibling. */
  lemma SameSiblingSameSide(a: seq<Digest>, i: nat, b: seq<Digest>, j: nat)
    requires i < |a| && j < |b| && Ranked(a) && Ranked(b)
    requires a[i] == b[j] && a[Sibling(i, |a|)] == b[Sibling(j, |b|)]
    ensures PairAt(a, i / 2) == PairAt(b, j / 2)
  {
    var s, t := Sibling(i, |a|), Sibling(j, |b|);
    assert s < i <==> t < j;
    assert s > i <==> t > j;
  }

  /** When one path leads upwards from the same node of two levels in a common order, both levels have
      the same root. */
  lemma {:induction false} SamePathSameRoot(a: seq<Digest>, i: nat, b: seq<Digest>, j: nat)
    requires i < |a| && j < |b| && Ranked(a) && Ranked(b)
    requires a[i] == b[j] && Path(a, i) == Path(b, j)
    ensures Root(a) == Root(b)
    decreases |a|
  {
    PathClimbs(a, i);
    PathClimbs(b, j);
    if |a| > 1 {
      assert |Path(a, i)| > 0;
      assert Path(a, i)[0] == Path(b, j)[0] && Path(a, i)[1..] == Path(b, j)[1..];
      assert Path(a, i)[1..] == Path(Reduce(a), i / 2) && Path(b, j)[1..] == Path(Reduce(b), j / 2);
      ReduceKeepsRanked(a);
      ReduceKeepsRanked(b);
      SameSiblingSameSide(a, i, b, j);
      SamePathSameRoot(Reduce(a), i / 2, Reduce(b), j / 2);
    }
  }

  lemma ProofLength(xs: seq<Digest>, seqNo: nat)
    requires seqNo < |xs|
    ensures var k := |Path(Leaves(xs), seqNo)|;
      |xs| <= Pow2(k) && (k > 0 ==> Pow2(k - 1) < |xs|)
  {
    PathClimbs(Leaves(xs), seqNo);
    DepthIsCeilLog2(|xs|);
  }

  // ---- The root determines the leaves -------------------------------------------------------------

  lemma ReduceKeepsDistinct(level: seq<Digest>)
    requires Distinct(level)
    ensures Distinct(Reduce(level))
  {
    forall i, j | 0 <= i < j < |Reduce(level)|
      ensures Reduce(level)[i] != Reduce(level)[j]
    {
      assert level[2 * i] != level[2 * j];
      assert Reduce(level)[i] == PairAt(level, i) && Reduce(level)[j] == PairAt(level, j);
    }
  }

  lemma OddTailShows(a: seq<Digest>, b: seq<Digest>)
    requires Distinct(b) && |a| % 2 == 1 && |b| == |a| + 1
    ensures Reduce(a) != Reduce(b)
  {
    var i := |a| / 2;
    assert Reduce(a)[i] == PairAt(a, i) && Reduce(b)[i] == PairAt(b, i);
  }

  lemma ReduceInjective(a: seq<Digest>, b: seq<Digest>)
    requires Distinct(a) && Distinct(b)
    requires Reduce(a) == Reduce(b)
    ensures a == b
  {
    forall i | 0 <= i < |Reduce(a)|
      ensures PairAt(a, i) == PairAt(b, i)
    {
      assert Reduce(a)[i] == Reduce(b)[i];
    }
    if |a| < |b| { OddTailShows(a, b); }
    if |b| < |a| { OddTailShows(b, a); }
    forall k | 0 <= k < |a|
      ensures a[k] == b[k]
    {
      assert PairAt(a, k / 2) == PairAt(b, k / 2);
    }
  }

  lemma {:induction false} RootInjective(a: seq<Digest>, b: seq<Digest>, h: nat)
    requires |a| > 0 && |b| > 0
    requires FullLevel(a, h) && FullLevel(b, h) && Distinct(a) && Distinct(b)
    requires Root(a) == Root(b)
    ensures a == b
    decreases |a|
  {
    RootIsFull(a, h);
    RootIsFull(b, h);
    FullHeightUnique(Root(a), h + Depth(|a|), h + Depth(|b|));
    if |a| > 1 {
      ReduceKeepsDistinct(a);
      ReduceKeepsDistinct(b);
      RootInjective(Reduce(a), Reduce(b), h + 1);
      ReduceInjective(a, b);
    }
  }

  /** Distinct self-hashes are recovered from their root, their number included, although odd
      levels duplicate their tail. */
  lemma RootDeterminesLeaves(xs: seq<Digest>, ys: seq<Digest>)
    requires Distinct(xs) && Distinct(ys)
    requires RootOf(xs) == RootOf(ys)
    ensures xs == ys
  {
    if xs != [] { RootIsFull(Leaves(xs), 0); }
    if ys != [] { RootIsFull(Leaves(ys), 0); }
    if xs != [] && ys != [] {
      RootInjective(Leaves(xs), Leaves(ys), 0);
      forall i | 0 <= i < |xs| ensures xs[i] == ys[i] {
        assert Leaves(xs)[i] == Leaves(ys)[i];
      }
    }
  }

  lemma CommonPathIff(xs: seq<Digest>, ys: seq<Digest>, i: nat, j: nat)
    requires j <= i < |xs| && j < |ys| && i - j + |ys| <= |xs| && xs[i] == ys[j]
    requires Distinct(xs) && Distinct(ys) && Ranked(Leaves(xs)) && Ranked(Leaves(ys))
    ensures Path(Leaves(xs), i) == Path(Leaves(ys), j) <==> RootOf(xs) == RootOf(ys)
  {
    assert xs != [] && ys != [] && Leaves(xs)[i] == Leaves(ys)[j];
    if RootOf(xs) == RootOf(ys) {
      RootDeterminesLeaves(xs, ys);
      assert i == j;
    } else if Path(Leaves(xs), i) == Path(Leaves(ys), j) {
      hide Path, Ranked, Root, Distinct;
      SamePathSameRoot(Leaves(xs), i, Leaves(ys), j);
    }
  }

  /** The path of a node passes for a part of the leaves, from the node's place there, exactly when that
      part has the same root. */
  lemma OwnPathPassesIff(xs: seq<Digest>, ys: seq<Digest>, start: nat, k: nat)
    requires start <= k < |xs| && k - start < |ys| && start + |ys| <= |xs| && xs[k] == ys[k - start]
    requires Distinct(xs) && Distinct(ys) && Ranked(Leaves(xs)) && Ranked(Leaves(ys))
    ensures Accepts(xs[k], k - start, |ys|, Path(Leaves(xs), k), RootOf(ys)) == (RootOf(ys) == RootOf(xs))
  {
    CommonPathIff(xs, ys, k, k - start);
    InclusionExact(ys, xs[k], k - start, Path(Leaves(xs), k));
    hide *;
  }

  /** The tree over four leaves, and over three: left to right, the last one paired with itself. */
  lemma SmallTrees(a: Digest, b: Digest, c: Digest, d: Digest)
    ensures RootOf([a]) == LeafH(a)
    ensures RootOf([a, b, c]) == NodeH(NodeH(LeafH(a), LeafH(b)), NodeH(LeafH(c), LeafH(c)))
    ensures RootOf([a, b, c, d]) == NodeH(NodeH(LeafH(a), LeafH(b)), NodeH(LeafH(c), LeafH(d)))
  {
    var three, four := Leaves([a, b, c]), Leaves([a, b, c, d]);
    assert Reduce(three) == [PairAt(three, 0), PairAt(three, 1)];
    assert Reduce(four) == [PairAt(four, 0), PairAt(four, 1)];
    assert Root(Reduce(three)) == Reduce(Reduce(three))[0] && Root(Reduce(four)) == Reduce(Reduce(four))[0];
  }

  /** Distinctness is needed: duplicating the last of three leaves keeps the root. */
  lemma DuplicatedTailCollides(a: Digest, b: Digest, c: Digest)
    ensures RootOf([a, b, c]) == RootOf([a, b, c, c])
  {
    var three, four := Leaves([a, b, c]), Leaves([a, b, c, c]);
    assert Reduce(three) == Reduce(four);
  }

  // ---- The loops ----------------------------------------------------------------------------------

  method ReduceLevel(level: seq<Digest>) returns (next: seq<Digest>)
    ensures next == Reduce(level)
  {
    next := [];
    var i := 0;
    while i < |level|
      invariant i % 2 == 0 && i <= |level| + 1
      invariant |next| == i / 2
      invariant forall j :: 0 <= j < |next| ==> next[j] == PairAt(level, j)
    {
      var l := level[i];
      var r := if i + 1 < |level| then level[i + 1] else level[i];
      next := next + [NodeH(l, r)];
      i := i + 2;
    }
  }

  method ComputeRoot(leaves: seq<Digest>) returns (root: Digest)
    requires |leaves| > 0
    ensures root == Root(leaves)
  {
    var level := leaves;
    while |level| > 1
      invariant |level| > 0
      invariant Root(level) == Root(leaves)
      decreases |level|
    {
      level := ReduceLevel(level);
    }
    root := level[0];
  }

  lemma PathStep(level: seq<Digest>, i: nat, before: seq<Digest>)
    requires i < |level| && |level| > 1
    ensures before + Path(level, i) == before + [level[Sibling(i, |level|)]] + Path(Reduce(level), i / 2)
  {
  }

  method ComputePath(leaves: seq<Digest>, idx: nat) returns (proof: seq<Digest>)
    requires idx < |leaves|
    ensures proof == Path(leaves, idx)
  {
    var level := leaves;
    var path: nat := idx;
    proof := [];
    while |level| > 1
      invariant path < |level|
      invariant proof + Path(level, path) == Path(leaves, idx)
      decreases |level|
    {
      hide Path, Sibling, Reduce, PairAt;
      var sibling;
      if path % 2 == 0 {
        if path + 1 < |level| { sibling := path + 1; } else { sibling := path; }
      } else {
        sibling := path - 1;
      }
      assert sibling == Sibling(path, |level|);
      PathStep(level, path, proof);
      proof := proof + [level[sibling]];
      level := ReduceLevel(level);
      path := path / 2;
    }
  }

  method VerifyMerkleProof(leafSelfHash: Digest, seqNo: nat, n: nat, proof: seq<Digest>, root: Digest)
    returns (ok: bool)
    ensures ok == Accepts(leafSelfHash, seqNo, n, proof, root)
  {
    if n == 0 || seqNo >= n {
      return false;
    }
    var hash := LeafH(leafSelfHash);
    var path := seqNo;
    var levelSize := n;
    var k := 0;
    while k < |proof|
      invariant 0 <= k <= |proof|
      invariant Climb(hash, path, proof[k..]) == Climb(LeafH(leafSelfHash), seqNo, proof)
      invariant SizeAfter(levelSize, |proof| - k) == SizeAfter(n, |proof|)
    {
      var sib := proof[k];
      assert proof[k..][1..] == proof[k + 1..];
      hash := if path % 2 == 0 then NodeH(hash, sib) else NodeH(sib, hash);
      path := path / 2;
      levelSize := (levelSize + 1) / 2;
      k := k + 1;
    }
    ok := levelSize == 1 && hash == root;
  }
}
