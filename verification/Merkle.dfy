/** Merkle batches of core/crypto_audit.py. */
module Merkle {
  import opened Hashing

  /** The text hashed for the k-th pair; an odd last leaf is paired with itself. */
  function PairText(leaves: seq<string>, k: nat): string
    requires 2 * k < |leaves|
  {
    leaves[2 * k] + (if 2 * k + 1 < |leaves| then leaves[2 * k + 1] else leaves[2 * k])
  }

  function NextLevel(h: Hash, leaves: seq<string>): seq<string> {
    seq((|leaves| + 1) / 2, (k: nat) requires 2 * k < |leaves| => h(PairText(leaves, k)))
  }

  function Root(h: Hash, leaves: seq<string>): string
    decreases |leaves|
  {
    if leaves == [] then ZERO
    else if |leaves| == 1 then leaves[0]
    else Root(h, NextLevel(h, leaves))
  }

  lemma LevelAt(h: Hash, leaves: seq<string>, k: nat)
    requires 2 * k < |leaves|
    ensures NextLevel(h, leaves)[k] == h(PairText(leaves, k))
  {
  }

  lemma SmallRoots(h: Hash, leaves: seq<string>)
    ensures |leaves| == 2 ==> Root(h, leaves) == h(leaves[0] + leaves[1])
    ensures |leaves| == 3 ==> Root(h, leaves) == h(h(leaves[0] + leaves[1]) + h(leaves[2] + leaves[2]))
  {
    if 2 <= |leaves| <= 3 {
      LevelAt(h, leaves, 0);
      if |leaves| == 3 {
        LevelAt(h, leaves, 1);
        LevelAt(h, NextLevel(h, leaves), 0);
        assert Root(h, NextLevel(h, leaves)) == NextLevel(h, NextLevel(h, leaves))[0];
      }
    }
  }

  /** Recursion over levels; each level is built pair by pair. */
  method BuildMerkleRoot(h: Hash, leafHashes: seq<string>) returns (root: string)
    ensures root == Root(h, leafHashes)
    ensures leafHashes == [] ==> |root| == 64 && forall i :: 0 <= i < 64 ==> root[i] == '0'
    ensures |leafHashes| == 1 ==> root == leafHashes[0]
    ensures |leafHashes| == 2 ==> root == h(leafHashes[0] + leafHashes[1])
    ensures |leafHashes| == 3 ==> root == h(h(leafHashes[0] + leafHashes[1]) + h(leafHashes[2] + leafHashes[2]))
    decreases |leafHashes|
  {
    if leafHashes == [] { return ZERO; }
    if |leafHashes| == 1 { return leafHashes[0]; }
    var newLevel: seq<string> := [];
    var i := 0;
    while i < |leafHashes|
      invariant i == 2 * |newLevel| && |newLevel| <= (|leafHashes| + 1) / 2
      invariant newLevel == NextLevel(h, leafHashes)[..|newLevel|]
    {
      var left := leafHashes[i];
      var right := if i + 1 < |leafHashes| then leafHashes[i + 1] else left;
      assert h(left + right) == h(PairText(leafHashes, |newLevel|)) == NextLevel(h, leafHashes)[|newLevel|];
      newLevel := newLevel + [h(left + right)];
      i := i + 2;
    }
    assert newLevel == NextLevel(h, leafHashes);
    SmallRoots(h, leafHashes);
    root := BuildMerkleRoot(h, newLevel);
  }

  // ------------------------------------------------------------------ binding

  predicate Digests(leaves: seq<string>) {
    forall i :: 0 <= i < |leaves| ==> |leaves[i]| == DIGEST_LENGTH
  }

  lemma NextLevelIsDigests(h: Hash, leaves: seq<string>)
    requires Wide(h)
    ensures Digests(NextLevel(h, leaves))
  {
    forall k: nat | k < |NextLevel(h, leaves)| ensures |NextLevel(h, leaves)[k]| == DIGEST_LENGTH {
      assert NextLevel(h, leaves)[k] == h(PairText(leaves, k));
    }
  }

  /** The first pair whose texts differ. */
  function FirstDifference(a: seq<string>, b: seq<string>, k: nat): Evidence
    requires |a| == |b|
    decreases |a| - 2 * k
  {
    if 2 * k >= |a| then NoEvidence
    else if PairText(a, k) != PairText(b, k) then Collision(PairText(a, k), PairText(b, k))
    else FirstDifference(a, b, k + 1)
  }

  /** Looks for colliding pair texts, highest level first. */
  function Compare(h: Hash, a: seq<string>, b: seq<string>): Evidence
    requires |a| == |b|
    decreases |a|
  {
    if |a| <= 1 then NoEvidence
    else
      var above := Compare(h, NextLevel(h, a), NextLevel(h, b));
      if above.NoEvidence? then FirstDifference(a, b, 0) else above
  }

  lemma {:induction false} FirstDifferenceSound(h: Hash, a: seq<string>, b: seq<string>, k: nat)
    requires |a| == |b| && Digests(a) && Digests(b)
    requires NextLevel(h, a) == NextLevel(h, b)
    ensures Genuine(h, FirstDifference(a, b, k))
    ensures FirstDifference(a, b, k).NoEvidence? ==> forall i :: 2 * k <= i < |a| ==> a[i] == b[i]
    decreases |a| - 2 * k
  {
    if 2 * k < |a| {
      assert h(PairText(a, k)) == NextLevel(h, a)[k] == NextLevel(h, b)[k] == h(PairText(b, k));
      if PairText(a, k) == PairText(b, k) {
        FirstDifferenceSound(h, a, b, k + 1);
        assert a[2 * k] == PairText(a, k)[..DIGEST_LENGTH] && b[2 * k] == PairText(b, k)[..DIGEST_LENGTH];
        if 2 * k + 1 < |a| {
          assert a[2 * k + 1] == PairText(a, k)[DIGEST_LENGTH..] && b[2 * k + 1] == PairText(b, k)[DIGEST_LENGTH..];
        }
      }
    }
  }

  /** Binding.  Two batches of the same length with the same root are equal,
      or `Compare` exhibits a collision. */
  lemma {:induction false} SameRootSameLeaves(h: Hash, a: seq<string>, b: seq<string>)
    requires Wide(h) && |a| == |b| && Digests(a) && Digests(b)
    requires Root(h, a) == Root(h, b)
    ensures Genuine(h, Compare(h, a, b)) && !Compare(h, a, b).ZeroPreimage?
    ensures Compare(h, a, b).NoEvidence? ==> a == b
    decreases |a|
  {
    if |a| > 1 {
      NextLevelIsDigests(h, a);
      NextLevelIsDigests(h, b);
      SameRootSameLeaves(h, NextLevel(h, a), NextLevel(h, b));
      if Compare(h, NextLevel(h, a), NextLevel(h, b)).NoEvidence? {
        FirstDifferenceSound(h, a, b, 0);
        FirstDifferenceIsCollision(a, b, 0);
      }
    }
  }

  lemma {:induction false} FirstDifferenceIsCollision(a: seq<string>, b: seq<string>, k: nat)
    requires |a| == |b|
    ensures !FirstDifference(a, b, k).ZeroPreimage?
    decreases |a| - 2 * k
  {
    if 2 * k < |a| { FirstDifferenceIsCollision(a, b, k + 1); }
  }

  lemma {:induction false} RootIsDigest(h: Hash, leaves: seq<string>)
    requires Wide(h) && Digests(leaves)
    ensures |Root(h, leaves)| == DIGEST_LENGTH
    decreases |leaves|
  {
    if |leaves| > 1 {
      NextLevelIsDigests(h, leaves);
      RootIsDigest(h, NextLevel(h, leaves));
    }
  }

  // -------------------------------------------------------------------- depth

  function Depth(n: nat): nat {
    if n <= 1 then 0 else 1 + Depth((n + 1) / 2)
  }

  function Pow2(n: nat): (p: nat)
    ensures p > 0
  {
    if n == 0 then 1 else 2 * Pow2(n - 1)
  }

  function Levels(h: Hash, leaves: seq<string>, d: nat): (level: seq<string>)
    ensures leaves != [] ==> level != []
    decreases d
  {
    if d == 0 then leaves else Levels(h, NextLevel(h, leaves), d - 1)
  }

  /** A batch of n leaves shrinks to its root in exactly ceil(log2 n) levels:
      d levels with 2^(d-1) < n <= 2^d. */
  lemma {:induction false} RootInLogLevels(h: Hash, leaves: seq<string>)
    requires leaves != []
    ensures Levels(h, leaves, Depth(|leaves|)) == [Root(h, leaves)]
    ensures |leaves| <= Pow2(Depth(|leaves|))
    ensures |leaves| > 1 ==> Pow2(Depth(|leaves|) - 1) < |leaves|
    decreases |leaves|
  {
    if |leaves| > 1 { RootInLogLevels(h, NextLevel(h, leaves)); }
  }

  // ------------------------------------------------- batches of other lengths

  function Fill(leaf: string, n: nat): seq<string> {
    seq(n, _ => leaf)
  }

  /** The digest d levels above a subtree whose leaves are all `leaf`. */
  function Doubled(h: Hash, leaf: string, d: nat): string
    decreases d
  {
    if d == 0 then leaf else Doubled(h, h(leaf + leaf), d - 1)
  }

  lemma NextLevelOfFill(h: Hash, leaf: string, n: nat)
    ensures NextLevel(h, Fill(leaf, n)) == Fill(h(leaf + leaf), (n + 1) / 2)
  {
    var above := NextLevel(h, Fill(leaf, n));
    forall k: nat | k < |above| ensures above[k] == h(leaf + leaf) {
      assert PairText(Fill(leaf, n), k) == leaf + leaf;
    }
  }

  lemma {:induction false} RootOfFill(h: Hash, leaf: string, n: nat)
    requires n > 0
    ensures Root(h, Fill(leaf, n)) == Doubled(h, leaf, Depth(n))
    decreases n
  {
    if n > 1 {
      NextLevelOfFill(h, leaf, n);
      RootOfFill(h, h(leaf + leaf), (n + 1) / 2);
    }
  }

  lemma {:induction false} DoubledTwice(h: Hash, leaf: string, c: nat, d: nat)
    ensures Doubled(h, Doubled(h, leaf, c), d) == Doubled(h, leaf, c + d)
    decreases c
  {
    if c > 0 { DoubledTwice(h, h(leaf + leaf), c - 1, d); }
  }

  lemma {:induction false} DepthMonotone(m: nat, n: nat)
    requires m <= n
    ensures Depth(m) <= Depth(n)
  {
    if m > 1 { DepthMonotone((m + 1) / 2, (n + 1) / 2); }
  }

  /** Equal lengths cannot be dropped from the binding theorem.  For every two
      lengths and every leaf there are batches of those lengths with one root,
      and no collision is involved. */
  lemma EveryTwoLengthsShareARoot(h: Hash, leaf: string, m: nat, n: nat) returns (a: seq<string>, b: seq<string>)
    requires 0 < m <= n && Wide(h) && |leaf| == DIGEST_LENGTH
    ensures |a| == m && |b| == n && Digests(a) && Digests(b)
    ensures Root(h, a) == Root(h, b)
  {
    DepthMonotone(m, n);
    var gap := Depth(n) - Depth(m);
    a, b := Fill(Doubled(h, leaf, gap), m), Fill(leaf, n);
    DoubledIsDigest(h, leaf, gap);
    RootOfFill(h, Doubled(h, leaf, gap), m);
    RootOfFill(h, leaf, n);
    DoubledTwice(h, leaf, gap, Depth(m));
  }

  lemma {:induction false} DoubledIsDigest(h: Hash, leaf: string, d: nat)
    requires Wide(h) && |leaf| == DIGEST_LENGTH
    ensures |Doubled(h, leaf, d)| == DIGEST_LENGTH
    decreases d
  {
    if d > 0 { DoubledIsDigest(h, h(leaf + leaf), d - 1); }
  }
}
