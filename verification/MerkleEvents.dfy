/** What a Merkle root says about the audited events themselves, when nothing
    is known about the sizes of the batches. */
module MerkleEvents {
  import opened Hashing
  import opened Merkle
  import opened MerkleShape

  /** Serialized audit events become leaves by hashing. */
  function Leaves(h: Hash, events: seq<string>): seq<string> {
    seq(|events|, i requires 0 <= i < |events| => h(events[i]))
  }

  const PAIR_LENGTH := 2 * DIGEST_LENGTH

  /** No event is two digests in a row, so that no leaf can be taken for an
      inner node. */
  ghost predicate Recognizable(h: Hash, events: seq<string>) {
    forall i, s, t :: 0 <= i < |events| ==> events[i] != h(s) + h(t)
  }

  /** JSON objects are recognizable: they begin with a brace, and a hexadecimal
      digest does not. */
  lemma ObjectsAreRecognizable(h: Hash, events: seq<string>)
    requires Wide(h) && forall t: string :: h(t)[0] != '{'
    requires forall i :: 0 <= i < |events| ==> events[i] != [] && events[i][0] == '{'
    ensures Recognizable(h, events)
  {
    forall i, s, t | 0 <= i < |events| ensures events[i] != h(s) + h(t) {
      assert (h(s) + h(t))[0] == h(s)[0];
    }
  }

  function PairTexts(level: seq<string>): seq<string> {
    seq((|level| + 1) / 2, (k: nat) requires 2 * k < |level| => PairText(level, k))
  }

  /** Every text hashed while the root is computed, lowest level first. */
  function TreeTexts(h: Hash, level: seq<string>): seq<string>
    decreases |level|
  {
    if |level| <= 1 then [] else PairTexts(level) + TreeTexts(h, NextLevel(h, level))
  }

  function Texts(h: Hash, events: seq<string>): seq<string> {
    events + TreeTexts(h, Leaves(h, events))
  }

  /** Searches all texts hashed for two batches. */
  function Compare(h: Hash, x: seq<string>, y: seq<string>): Evidence {
    Clash(h, Texts(h, x) + Texts(h, y))
  }

  // -------------------------------------------------- leaves, once depths agree

  lemma LeavesAreDigests(h: Hash, events: seq<string>)
    requires Wide(h)
    ensures Digests(Leaves(h, events))
  {
  }

  lemma PairStartsWithLeft(level: seq<string>, k: nat)
    requires Digests(level) && 2 * k < |level|
    ensures |PairText(level, k)| == PAIR_LENGTH
    ensures PairText(level, k)[..DIGEST_LENGTH] == level[2 * k]
    ensures PairText(level, k)[DIGEST_LENGTH..] == if 2 * k + 1 < |level| then level[2 * k + 1] else level[2 * k]
  {
  }

  lemma SeparatesPart(h: Hash, texts: seq<string>, part: seq<string>)
    requires Separates(h, texts) && forall i :: 0 <= i < |part| ==> part[i] in texts
    ensures Separates(h, part)
  {
  }

  lemma NextLevelHashesPairs(h: Hash, level: seq<string>, k: nat)
    requires 2 * k < |level|
    ensures k < |NextLevel(h, level)| && NextLevel(h, level)[k] == h(PairTexts(level)[k])
    ensures PairTexts(level)[k] == PairText(level, k)
  {
  }

  // ------------------------------------------------------- depth, from the root

  lemma {:induction false} LevelsSnoc(h: Hash, leaves: seq<string>, d: nat)
    ensures Levels(h, leaves, d + 1) == NextLevel(h, Levels(h, leaves, d))
    decreases d
  {
    if d > 0 { LevelsSnoc(h, NextLevel(h, leaves), d - 1); }
  }

  /** The text hashed for the first node i levels above the leaves. */
  function SpineText(h: Hash, events: seq<string>, i: nat): string
    requires events != []
  {
    if i == 0 then events[0] else PairText(Levels(h, Leaves(h, events), i - 1), 0)
  }

  lemma {:induction false} LevelsAreDigests(h: Hash, leaves: seq<string>, d: nat)
    requires Wide(h) && Digests(leaves)
    ensures Digests(Levels(h, leaves, d))
    decreases d
  {
    if d > 0 {
      NextLevelIsDigests(h, leaves);
      LevelsAreDigests(h, NextLevel(h, leaves), d - 1);
    }
  }

  lemma SpineNode(h: Hash, events: seq<string>, i: nat)
    requires Wide(h) && events != []
    ensures Levels(h, Leaves(h, events), i)[0] == h(SpineText(h, events, i))
    ensures i > 0 ==>
      && |SpineText(h, events, i)| == PAIR_LENGTH
      && SpineText(h, events, i)[..DIGEST_LENGTH] == h(SpineText(h, events, i - 1))
  {
    if i > 0 {
      var below := Levels(h, Leaves(h, events), i - 1);
      LeavesAreDigests(h, events);
      LevelsAreDigests(h, Leaves(h, events), i - 1);
      LevelsSnoc(h, Leaves(h, events), i - 1);
      PairStartsWithLeft(below, 0);
      if i > 1 { LevelsSnoc(h, Leaves(h, events), i - 2); }
    }
  }

  lemma InConcat(t: string, a: seq<string>, b: seq<string>)
    requires t in a || t in b
    ensures t in a + b
  {
  }

  lemma SeparatesTwo(h: Hash, texts: seq<string>, s: string, t: string)
    requires Separates(h, texts) && s in texts && t in texts && h(s) == h(t)
    ensures s == t
  {
  }

  lemma {:induction false} FirstPairIsHashed(h: Hash, leaves: seq<string>, i: nat)
    requires leaves != [] && i < Depth(|leaves|)
    ensures PairText(Levels(h, leaves, i), 0) in TreeTexts(h, leaves)
    decreases i
  {
    if i > 0 {
      FirstPairIsHashed(h, NextLevel(h, leaves), i - 1);
    } else {
      assert PairTexts(leaves)[0] == PairText(leaves, 0);
    }
    var first := PairText(Levels(h, leaves, i), 0);
    InConcat(first, PairTexts(leaves), TreeTexts(h, NextLevel(h, leaves)));
  }

  lemma SpineIsListed(h: Hash, events: seq<string>, i: nat)
    requires events != [] && i < Depth(|events|)
    ensures SpineText(h, events, i + 1) in TreeTexts(h, Leaves(h, events))
  {
    FirstPairIsHashed(h, Leaves(h, events), i);
  }

  /** `all` lists every text hashed for these events. */
  ghost predicate Covers(h: Hash, all: seq<string>, events: seq<string>) {
    && (forall i :: 0 <= i < |events| ==> events[i] in all)
    && (forall t :: t in TreeTexts(h, Leaves(h, events)) ==> t in all)
  }

  lemma SpineIsHashed(h: Hash, all: seq<string>, events: seq<string>, i: nat)
    requires events != [] && i <= Depth(|events|) && Covers(h, all, events)
    ensures SpineText(h, events, i) in all
  {
    if i > 0 { SpineIsListed(h, events, i - 1); }
  }

  lemma SameSpineText(h: Hash, all: seq<string>, x: seq<string>, y: seq<string>, i: nat, j: nat)
    requires x != [] && y != [] && i <= Depth(|x|) && j <= Depth(|y|)
    requires Separates(h, all) && Covers(h, all, x) && Covers(h, all, y)
    requires h(SpineText(h, x, i)) == h(SpineText(h, y, j))
    ensures SpineText(h, x, i) == SpineText(h, y, j)
  {
    SpineIsHashed(h, all, x, i);
    SpineIsHashed(h, all, y, j);
    SeparatesTwo(h, all, SpineText(h, x, i), SpineText(h, y, j));
  }

  ghost predicate IsDigest(h: Hash, node: string) {
    exists t :: node == h(t)
  }

  ghost predicate AllDigests(h: Hash, level: seq<string>) {
    forall k :: 0 <= k < |level| ==> IsDigest(h, level[k])
  }

  lemma {:induction false} LevelsAreHashes(h: Hash, leaves: seq<string>, d: nat)
    requires AllDigests(h, leaves)
    ensures AllDigests(h, Levels(h, leaves, d))
    decreases d
  {
    if d > 0 {
      forall k: nat | k < |NextLevel(h, leaves)| ensures IsDigest(h, NextLevel(h, leaves)[k]) {
        assert NextLevel(h, leaves)[k] == h(PairText(leaves, k));
      }
      LevelsAreHashes(h, NextLevel(h, leaves), d - 1);
    }
  }

  /** Above the leaves, the text hashed for a node is two digests in a row. */
  lemma SpineIsPair(h: Hash, events: seq<string>, i: nat) returns (s: string, t: string)
    requires events != [] && i > 0
    ensures SpineText(h, events, i) == h(s) + h(t)
  {
    var leaves := Leaves(h, events);
    var below := Levels(h, leaves, i - 1);
    forall k | 0 <= k < |leaves| ensures IsDigest(h, leaves[k]) { assert leaves[k] == h(events[k]); }
    LevelsAreHashes(h, leaves, i - 1);
    s :| below[0] == h(s);
    if |below| > 1 { t :| below[1] == h(t); } else { t := s; }
  }

  lemma LeafIsNoPair(h: Hash, x: seq<string>, y: seq<string>, j: nat)
    requires x != [] && y != [] && Recognizable(h, x) && j > 0
    ensures SpineText(h, x, 0) != SpineText(h, y, j)
  {
    var s, t := SpineIsPair(h, y, j);
    assert x[0] != h(s) + h(t);
  }

  lemma SpineBelow(h: Hash, x: seq<string>, y: seq<string>, i: nat, j: nat)
    requires Wide(h) && x != [] && y != [] && Recognizable(h, x) && Recognizable(h, y)
    requires SpineText(h, x, i) == SpineText(h, y, j)
    ensures i == 0 <==> j == 0
    ensures i > 0 && j > 0 ==> h(SpineText(h, x, i - 1)) == h(SpineText(h, y, j - 1))
  {
    if i == 0 && j > 0 {
      LeafIsNoPair(h, x, y, j);
    } else if i > 0 && j == 0 {
      LeafIsNoPair(h, y, x, i);
    } else {
      SpineNode(h, x, i);
      SpineNode(h, y, j);
    }
  }

  /** Down the left edges of two trees from equal nodes: an event, whose text is
      no pair of digests, is reached in both at the same time. */
  lemma {:induction false} SpinesEndTogether(h: Hash, x: seq<string>, y: seq<string>, all: seq<string>, i: nat, j: nat)
    requires Wide(h) && x != [] && y != [] && Recognizable(h, x) && Recognizable(h, y)
    requires Separates(h, all) && Covers(h, all, x) && Covers(h, all, y)
    requires i <= Depth(|x|) && j <= Depth(|y|) && h(SpineText(h, x, i)) == h(SpineText(h, y, j))
    ensures i == j
    decreases i
  {
    SameSpineText(h, all, x, y, i, j);
    SpineBelow(h, x, y, i, j);
    if i > 0 && j > 0 {
      SpinesEndTogether(h, x, y, all, i - 1, j - 1);
    }
  }

  lemma CoversBoth(h: Hash, x: seq<string>, y: seq<string>)
    ensures var all := Texts(h, x) + Texts(h, y); Covers(h, all, x) && Covers(h, all, y)
  {
  }

  /** The root fixes the depth: two batches of events with the same root form
      trees of the same depth, or a collision is exhibited. */
  lemma SameRootSameDepth(h: Hash, x: seq<string>, y: seq<string>)
    requires Wide(h) && x != [] && y != [] && Recognizable(h, x) && Recognizable(h, y)
    requires Root(h, Leaves(h, x)) == Root(h, Leaves(h, y))
    ensures Genuine(h, Compare(h, x, y))
    ensures Compare(h, x, y).NoEvidence? ==> Depth(|x|) == Depth(|y|)
  {
    ClashSound(h, Texts(h, x) + Texts(h, y));
    if Compare(h, x, y).NoEvidence? {
      RootInLogLevels(h, Leaves(h, x));
      RootInLogLevels(h, Leaves(h, y));
      SpineNode(h, x, Depth(|x|));
      SpineNode(h, y, Depth(|y|));
      CoversBoth(h, x, y);
      SpinesEndTogether(h, x, y, Texts(h, x) + Texts(h, y), Depth(|x|), Depth(|y|));
    }
  }

  // ----------------------------------------------- what the root fixes, exactly

  lemma SameNodeSamePair(h: Hash, a: seq<string>, b: seq<string>, k: nat, l: nat)
    requires Digests(a) && Digests(b) && 2 * k < |a| && 2 * l < |b|
    requires Separates(h, PairTexts(a) + PairTexts(b))
    requires NextLevel(h, a)[k] == NextLevel(h, b)[l]
    ensures a[2 * k] == b[2 * l]
    ensures (if 2 * k + 1 < |a| then a[2 * k + 1] else a[2 * k]) == (if 2 * l + 1 < |b| then b[2 * l + 1] else b[2 * l])
  {
    NextLevelHashesPairs(h, a, k);
    NextLevelHashesPairs(h, b, l);
    var all := PairTexts(a) + PairTexts(b);
    assert all[k] == PairText(a, k) && all[|PairTexts(a)| + l] == PairText(b, l);
    PairStartsWithLeft(a, k);
    PairStartsWithLeft(b, l);
  }

  predicate SameNode(h: Hash, a: seq<string>, b: seq<string>, q: nat)
    requires |a| > 1 && |b| > 1
  {
    NextLevel(h, a)[NodeAt(|a|, q)] == NextLevel(h, b)[NodeAt(|b|, q)]
  }

  ghost predicate SameNodes(h: Hash, a: seq<string>, b: seq<string>, places: nat)
    requires |a| > 1 && |b| > 1
  {
    forall q: nat :: q < places ==> SameNode(h, a, b, q)
  }

  lemma SameNodesSamePlaces(h: Hash, a: seq<string>, b: seq<string>, s: seq<string>, t: seq<string>, places: nat)
    requires Digests(a) && Digests(b) && |a| > 1 && |b| > 1 && |s| == |t| == 2 * places
    requires Separates(h, PairTexts(a) + PairTexts(b))
    requires FillsPlaces(a, s) && FillsPlaces(b, t) && SameNodes(h, a, b, places)
    ensures s == t
  {
    forall p | 0 <= p < |s| ensures s[p] == t[p] {
      var q := p / 2;
      assert PlacesFit(a, s, q) && PlacesFit(b, t, q) && SameNode(h, a, b, q);
      SameNodeSamePair(h, a, b, NodeAt(|a|, q), NodeAt(|b|, q));
      assert p == 2 * q || p == 2 * q + 1;
    }
  }

  lemma SameFullSameNode(h: Hash, a: seq<string>, b: seq<string>, q: nat)
    requires |a| > 1 && |b| > 1 && Full(NextLevel(h, a)) == Full(NextLevel(h, b)) && q < |Full(NextLevel(h, a))|
    ensures SameNode(h, a, b, q)
  {
    assert Full(NextLevel(h, a))[q] == NextLevel(h, a)[NodeAt(|a|, q)];
    assert Full(NextLevel(h, b))[q] == NextLevel(h, b)[NodeAt(|b|, q)];
  }

  lemma SameFullSameNodes(h: Hash, a: seq<string>, b: seq<string>)
    requires |a| > 1 && |b| > 1 && Full(NextLevel(h, a)) == Full(NextLevel(h, b))
    ensures SameNodes(h, a, b, Pow2(Depth((|a| + 1) / 2)))
  {
    forall q: nat | q < Pow2(Depth((|a| + 1) / 2)) ensures SameNode(h, a, b, q) {
      SameFullSameNode(h, a, b, q);
    }
  }

  lemma {:induction false} FullBySameRoot(h: Hash, a: seq<string>, b: seq<string>)
    requires Wide(h) && a != [] && b != [] && Digests(a) && Digests(b)
    requires Depth(|a|) == Depth(|b|) && Root(h, a) == Root(h, b)
    requires Separates(h, TreeTexts(h, a) + TreeTexts(h, b))
    ensures Full(a) == Full(b)
    decreases |a|
  {
    if |a| > 1 {
      var all := TreeTexts(h, a) + TreeTexts(h, b);
      var a', b' := NextLevel(h, a), NextLevel(h, b);
      NextLevelIsDigests(h, a);
      NextLevelIsDigests(h, b);
      SeparatesPart(h, all, TreeTexts(h, a') + TreeTexts(h, b'));
      FullBySameRoot(h, a', b');
      SeparatesPart(h, all, PairTexts(a) + PairTexts(b));
      SamePlaces(h, a, b);
    }
  }

  lemma SamePlaces(h: Hash, a: seq<string>, b: seq<string>)
    requires Digests(a) && Digests(b) && |a| > 1 && |b| > 1 && Depth(|a|) == Depth(|b|)
    requires Separates(h, PairTexts(a) + PairTexts(b)) && Full(NextLevel(h, a)) == Full(NextLevel(h, b))
    ensures Full(a) == Full(b)
  {
    var places := Pow2(Depth((|a| + 1) / 2));
    PlacesDouble(|a|);
    FullFills(a);
    FullFills(b);
    SameFullSameNodes(h, a, b);
    SameNodesSamePlaces(h, a, b, Full(a), Full(b), places);
  }

  lemma LeavesOfFull(h: Hash, events: seq<string>)
    requires events != []
    ensures Leaves(h, Full(events)) == Full(Leaves(h, events))
  {
  }

  lemma SameFullSameRoot(h: Hash, x: seq<string>, y: seq<string>)
    requires x != [] && y != [] && Full(x) == Full(y)
    ensures Root(h, Leaves(h, x)) == Root(h, Leaves(h, y))
  {
    LeavesOfFull(h, x);
    LeavesOfFull(h, y);
    RootOfFull(h, Leaves(h, x));
    RootOfFull(h, Leaves(h, y));
  }

  lemma FullByLeaves(h: Hash, x: seq<string>, y: seq<string>)
    requires x != [] && y != [] && Separates(h, x + y)
    requires Full(Leaves(h, x)) == Full(Leaves(h, y))
    ensures Full(x) == Full(y)
  {
    forall p | 0 <= p < |Full(x)| ensures Full(x)[p] == Full(y)[p] {
      var i, j := Slot(|x|, p), Slot(|y|, p);
      assert Full(Leaves(h, x))[p] == h(x[i]) && Full(Leaves(h, y))[p] == h(y[j]);
      assert (x + y)[i] == x[i] && (x + y)[|x| + j] == y[j];
    }
  }

  /** Exactly which batches of events share a root: those that fill the complete
      tree in the same way, that is, that differ only in how often the odd last
      event of a level is written.  Any other equality of roots exhibits a
      collision. */
  lemma SameRootIffSameShape(h: Hash, x: seq<string>, y: seq<string>)
    requires Wide(h) && x != [] && y != [] && Recognizable(h, x) && Recognizable(h, y)
    ensures Full(x) == Full(y) ==> Root(h, Leaves(h, x)) == Root(h, Leaves(h, y))
    ensures Root(h, Leaves(h, x)) == Root(h, Leaves(h, y)) ==>
      Genuine(h, Compare(h, x, y)) && !Compare(h, x, y).ZeroPreimage?
    ensures Compare(h, x, y).NoEvidence? ==>
      (Root(h, Leaves(h, x)) == Root(h, Leaves(h, y)) <==> Full(x) == Full(y))
  {
    if Full(x) == Full(y) { SameFullSameRoot(h, x, y); }
    var all := Texts(h, x) + Texts(h, y);
    ClashSound(h, all);
    if Compare(h, x, y).NoEvidence? && Root(h, Leaves(h, x)) == Root(h, Leaves(h, y)) {
      SameRootSameDepth(h, x, y);
      LeavesAreDigests(h, x);
      LeavesAreDigests(h, y);
      SeparatesPart(h, all, TreeTexts(h, Leaves(h, x)) + TreeTexts(h, Leaves(h, y)));
      FullBySameRoot(h, Leaves(h, x), Leaves(h, y));
      SeparatesPart(h, all, x + y);
      FullByLeaves(h, x, y);
    }
  }

  /** `y` is another batch that fills the tree like `x`. */
  predicate Lookalike(x: seq<string>, y: seq<string>) {
    x != [] && y != [] && y != x && Full(y) == Full(x)
  }

  /** A batch of distinct events is fixed by its root if and only if its size is
      a power of two. */
  lemma FixedIffPowerOfTwo(x: seq<string>)
    requires x != [] && Distinct(x)
    ensures |x| == Pow2(Depth(|x|)) <==> !exists y :: Lookalike(x, y)
  {
    DepthBounds(|x|);
    if |x| == Pow2(Depth(|x|)) {
      forall y | y != [] && Full(y) == Full(x) ensures y == x { DistinctFullFixes(x, y); }
    } else {
      FullIsFull(x);
      assert Lookalike(x, Full(x));
    }
  }

  lemma {:induction false} DepthOfPower(d: nat)
    ensures Depth(Pow2(d)) == d
  {
    if d > 0 {
      DepthOfPower(d - 1);
      assert (Pow2(d) + 1) / 2 == Pow2(d - 1);
    }
  }

  lemma FullIsFull(x: seq<string>)
    requires x != []
    ensures Full(Full(x)) == Full(x)
  {
    DepthOfPower(Depth(|x|));
    FullOfPower(Full(x));
  }

  lemma DistinctFullFixes(x: seq<string>, y: seq<string>)
    requires x != [] && y != [] && Distinct(x) && |x| == Pow2(Depth(|x|)) && Full(y) == Full(x)
    ensures y == x
  {
    FullOfPower(x);
    DepthBounds(|y|);
    if |y| < Pow2(Depth(|y|)) {
      var _, _ := RepeatedPlace(y);
    } else {
      FullOfPower(y);
    }
  }

  /** Two batches that are both distinct are equal as soon as their roots are,
      whatever their sizes, or a collision is exhibited. */
  lemma SameRootSameEvents(h: Hash, x: seq<string>, y: seq<string>)
    requires Wide(h) && x != [] && y != [] && Recognizable(h, x) && Recognizable(h, y)
    requires Distinct(x) && Distinct(y)
    requires Root(h, Leaves(h, x)) == Root(h, Leaves(h, y))
    ensures Genuine(h, Compare(h, x, y))
    ensures Compare(h, x, y).NoEvidence? ==> x == y
  {
    SameRootIffSameShape(h, x, y);
    if Compare(h, x, y).NoEvidence? { DistinctByFull(x, y); }
  }
}
