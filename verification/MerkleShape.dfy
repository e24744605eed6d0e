/** The shape that odd duplication gives a Merkle tree: which leaf ends up at
    which place of the complete tree, and so which batches look the same. */
module MerkleShape {
  import opened Hashing
  import opened Merkle

  /** The leaf, of n, at place p of the complete tree of the same depth. */
  function Slot(n: nat, p: nat): (k: nat)
    requires n > 0
    ensures k < n
    decreases n
  {
    if n == 1 then 0
    else
      var k := Slot((n + 1) / 2, p / 2);
      if p % 2 == 1 && 2 * k + 1 < n then 2 * k + 1 else 2 * k
  }

  /** The leaves as the complete tree sees them. */
  function Full(s: seq<string>): (full: seq<string>)
    requires s != []
    ensures |full| == Pow2(Depth(|s|))
    ensures forall p :: 0 <= p < |full| ==> full[p] == s[Slot(|s|, p)]
  {
    seq(Pow2(Depth(|s|)), p requires 0 <= p => s[Slot(|s|, p)])
  }

  /** The node of the next level above places 2q and 2q + 1. */
  function NodeAt(n: nat, q: nat): (k: nat)
    requires n > 1
    ensures 2 * k < n
  {
    Slot((n + 1) / 2, q)
  }

  predicate PlacesFit(s: seq<string>, full: seq<string>, q: nat)
    requires |s| > 1
  {
    2 * q + 1 < |full| ==>
      var k := NodeAt(|s|, q);
      && full[2 * q] == s[2 * k]
      && full[2 * q + 1] == if 2 * k + 1 < |s| then s[2 * k + 1] else s[2 * k]
  }

  /** The leaves at places 2q and 2q + 1 are a pair of the level. */
  lemma PairOfFull(s: seq<string>, q: nat)
    requires |s| > 1
    ensures PlacesFit(s, Full(s), q)
    ensures 2 * q + 1 < |Full(s)| ==> PairText(Full(s), q) == PairText(s, NodeAt(|s|, q))
  {
    assert (2 * q) / 2 == q && (2 * q + 1) / 2 == q;
  }

  /** The same at all places at once. */
  ghost predicate FillsPlaces(s: seq<string>, full: seq<string>)
    requires |s| > 1
  {
    forall q: nat :: PlacesFit(s, full, q)
  }

  lemma FullFills(s: seq<string>)
    requires |s| > 1
    ensures FillsPlaces(s, Full(s))
  {
    forall q: nat ensures PlacesFit(s, Full(s), q) { PairOfFull(s, q); }
  }

  lemma NextOfFull(h: Hash, s: seq<string>)
    requires |s| > 1
    ensures NextLevel(h, Full(s)) == Full(NextLevel(h, s))
  {
    var above := NextLevel(h, Full(s));
    assert |above| == |Full(NextLevel(h, s))|;
    forall q: nat | q < |above| ensures above[q] == Full(NextLevel(h, s))[q] {
      PairOfFull(s, q);
      assert above[q] == h(PairText(Full(s), q));
    }
  }

  /** The root only sees the complete tree. */
  lemma {:induction false} RootOfFull(h: Hash, s: seq<string>)
    requires s != []
    ensures Root(h, Full(s)) == Root(h, s)
    decreases |s|
  {
    if |s| > 1 {
      NextOfFull(h, s);
      RootOfFull(h, NextLevel(h, s));
    } else {
      assert Full(s) == s;
    }
  }

  lemma NextOfPadded(h: Hash, s: seq<string>)
    requires |s| > 1 && |s| % 2 == 1
    ensures NextLevel(h, s + [s[|s| - 1]]) == NextLevel(h, s)
  {
    var padded := s + [s[|s| - 1]];
    assert |NextLevel(h, padded)| == |NextLevel(h, s)|;
    forall k: nat | k < |NextLevel(h, s)| ensures NextLevel(h, padded)[k] == NextLevel(h, s)[k] {
      assert PairText(padded, k) == PairText(s, k);
    }
  }

  /** A batch of odd size above 1, such as every full batch of 5, has the same
      root as the batch with its last leaf repeated. */
  lemma OddBatchPadded(h: Hash, s: seq<string>)
    requires |s| > 1 && |s| % 2 == 1
    ensures Root(h, s + [s[|s| - 1]]) == Root(h, s)
  {
    NextOfPadded(h, s);
  }

  // ---------------------------------------------------------- powers of two

  lemma {:induction false} SlotOfPower(d: nat, p: nat)
    requires p < Pow2(d)
    ensures Slot(Pow2(d), p) == p
    decreases d
  {
    if d > 0 {
      assert (Pow2(d) + 1) / 2 == Pow2(d - 1);
      SlotOfPower(d - 1, p / 2);
    }
  }

  lemma FullOfPower(s: seq<string>)
    requires s != [] && |s| == Pow2(Depth(|s|))
    ensures Full(s) == s
  {
    forall p | 0 <= p < |s| ensures Full(s)[p] == s[p] { SlotOfPower(Depth(|s|), p); }
  }

  lemma PlacesDouble(n: nat)
    requires n > 1
    ensures Pow2(Depth(n)) == 2 * Pow2(Depth((n + 1) / 2))
  {
    var d := Depth((n + 1) / 2);
    assert Depth(n) == d + 1;
    assert Pow2(d + 1) == 2 * Pow2(d);
  }

  lemma SlotUp(n: nat, q: nat)
    requires n > 1
    ensures var k := Slot((n + 1) / 2, q);
            && Slot(n, 2 * q) == 2 * k
            && Slot(n, 2 * q + 1) == if 2 * k + 1 < n then 2 * k + 1 else 2 * k
  {
    assert (2 * q) / 2 == q && (2 * q + 1) / 2 == q;
  }

  lemma {:induction false} LastSlot(n: nat)
    requires n > 0
    ensures Slot(n, Pow2(Depth(n)) - 1) == n - 1
    decreases n
  {
    if n > 1 {
      PlacesDouble(n);
      LastSlot((n + 1) / 2);
      SlotUp(n, Pow2(Depth((n + 1) / 2)) - 1);
    }
  }

  lemma OddRepeatsLast(m: nat, last: nat)
    requires m > 1 && last + 1 == Pow2(Depth(m))
    ensures 2 * last + 1 < Pow2(Depth(2 * m - 1)) && Slot(2 * m - 1, 2 * last) == Slot(2 * m - 1, 2 * last + 1)
  {
    var n := 2 * m - 1;
    assert (n + 1) / 2 == m;
    PlacesDouble(n);
    LastSlot(m);
    assert Slot(m, last) == m - 1;
    SlotUp(n, last);
  }

  lemma EvenRepeats(n: nat, p: nat, q: nat)
    requires n > 1 && n % 2 == 0 && p < q < Pow2(Depth(n / 2)) && Slot(n / 2, p) == Slot(n / 2, q)
    ensures 2 * q < Pow2(Depth(n)) && Slot(n, 2 * p) == Slot(n, 2 * q)
  {
    assert (n + 1) / 2 == n / 2;
    PlacesDouble(n);
    SlotUp(n, p);
    SlotUp(n, q);
  }

  /** In every other tree some leaf occupies two places. */
  lemma {:induction false} RepeatedSlot(n: nat) returns (p: nat, q: nat)
    requires 0 < n < Pow2(Depth(n))
    ensures p < q < Pow2(Depth(n)) && Slot(n, p) == Slot(n, q)
    decreases n
  {
    if n % 2 == 1 {
      var last := Pow2(Depth((n + 1) / 2)) - 1;
      OddRepeatsLast((n + 1) / 2, last);
      p, q := 2 * last, 2 * last + 1;
    } else {
      assert (n + 1) / 2 == n / 2;
      PlacesDouble(n);
      p, q := RepeatedSlot(n / 2);
      EvenRepeats(n, p, q);
      p, q := 2 * p, 2 * q;
    }
  }

  lemma {:induction false} DepthBounds(n: nat)
    ensures n <= Pow2(Depth(n))
  {
    if n > 1 { DepthBounds((n + 1) / 2); }
  }

  lemma RepeatedPlace(s: seq<string>) returns (p: nat, q: nat)
    requires s != [] && |s| < Pow2(Depth(|s|))
    ensures p < q < |Full(s)| && Full(s)[p] == Full(s)[q]
  {
    p, q := RepeatedSlot(|s|);
  }

  // ------------------------------------------------------------ distinct leaves

  predicate Distinct(s: seq<string>) {
    forall i, j :: 0 <= i < j < |s| ==> s[i] != s[j]
  }

  /** Every leaf has a place. */
  lemma {:induction false} EveryLeafHasPlace(n: nat, k: nat) returns (p: nat)
    requires k < n
    ensures p < Pow2(Depth(n)) && Slot(n, p) == k
    decreases n
  {
    if n == 1 {
      p := 0;
    } else {
      var q := EveryLeafHasPlace((n + 1) / 2, k / 2);
      PlacesDouble(n);
      SlotUp(n, q);
      if k == 2 * (k / 2) { p := 2 * q; } else { p := 2 * q + 1; }
    }
  }

  lemma FullHasSameLeaves(s: seq<string>)
    requires s != []
    ensures (set e | e in Full(s)) == (set e | e in s)
  {
    forall k | 0 <= k < |s| ensures s[k] in Full(s) {
      var p := EveryLeafHasPlace(|s|, k);
      assert Full(s)[p] == s[k];
    }
  }

  lemma {:induction false} DistinctSize(s: seq<string>)
    requires Distinct(s)
    ensures |set e | e in s| == |s|
  {
    if s != [] {
      var n := |s| - 1;
      DistinctSize(s[..n]);
      assert (set e | e in s) == (set e | e in s[..n]) + {s[n]};
    }
  }

  /** Distinct leaves can be read off the complete tree, and their number too. */
  lemma DistinctByFull(x: seq<string>, y: seq<string>)
    requires x != [] && y != [] && Distinct(x) && Distinct(y) && Full(x) == Full(y)
    ensures x == y
  {
    FullHasSameLeaves(x);
    FullHasSameLeaves(y);
    DistinctSize(x);
    DistinctSize(y);
    forall k | 0 <= k < |x| ensures x[k] == y[k] {
      var p := EveryLeafHasPlace(|x|, k);
      assert Full(x)[p] == x[k] && Full(y)[p] == y[k];
    }
  }
}
