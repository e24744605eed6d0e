/** `flush_batch` of core/app/stages.py: the chain of batch roots kept in
    `merkle_manager.prev_root`, posted to the SIEM witness. */
module Gateway {
  import opened Hashing
  import Merkle
  import MerkleEvents
  import MerkleShape
  import Siem

  type Signer = string -> string

  /** The text hashed by the flush that ends the history `batches`. */
  function HeadText(h: Hash, batches: seq<seq<string>>): string
    requires batches != []
    decreases |batches|, 0
  {
    HeadAfter(h, batches[..|batches| - 1]) + Merkle.Root(h, batches[|batches| - 1])
  }

  /** `prev_root` after successful, non-overlapping flushes of `batches`. */
  function HeadAfter(h: Hash, batches: seq<seq<string>>): string
    decreases |batches|, 1
  {
    if batches == [] then ZERO else h(HeadText(h, batches))
  }

  function Payload(h: Hash, sign: Signer, now: string, prevRoot: string, batch: seq<string>): Siem.Submission {
    var root := h(prevRoot + Merkle.Root(h, batch));
    Siem.Submission(root, prevRoot, now, sign(root))
  }

  /** What becomes of one POST: answered (with any status), lost on the way, or
      processed by the SIEM although the client sees an error. */
  datatype Post = Answered | NeverArrived | AnswerLost

  /** One flush and what the environment makes of it. */
  datatype Exchange = Exchange(batch: seq<string>, now: string, post: Post, dbError: bool)

  /** The gateway's head and the SIEM's table. */
  datatype World = World(prevRoot: string, table: seq<Siem.Submission>)

  /** One POST of a submission.  The SIEM judges it if it arrives; the gateway
      never looks at the status of an answer, and any answer moves its head. */
  function Deliver(v: Siem.Verifier, w: World, sub: Siem.Submission, post: Post, dbError: bool): World {
    World(
      if post == Answered then sub.rootHash else w.prevRoot,
      if post == NeverArrived then w.table else Siem.Ingest(v, w.table, sub, dbError))
  }

  function Flush(h: Hash, sign: Signer, v: Siem.Verifier, w: World, x: Exchange): World {
    Deliver(v, w, Payload(h, sign, x.now, w.prevRoot, x.batch), x.post, x.dbError)
  }

  /** What the environment makes of the POST of one WAL line. */
  datatype Outcome = Outcome(post: Post, dbError: bool)

  /** Posting WAL lines again, one after another. */
  function RetryAll(v: Siem.Verifier, w: World, lines: seq<Siem.Submission>, outcomes: nat -> Outcome): World {
    if lines == [] then w
    else
      var n := |lines| - 1;
      Deliver(v, RetryAll(v, w, lines[..n], outcomes), lines[n], outcomes(n).post, outcomes(n).dbError)
  }

  /** No line from number k on is answered. */
  predicate NoneAnswered(outcomes: nat -> Outcome, k: nat, n: nat) {
    forall i: nat :: k <= i < n ==> outcomes(i).post != Answered
  }

  /** A pass moves the head to the root of the last answered line, if any. */
  lemma {:induction false} LastAnswerIsHead(v: Siem.Verifier, w: World, lines: seq<Siem.Submission>,
                                            outcomes: nat -> Outcome)
    ensures var after := RetryAll(v, w, lines, outcomes).prevRoot;
            && (NoneAnswered(outcomes, 0, |lines|) ==> after == w.prevRoot)
            && forall k: nat | k < |lines| && outcomes(k).post == Answered && NoneAnswered(outcomes, k + 1, |lines|) ::
                 after == lines[k].rootHash
  {
    if lines != [] {
      LastAnswerIsHead(v, w, lines[..|lines| - 1], outcomes);
    }
  }

  class Gateway {
    var prevRoot: string
    var wal: seq<Siem.Submission>

    constructor ()
      ensures prevRoot == ZERO && wal == []
    {
      prevRoot, wal := ZERO, [];
    }

    /** Posts the chained root.  An answer, whatever its status, makes it the new
        head; without one the signed payload goes to the WAL and the head stays. */
    method FlushBatch(h: Hash, sign: Signer, siem: Siem.SiemService, v: Siem.Verifier, x: Exchange)
      modifies this, siem
      ensures World(prevRoot, siem.chain) == Flush(h, sign, v, World(old(prevRoot), old(siem.chain)), x)
      ensures var root := h(old(prevRoot) + Merkle.Root(h, x.batch));
              var payload := Siem.Submission(root, old(prevRoot), x.now, sign(root));
              && prevRoot == (if x.post == Answered then root else old(prevRoot))
              && wal == (if x.post == Answered then old(wal) else old(wal) + [payload])
              && siem.chain == if x.post == NeverArrived then old(siem.chain)
                               else Siem.Ingest(v, old(siem.chain), payload, x.dbError)
    {
      var currentRoot := Merkle.BuildMerkleRoot(h, x.batch);
      var chainHash := h(prevRoot + currentRoot);
      var payload := Siem.Submission(chainHash, prevRoot, x.now, sign(chainHash));
      if x.post != NeverArrived {
        var _ := siem.IngestRoot(v, payload, x.dbError);
      }
      if x.post == Answered {
        prevRoot := chainHash;
      } else {
        wal := wal + [payload];
      }
    }

    method RetryLine(siem: Siem.SiemService, v: Siem.Verifier, data: Siem.Submission, outcome: Outcome)
      modifies this`prevRoot, siem
      ensures World(prevRoot, siem.chain) ==
              Deliver(v, World(old(prevRoot), old(siem.chain)), data, outcome.post, outcome.dbError)
    {
      if outcome.post != NeverArrived {
        var _ := siem.IngestRoot(v, data, outcome.dbError);
      }
      if outcome.post == Answered {
        prevRoot := data.rootHash;
      }
    }

    /** One pass of `retry_worker` that nothing interrupts: every line is posted
        again, in order.  `kept` are the lines without an answer; they and no
        others remain, in their order. */
    method RetryPass(siem: Siem.SiemService, v: Siem.Verifier, outcomes: nat -> Outcome)
      returns (ghost kept: seq<nat>)
      modifies this, siem
      ensures World(prevRoot, siem.chain) == RetryAll(v, World(old(prevRoot), old(siem.chain)), old(wal), outcomes)
      ensures forall k: nat :: k in kept <==> k < |old(wal)| && outcomes(k).post != Answered
      ensures forall i, j :: 0 <= i < j < |kept| ==> kept[i] < kept[j]
      ensures |wal| == |kept| && forall i :: 0 <= i < |kept| ==> kept[i] < |old(wal)| && wal[i] == old(wal)[kept[i]]
    {
      var lines, remaining := wal, [];
      kept := [];
      ghost var start := World(prevRoot, siem.chain);
      var i := 0;
      while i < |lines|
        invariant 0 <= i <= |lines|
        invariant World(prevRoot, siem.chain) == RetryAll(v, start, lines[..i], outcomes)
        invariant forall k: nat :: k in kept <==> k < i && outcomes(k).post != Answered
        invariant forall j, k :: 0 <= j < k < |kept| ==> kept[j] < kept[k]
        invariant |remaining| == |kept| && forall j :: 0 <= j < |kept| ==> kept[j] < i && remaining[j] == lines[kept[j]]
      {
        assert lines[..i + 1][..i] == lines[..i];
        var data, outcome := lines[i], outcomes(i);
        RetryLine(siem, v, data, outcome);
        if outcome.post != Answered {
          remaining := remaining + [data];
          kept := kept + [i];
        }
        i := i + 1;
      }
      assert lines[..|lines|] == lines;
      wal := remaining;
    }
  }

  // ------------------------------------------------ the head binds the history

  lemma HeadIsDigest(h: Hash, batches: seq<seq<string>>)
    requires Wide(h)
    ensures |HeadAfter(h, batches)| == DIGEST_LENGTH
  {
  }

  predicate Batches(batches: seq<seq<string>>) {
    forall i :: 0 <= i < |batches| ==> Merkle.Digests(batches[i])
  }

  predicate SameSizes(a: seq<seq<string>>, b: seq<seq<string>>) {
    |a| == |b| && forall i :: 0 <= i < |a| ==> |a[i]| == |b[i]|
  }

  /** Walks two histories back from the head. */
  function Compare(h: Hash, a: seq<seq<string>>, b: seq<seq<string>>): Evidence
    requires SameSizes(a, b)
    decreases |a|
  {
    if a == [] then NoEvidence
    else if HeadText(h, a) != HeadText(h, b) then Collision(HeadText(h, a), HeadText(h, b))
    else
      var batch := Merkle.Compare(h, a[|a| - 1], b[|b| - 1]);
      if batch.NoEvidence? then Compare(h, a[..|a| - 1], b[..|b| - 1]) else batch
  }

  /** The gateway head commits to every event hash of every batch: two
      histories with the same batch sizes and the same head are equal, or
      `Compare` exhibits a collision in the chain or inside a Merkle tree. */
  lemma {:induction false} SameHeadSameHistory(h: Hash, a: seq<seq<string>>, b: seq<seq<string>>)
    requires Wide(h) && SameSizes(a, b) && Batches(a) && Batches(b)
    requires HeadAfter(h, a) == HeadAfter(h, b)
    ensures Genuine(h, Compare(h, a, b)) && !Compare(h, a, b).ZeroPreimage?
    ensures Compare(h, a, b).NoEvidence? ==> a == b
    decreases |a|
  {
    if a != [] && HeadText(h, a) == HeadText(h, b) {
      var a', b' := a[..|a| - 1], b[..|b| - 1];
      HeadIsDigest(h, a');
      HeadIsDigest(h, b');
      SplitText(HeadAfter(h, a'), Merkle.Root(h, a[|a| - 1]), HeadAfter(h, b'), Merkle.Root(h, b[|b| - 1]));
      Merkle.SameRootSameLeaves(h, a[|a| - 1], b[|b| - 1]);
      SameHeadSameHistory(h, a', b');
      assert a == a' + [a[|a| - 1]] && b == b' + [b[|b| - 1]];
    }
  }

  lemma SplitText(x: string, restX: string, y: string, restY: string)
    requires |x| == |y| && x + restX == y + restY
    ensures x == y && restX == restY
  {
    assert x == (x + restX)[..|x|] && y == (y + restY)[..|y|];
    assert restX == (x + restX)[|x|..] && restY == (y + restY)[|y|..];
  }

  // ------------------------------------------- heads of histories of any shape

  predicate SameRoots(h: Hash, a: seq<seq<string>>, b: seq<seq<string>>) {
    |a| == |b| && forall i :: 0 <= i < |a| ==> Merkle.Root(h, a[i]) == Merkle.Root(h, b[i])
  }

  /** Walks two histories of any lengths back from the head. */
  function CompareHeads(h: Hash, a: seq<seq<string>>, b: seq<seq<string>>): Evidence
    decreases |a|
  {
    if a == [] && b == [] then NoEvidence
    else if a == [] then ZeroPreimage(HeadText(h, b))
    else if b == [] then ZeroPreimage(HeadText(h, a))
    else if HeadText(h, a) != HeadText(h, b) then Collision(HeadText(h, a), HeadText(h, b))
    else CompareHeads(h, a[..|a| - 1], b[..|b| - 1])
  }

  lemma HeadSnoc(h: Hash, history: seq<seq<string>>, batch: seq<string>)
    ensures HeadAfter(h, history + [batch]) == h(HeadAfter(h, history) + Merkle.Root(h, batch))
  {
  }

  /** The head commits to the number of batches and to the root of each:
      histories of any lengths and batch sizes with the same head agree in both,
      or a collision or a preimage of the initial value is exhibited. */
  lemma {:induction false} SameHeadSameRoots(h: Hash, a: seq<seq<string>>, b: seq<seq<string>>)
    requires Wide(h) && HeadAfter(h, a) == HeadAfter(h, b)
    ensures Genuine(h, CompareHeads(h, a, b))
    ensures CompareHeads(h, a, b).NoEvidence? ==> SameRoots(h, a, b)
    decreases |a|
  {
    if a != [] && b != [] && HeadText(h, a) == HeadText(h, b) {
      var a', b' := a[..|a| - 1], b[..|b| - 1];
      HeadIsDigest(h, a');
      HeadIsDigest(h, b');
      SplitText(HeadAfter(h, a'), Merkle.Root(h, a[|a| - 1]), HeadAfter(h, b'), Merkle.Root(h, b[|b| - 1]));
      SameHeadSameRoots(h, a', b');
    }
  }

  lemma {:induction false} SameRootsSameHead(h: Hash, a: seq<seq<string>>, b: seq<seq<string>>)
    requires SameRoots(h, a, b)
    ensures HeadAfter(h, a) == HeadAfter(h, b)
    decreases |a|
  {
    if a != [] { SameRootsSameHead(h, a[..|a| - 1], b[..|b| - 1]); }
  }

  /** A head that occurs twice in a history exhibits a collision or a preimage
      of the initial value. */
  lemma HeadsRepeatOnlyOnCollision(h: Hash, batches: seq<seq<string>>, i: nat, j: nat)
    requires Wide(h) && i < j <= |batches|
    requires HeadAfter(h, batches[..i]) == HeadAfter(h, batches[..j])
    ensures var e := CompareHeads(h, batches[..i], batches[..j]); Genuine(h, e) && !e.NoEvidence?
  {
    SameHeadSameRoots(h, batches[..i], batches[..j]);
  }

  // ------------------------------------------------- events, whatever the sizes

  /** Batches of events, none of which is two digests in a row. */
  ghost predicate AllEvents(h: Hash, history: seq<seq<string>>) {
    forall i :: 0 <= i < |history| ==> history[i] != [] && MerkleEvents.Recognizable(h, history[i])
  }

  predicate AllDistinct(history: seq<seq<string>>) {
    forall i :: 0 <= i < |history| ==> MerkleShape.Distinct(history[i])
  }

  /** Equally many batches that fill their trees in the same way. */
  predicate SameShapes(x: seq<seq<string>>, y: seq<seq<string>>) {
    |x| == |y| && forall i :: 0 <= i < |x| ==> SameShape(x[i], y[i])
  }

  predicate SameShape(x: seq<string>, y: seq<string>) {
    x != [] && y != [] && MerkleShape.Full(x) == MerkleShape.Full(y)
  }

  /** The batches of leaves of a history of events. */
  function Hashed(h: Hash, history: seq<seq<string>>): seq<seq<string>> {
    seq(|history|, i requires 0 <= i < |history| => MerkleEvents.Leaves(h, history[i]))
  }

  /** Searches the trees of two histories, batch by batch. */
  function CompareTrees(h: Hash, x: seq<seq<string>>, y: seq<seq<string>>): (findings: seq<Evidence>)
    requires |x| == |y|
    ensures |findings| == |x|
    ensures forall i :: 0 <= i < |x| ==> findings[i] == MerkleEvents.Compare(h, x[i], y[i])
  {
    seq(|x|, i requires 0 <= i < |x| => MerkleEvents.Compare(h, x[i], y[i]))
  }

  function CompareEvents(h: Hash, x: seq<seq<string>>, y: seq<seq<string>>): Evidence {
    var heads := CompareHeads(h, Hashed(h, x), Hashed(h, y));
    if heads.NoEvidence? && |x| == |y| then First(CompareTrees(h, x, y)) else heads
  }

  lemma SameRootSameBatch(h: Hash, x: seq<string>, y: seq<string>)
    requires Wide(h) && x != [] && y != [] && MerkleEvents.Recognizable(h, x) && MerkleEvents.Recognizable(h, y)
    requires Merkle.Root(h, MerkleEvents.Leaves(h, x)) == Merkle.Root(h, MerkleEvents.Leaves(h, y))
    ensures Genuine(h, MerkleEvents.Compare(h, x, y))
    ensures MerkleEvents.Compare(h, x, y).NoEvidence? ==> SameShape(x, y)
  {
    MerkleEvents.SameRootIffSameShape(h, x, y);
  }

  lemma SameShapesSameHead(h: Hash, x: seq<seq<string>>, y: seq<seq<string>>)
    requires SameShapes(x, y)
    ensures HeadAfter(h, Hashed(h, x)) == HeadAfter(h, Hashed(h, y))
  {
    forall i | 0 <= i < |x| ensures Merkle.Root(h, Hashed(h, x)[i]) == Merkle.Root(h, Hashed(h, y)[i]) {
      assert SameShape(x[i], y[i]);
      MerkleEvents.SameFullSameRoot(h, x[i], y[i]);
    }
    SameRootsSameHead(h, Hashed(h, x), Hashed(h, y));
  }

  /** What the head says about the audited events, exactly.  Two histories, with
      any number of batches of any sizes, end in the same head if they have
      equally many batches which fill their trees in the same way; and if they
      end in the same head they do, or a collision or a preimage of the initial
      value is exhibited. */
  lemma SameHeadIffSameShapes(h: Hash, x: seq<seq<string>>, y: seq<seq<string>>)
    requires Wide(h) && AllEvents(h, x) && AllEvents(h, y)
    ensures SameShapes(x, y) ==> HeadAfter(h, Hashed(h, x)) == HeadAfter(h, Hashed(h, y))
    ensures HeadAfter(h, Hashed(h, x)) == HeadAfter(h, Hashed(h, y)) ==>
      && Genuine(h, CompareEvents(h, x, y))
      && (CompareEvents(h, x, y).NoEvidence? ==> SameShapes(x, y))
  {
    if SameShapes(x, y) { SameShapesSameHead(h, x, y); }
    if HeadAfter(h, Hashed(h, x)) == HeadAfter(h, Hashed(h, y)) {
      SameHeadSameRoots(h, Hashed(h, x), Hashed(h, y));
      if CompareHeads(h, Hashed(h, x), Hashed(h, y)).NoEvidence? {
        SameBatchesCompared(h, x, y);
      }
    }
  }

  lemma SameBatchesCompared(h: Hash, x: seq<seq<string>>, y: seq<seq<string>>)
    requires Wide(h) && AllEvents(h, x) && AllEvents(h, y) && SameRoots(h, Hashed(h, x), Hashed(h, y))
    ensures Genuine(h, First(CompareTrees(h, x, y)))
    ensures First(CompareTrees(h, x, y)).NoEvidence? ==> SameShapes(x, y)
  {
    forall i | 0 <= i < |x|
      ensures Genuine(h, MerkleEvents.Compare(h, x[i], y[i]))
      ensures MerkleEvents.Compare(h, x[i], y[i]).NoEvidence? ==> SameShape(x[i], y[i])
    {
      assert Merkle.Root(h, Hashed(h, x)[i]) == Merkle.Root(h, Hashed(h, y)[i]);
      SameRootSameBatch(h, x[i], y[i]);
    }
    FirstSound(h, CompareTrees(h, x, y));
  }

  /** And so histories whose batches are distinct are equal as soon as their
      heads are. */
  lemma SameHeadSameEvents(h: Hash, x: seq<seq<string>>, y: seq<seq<string>>)
    requires Wide(h) && AllEvents(h, x) && AllEvents(h, y) && AllDistinct(x) && AllDistinct(y)
    requires HeadAfter(h, Hashed(h, x)) == HeadAfter(h, Hashed(h, y))
    ensures Genuine(h, CompareEvents(h, x, y))
    ensures CompareEvents(h, x, y).NoEvidence? ==> x == y
  {
    SameHeadIffSameShapes(h, x, y);
    if SameShapes(x, y) {
      forall i | 0 <= i < |x| ensures x[i] == y[i] {
        assert SameShape(x[i], y[i]);
        MerkleShape.DistinctByFull(x[i], y[i]);
      }
    }
  }
}
