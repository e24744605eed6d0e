/** The hash-chained audit ledger: the record format of security/audit_chain.py
    and the independent checker of verify_chain.py. */
module AuditLedger {
  import opened Hashing

  datatype Record = Record(txId: string, action: string, payload: string,
                           prevHash: string, currentHash: string)

  /** The text that is hashed: `prev|tx|action|payload`, bracketed for parsing. */
  function HashInput(prevHash: string, txId: string, action: string, payload: string): string {
    prevHash + ("|" + (txId + ("|" + (action + ("|" + payload)))))
  }

  lemma InputIsJoined(prevHash: string, txId: string, action: string, payload: string)
    ensures HashInput(prevHash, txId, action, payload) == prevHash + "|" + txId + "|" + action + "|" + payload
  {
  }

  function RowInput(r: Record): string {
    HashInput(r.prevHash, r.txId, r.action, r.payload)
  }

  /** The hash row i has to continue from. */
  function Previous(rows: seq<Record>, i: nat): string
    requires i <= |rows|
  {
    if i == 0 then ZERO else rows[i - 1].currentHash
  }

  /** The hash the next row has to continue from. */
  function Head(rows: seq<Record>): string {
    Previous(rows, |rows|)
  }

  /** Row i passes both checks of the verifier. */
  predicate Passes(h: Hash, rows: seq<Record>, i: nat)
    requires i < |rows|
  {
    rows[i].prevHash == Previous(rows, i) && rows[i].currentHash == h(RowInput(rows[i]))
  }

  /** Continuity and integrity of every row. */
  ghost predicate Accepted(h: Hash, rows: seq<Record>) {
    forall i :: 0 <= i < |rows| ==> Passes(h, rows, i)
  }

  /** The row that continues the chain. */
  function Chained(h: Hash, rows: seq<Record>, txId: string, action: string, payload: string): Record {
    var prev := Head(rows);
    Record(txId, action, payload, prev, h(HashInput(prev, txId, action, payload)))
  }

  // ---------------------------------------------------------------- verifier

  datatype Verdict = NothingToVerify | Intact | ChainBreak(at: nat) | DataForged(at: nat)

  /** Accepts exactly the accepted ledgers; otherwise names the first bad row
      and which of the two checks that row fails. */
  method VerifyAuditChain(h: Hash, rows: seq<Record>) returns (verdict: Verdict)
    ensures verdict == NothingToVerify <==> rows == []
    ensures verdict == Intact <==> rows != [] && Accepted(h, rows)
    ensures verdict == Intact <==>
            rows != [] && forall i :: 0 <= i < |rows| ==>
              && rows[i].prevHash == (if i == 0 then ZERO else rows[i - 1].currentHash)
              && rows[i].currentHash ==
                   h(rows[i].prevHash + "|" + rows[i].txId + "|" + rows[i].action + "|" + rows[i].payload)
    ensures verdict.ChainBreak? ==>
      && verdict.at < |rows| && Accepted(h, rows[..verdict.at])
      && rows[verdict.at].prevHash != Previous(rows, verdict.at)
    ensures verdict.DataForged? ==>
      && verdict.at < |rows| && Accepted(h, rows[..verdict.at])
      && rows[verdict.at].prevHash == Previous(rows, verdict.at)
      && rows[verdict.at].currentHash != h(RowInput(rows[verdict.at]))
  {
    AcceptedMeans(h, rows);
    if rows == [] {
      return NothingToVerify;
    }
    var expectedPrevHash := ZERO;
    var i := 0;
    while i < |rows|
      invariant 0 <= i <= |rows|
      invariant expectedPrevHash == Previous(rows, i)
      invariant Accepted(h, rows[..i])
    {
      var row := rows[i];
      AcceptedSnoc(h, rows[..i], row);
      assert rows[..i + 1] == rows[..i] + [row];
      if row.prevHash != expectedPrevHash {
        AcceptedPrefix(h, rows, i + 1);
        return ChainBreak(i);
      }
      var dataToHash := row.prevHash + "|" + row.txId + "|" + row.action + "|" + row.payload;
      InputIsJoined(row.prevHash, row.txId, row.action, row.payload);
      var calculated := h(dataToHash);
      if calculated != row.currentHash {
        AcceptedPrefix(h, rows, i + 1);
        return DataForged(i);
      }
      expectedPrevHash := row.currentHash;
      i := i + 1;
    }
    assert rows[..|rows|] == rows;
    return Intact;
  }

  lemma PassesMeans(h: Hash, rows: seq<Record>, i: nat)
    requires i < |rows|
    ensures Passes(h, rows, i) <==>
            && rows[i].prevHash == (if i == 0 then ZERO else rows[i - 1].currentHash)
            && rows[i].currentHash ==
                 h(rows[i].prevHash + "|" + rows[i].txId + "|" + rows[i].action + "|" + rows[i].payload)
  {
    InputIsJoined(rows[i].prevHash, rows[i].txId, rows[i].action, rows[i].payload);
  }

  lemma AcceptedMeans(h: Hash, rows: seq<Record>)
    ensures Accepted(h, rows) <==>
            forall i :: 0 <= i < |rows| ==>
              && rows[i].prevHash == (if i == 0 then ZERO else rows[i - 1].currentHash)
              && rows[i].currentHash ==
                   h(rows[i].prevHash + "|" + rows[i].txId + "|" + rows[i].action + "|" + rows[i].payload)
  {
    if Accepted(h, rows) {
      forall i | 0 <= i < |rows|
        ensures && rows[i].prevHash == (if i == 0 then ZERO else rows[i - 1].currentHash)
                && rows[i].currentHash ==
                     h(rows[i].prevHash + "|" + rows[i].txId + "|" + rows[i].action + "|" + rows[i].payload)
      {
        PassesMeans(h, rows, i);
      }
    } else {
      var i :| 0 <= i < |rows| && !Passes(h, rows, i);
      PassesMeans(h, rows, i);
    }
  }

  lemma AcceptedSnoc(h: Hash, rows: seq<Record>, r: Record)
    ensures Accepted(h, rows + [r]) <==>
            Accepted(h, rows) && r.prevHash == Head(rows) && r.currentHash == h(RowInput(r))
  {
    var all := rows + [r];
    assert forall i :: 0 <= i < |rows| ==> (Passes(h, all, i) <==> Passes(h, rows, i));
    assert Passes(h, all, |rows|) <==> r.prevHash == Head(rows) && r.currentHash == h(RowInput(r));
  }

  /** Cutting rows off the end goes unnoticed: the verifier accepts every
      prefix of a ledger it accepts. */
  lemma AcceptedPrefix(h: Hash, rows: seq<Record>, n: nat)
    requires n <= |rows|
    ensures Accepted(h, rows) ==> Accepted(h, rows[..n])
  {
    assert forall i :: 0 <= i < n ==> (Passes(h, rows[..n], i) <==> Passes(h, rows, i));
  }

  // ---------------------------------------------------------- tamper evidence

  predicate BarFree(s: string) {
    forall i :: 0 <= i < |s| ==> s[i] != '|'
  }

  /** Transaction ids are UUIDs and actions are fixed words, so neither holds
      the separator.  The payload may. */
  predicate Clean(rows: seq<Record>) {
    forall i :: 0 <= i < |rows| ==> BarFree(rows[i].txId) && BarFree(rows[i].action)
  }

  lemma SplitAtBar(x: string, restX: string, y: string, restY: string)
    requires BarFree(x) && BarFree(y)
    requires x + ("|" + restX) == y + ("|" + restY)
    ensures x == y && restX == restY
  {
    var s, t := x + ("|" + restX), y + ("|" + restY);
    assert s[|x|] == '|' && t[|y|] == '|';
    assert |x| == |y|;
    assert x == s[..|x|] && y == t[..|y|];
    assert restX == s[|x| + 1..] && restY == t[|y| + 1..];
  }

  /** `prev|tx|action|payload` parses in one way only, although the payload and
      the previous hash may hold the separator themselves. */
  lemma UniqueParse(r: Record, q: Record)
    requires |r.prevHash| == |q.prevHash|
    requires BarFree(r.txId) && BarFree(r.action) && BarFree(q.txId) && BarFree(q.action)
    requires RowInput(r) == RowInput(q)
    ensures r.(currentHash := q.currentHash) == q
  {
    var n := |r.prevHash|;
    var s, t := RowInput(r), RowInput(q);
    assert r.prevHash == s[..n] && q.prevHash == t[..n];
    var s1, t1 := r.txId + ("|" + (r.action + ("|" + r.payload))), q.txId + ("|" + (q.action + ("|" + q.payload)));
    assert s1 == s[n + 1..] && t1 == t[n + 1..];
    SplitAtBar(r.txId, r.action + ("|" + r.payload), q.txId, q.action + ("|" + q.payload));
    SplitAtBar(r.action, r.payload, q.action, q.payload);
  }

  /** Walks two ledgers from their last rows and returns the first pair of
      hashed texts that differ. */
  function Compare(h: Hash, a: seq<Record>, b: seq<Record>): Evidence
    decreases |a| + |b|
  {
    if a == [] && b == [] then NoEvidence
    else if a == [] then ZeroPreimage(RowInput(b[|b| - 1]))
    else if b == [] then ZeroPreimage(RowInput(a[|a| - 1]))
    else
      var x, y := RowInput(a[|a| - 1]), RowInput(b[|b| - 1]);
      if x != y then Collision(x, y) else Compare(h, a[..|a| - 1], b[..|b| - 1])
  }

  lemma LastRow(h: Hash, rows: seq<Record>)
    requires Wide(h) && rows != [] && Accepted(h, rows)
    ensures var initial, last := rows[..|rows| - 1], rows[|rows| - 1];
            && rows == initial + [last] && Accepted(h, initial)
            && last.prevHash == Head(initial) && |last.prevHash| == DIGEST_LENGTH
            && last.currentHash == h(RowInput(last))
  {
    var n := |rows| - 1;
    AcceptedPrefix(h, rows, n);
    assert Passes(h, rows, n);
    assert n > 0 ==> Passes(h, rows, n - 1);
  }

  /** Two rows that hash the same text behind the same predecessor. */
  predicate SameText(r: Record, q: Record) {
    RowInput(r) == RowInput(q) && r.prevHash == q.prevHash && r.currentHash == q.currentHash
  }

  predicate SameTexts(a: seq<Record>, b: seq<Record>) {
    |a| == |b| && forall i :: 0 <= i < |a| ==> SameText(a[i], b[i])
  }

  lemma SameInputSamePrevious(r: Record, q: Record)
    requires RowInput(r) == RowInput(q) && |r.prevHash| == |q.prevHash|
    ensures r.prevHash == q.prevHash
  {
    assert r.prevHash == RowInput(r)[..|r.prevHash|] && q.prevHash == RowInput(q)[..|q.prevHash|];
  }

  /** The head commits to the hashed texts.  Whatever the rows hold, two
      ledgers of any lengths that both pass the verifier and end in the same
      hash have the same number of rows and the same text in every row, or
      `Compare` exhibits a collision or a preimage of the genesis value. */
  lemma {:induction false} SameHeadSameTexts(h: Hash, a: seq<Record>, b: seq<Record>)
    requires Wide(h) && Accepted(h, a) && Accepted(h, b) && Head(a) == Head(b)
    ensures Genuine(h, Compare(h, a, b))
    ensures Compare(h, a, b).NoEvidence? ==> SameTexts(a, b)
    decreases |a|
  {
    if a != [] { LastRow(h, a); }
    if b != [] { LastRow(h, b); }
    if a != [] && b != [] && RowInput(a[|a| - 1]) == RowInput(b[|b| - 1]) {
      SameInputSamePrevious(a[|a| - 1], b[|b| - 1]);
      SameHeadSameTexts(h, a[..|a| - 1], b[..|b| - 1]);
    }
  }

  /** Two ledgers as the program writes them (no separator in ids and actions;
      payloads may hold it) with the same head are equal row for row. */
  lemma SameHeadSameLedger(h: Hash, a: seq<Record>, b: seq<Record>)
    requires Wide(h)
    requires Accepted(h, a) && Accepted(h, b) && Clean(a) && Clean(b)
    requires Head(a) == Head(b)
    ensures Genuine(h, Compare(h, a, b))
    ensures Compare(h, a, b).NoEvidence? ==> a == b
  {
    SameHeadSameTexts(h, a, b);
    if Compare(h, a, b).NoEvidence? {
      forall i | 0 <= i < |a| ensures a[i] == b[i] {
        assert SameText(a[i], b[i]);
        UniqueParse(a[i], b[i]);
      }
    }
  }

  // ----------------------------------------- exactly when tampering is evident

  /** No field holds the separator. */
  predicate PlainRow(r: Record) {
    BarFree(r.txId) && BarFree(r.action) && BarFree(r.payload)
  }

  predicate Plain(rows: seq<Record>) {
    forall i :: 0 <= i < |rows| ==> PlainRow(rows[i])
  }

  function Bars(s: string): nat {
    if s == [] then 0 else Bars(s[..|s| - 1]) + if s[|s| - 1] == '|' then 1 else 0
  }

  lemma {:induction false} BarsConcat(s: string, t: string)
    ensures Bars(s + t) == Bars(s) + Bars(t)
    decreases |t|
  {
    if t == [] {
      assert s + t == s;
    } else {
      BarsConcat(s, t[..|t| - 1]);
      assert (s + t)[..|s + t| - 1] == s + t[..|t| - 1];
    }
  }

  lemma {:induction false} NoBars(s: string)
    ensures Bars(s) == 0 <==> BarFree(s)
  {
    if s != [] { NoBars(s[..|s| - 1]); }
  }

  /** The separators of a row's text behind its previous hash. */
  lemma BarsOfRow(r: Record)
    ensures Bars(RowInput(r)) == Bars(r.prevHash) + Bars(r.txId) + Bars(r.action) + Bars(r.payload) + 3
  {
    BarsConcat("|", r.payload);
    BarsConcat(r.action, "|" + r.payload);
    BarsConcat("|", r.action + ("|" + r.payload));
    BarsConcat(r.txId, "|" + (r.action + ("|" + r.payload)));
    BarsConcat("|", r.txId + ("|" + (r.action + ("|" + r.payload))));
    BarsConcat(r.prevHash, "|" + (r.txId + ("|" + (r.action + ("|" + r.payload)))));
    assert Bars("|") == 1;
  }

  lemma PlainTextIsPlain(r: Record, q: Record)
    requires SameText(r, q) && PlainRow(r)
    ensures PlainRow(q)
  {
    BarsOfRow(r);
    BarsOfRow(q);
    NoBars(r.txId); NoBars(r.action); NoBars(r.payload);
    NoBars(q.txId); NoBars(q.action); NoBars(q.payload);
  }

  function FirstBar(s: string): (k: nat)
    requires !BarFree(s)
    ensures k < |s| && s[k] == '|'
  {
    if s[0] == '|' then 0
    else
      assert exists i :: 0 <= i < |s[1..]| && s[1..][i] == '|' by {
        var i :| 0 <= i < |s| && s[i] == '|';
        assert s[1..][i - 1] == '|';
      }
      1 + FirstBar(s[1..])
  }

  /** The same text read with one field border moved to another separator. */
  function Reread(r: Record): Record
    requires !PlainRow(r)
  {
    if !BarFree(r.txId) then
      var k := FirstBar(r.txId);
      r.(txId := r.txId[..k], action := r.txId[k + 1..] + ("|" + r.action))
    else if !BarFree(r.action) then
      var k := FirstBar(r.action);
      r.(action := r.action[..k], payload := r.action[k + 1..] + ("|" + r.payload))
    else
      var k := FirstBar(r.payload);
      r.(action := r.action + ("|" + r.payload[..k]), payload := r.payload[k + 1..])
  }

  lemma SplitAndJoin(s: string, k: nat, rest: string)
    requires k < |s| && s[k] == '|'
    ensures s + rest == s[..k] + ("|" + (s[k + 1..] + rest))
  {
    assert s == s[..k] + ("|" + s[k + 1..]);
  }

  lemma RereadIsForged(r: Record)
    requires !PlainRow(r)
    ensures Reread(r) != r && SameText(r, Reread(r))
  {
    if !BarFree(r.txId) {
      SplitAndJoin(r.txId, FirstBar(r.txId), "|" + (r.action + ("|" + r.payload)));
    } else if !BarFree(r.action) {
      SplitAndJoin(r.action, FirstBar(r.action), "|" + r.payload);
    } else {
      var k := FirstBar(r.payload);
      SplitAndJoin(r.payload, k, []);
      assert r.payload == r.payload[..k] + ("|" + r.payload[k + 1..]);
      assert r.action + ("|" + r.payload) == Reread(r).action + ("|" + Reread(r).payload);
      assert Reread(r).payload != r.payload;
    }
  }

  lemma RowReplaced(h: Hash, a: seq<Record>, i: nat, q: Record)
    requires i < |a| && Accepted(h, a) && SameText(a[i], q)
    ensures Accepted(h, a[i := q]) && Head(a[i := q]) == Head(a)
    ensures SameTexts(a, a[i := q])
  {
    var b := a[i := q];
    forall k | 0 <= k < |b| ensures Passes(h, b, k) && Previous(b, k) == Previous(a, k) {
      assert Passes(h, a, k);
    }
    assert Previous(b, |b|) == Previous(a, |a|);
  }

  lemma {:induction false} SameTextsNoEvidence(h: Hash, a: seq<Record>, b: seq<Record>)
    requires SameTexts(a, b)
    ensures Compare(h, a, b).NoEvidence?
    decreases |a|
  {
    if a != [] {
      assert SameText(a[|a| - 1], b[|b| - 1]);
      SameTextsNoEvidence(h, a[..|a| - 1], b[..|b| - 1]);
    }
  }

  /** `b` is another ledger that passes for `a`: the verifier accepts it, it
      ends in the same hash, and not even a collision is involved. */
  ghost predicate Forgery(h: Hash, a: seq<Record>, b: seq<Record>) {
    Accepted(h, b) && Head(b) == Head(a) && b != a && Compare(h, a, b).NoEvidence?
  }

  /** Tamper evidence, exactly.  Let the verifier accept `a`.  Whatever else it
      accepts with the same head comes with genuine evidence; and a different
      ledger without evidence exists if and only if some field of `a` holds the
      separator. */
  lemma TamperEvidentIffPlain(h: Hash, a: seq<Record>)
    requires Wide(h) && Accepted(h, a)
    ensures forall b :: Accepted(h, b) && Head(b) == Head(a) ==> Genuine(h, Compare(h, a, b))
    ensures Plain(a) <==> !exists b :: Forgery(h, a, b)
  {
    forall b | Accepted(h, b) && Head(b) == Head(a) ensures Genuine(h, Compare(h, a, b)) {
      SameHeadSameTexts(h, a, b);
    }
    if Plain(a) {
      forall b ensures !Forgery(h, a, b) { PlainLedgerIsUnique(h, a, b); }
    } else {
      var i :| 0 <= i < |a| && !PlainRow(a[i]);
      RereadIsForged(a[i]);
      RowReplaced(h, a, i, Reread(a[i]));
      SameTextsNoEvidence(h, a, a[i := Reread(a[i])]);
      assert Forgery(h, a, a[i := Reread(a[i])]);
    }
  }

  lemma PlainLedgerIsUnique(h: Hash, a: seq<Record>, b: seq<Record>)
    requires Wide(h) && Accepted(h, a) && Plain(a)
    ensures !Forgery(h, a, b)
  {
    if Forgery(h, a, b) {
      SameHeadSameTexts(h, a, b);
      forall i | 0 <= i < |b| ensures PlainRow(b[i]) {
        assert SameText(a[i], b[i]);
        PlainTextIsPlain(a[i], b[i]);
      }
      SameHeadSameLedger(h, a, b);
    }
  }

  /** The user id of a transfer is free text, so this does happen: the first
      record of a user called `x|y`, and what it can be turned into. */
  lemma SeparatorInUserId(h: Hash, txId: string)
    requires Wide(h)
    ensures var before, after := "{\"amount\":1.0,\"target\":\"T\",\"user\":\"x", "y\"}";
            var a := [Chained(h, [], txId, "INTENT_CREATED", before + ("|" + after))];
            var forged := a[0].(action := "INTENT_CREATED" + ("|" + before), payload := after);
            Accepted(h, a) && Forgery(h, a, [forged])
  {
    var before, after := "{\"amount\":1.0,\"target\":\"T\",\"user\":\"x", "y\"}";
    BorderMoves(h, txId, "INTENT_CREATED", before, after);
  }

  lemma BorderMoves(h: Hash, txId: string, action: string, before: string, after: string)
    requires Wide(h)
    ensures var a := [Chained(h, [], txId, action, before + ("|" + after))];
            var forged := a[0].(action := action + ("|" + before), payload := after);
            Accepted(h, a) && Forgery(h, a, [forged])
  {
    var r := Chained(h, [], txId, action, before + ("|" + after));
    var forged := r.(action := action + ("|" + before), payload := after);
    assert action + ("|" + (before + ("|" + after))) == (action + ("|" + before)) + ("|" + after);
    assert |forged.payload| != |r.payload|;
    assert [] + [r] == [r] && Accepted(h, []);
    AcceptedSnoc(h, [], r);
    RowReplaced(h, [r], 0, forged);
    assert [r][0 := forged] == [forged];
    SameTextsNoEvidence(h, [r], [forged]);
  }

  // ------------------------------------------------ when a digest can come again

  predicate DigestTaken(rows: seq<Record>, digest: string) {
    exists i :: 0 <= i < |rows| && rows[i].currentHash == digest
  }

  function IndexOf(rows: seq<Record>, digest: string): (i: nat)
    requires DigestTaken(rows, digest)
    ensures i < |rows| && rows[i].currentHash == digest
  {
    if rows[|rows| - 1].currentHash == digest then |rows| - 1 else IndexOf(rows[..|rows| - 1], digest)
  }

  /** What a next record whose digest is already stored exhibits. */
  function ReuseEvidence(h: Hash, rows: seq<Record>, next: Record): Evidence
    requires DigestTaken(rows, next.currentHash)
  {
    Compare(h, rows[..IndexOf(rows, next.currentHash) + 1], rows + [next])
  }

  /** UNIQUE current_hash never refuses an honest append: if the digest of the
      next record is already stored, the stored row and the new one exhibit a
      collision or a preimage of the genesis value. */
  lemma StoredDigestNeedsCollision(h: Hash, rows: seq<Record>, txId: string, action: string, payload: string)
    requires Wide(h) && Accepted(h, rows)
    requires DigestTaken(rows, Chained(h, rows, txId, action, payload).currentHash)
    ensures var e := ReuseEvidence(h, rows, Chained(h, rows, txId, action, payload));
            Genuine(h, e) && !e.NoEvidence?
  {
    var next := Chained(h, rows, txId, action, payload);
    var i := IndexOf(rows, next.currentHash);
    AcceptedSnoc(h, rows, next);
    AcceptedPrefix(h, rows, i + 1);
    SameHeadSameTexts(h, rows[..i + 1], rows + [next]);
  }
}
