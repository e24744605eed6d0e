/** What every run of the payment protocol guarantees: any number of concurrent
    transfers and relays, in any interleaving, with busy errors, failed
    commits, rollbacks, lost connections and crashes. */
module PaymentGuarantees {
  import opened Hashing
  import opened Options
  import opened AuditLedger
  import opened PaymentTables
  import opened PaymentProtocol

  lemma InitialInv(enc: Encoding)
    ensures Inv(enc, INITIAL)
  {
  }

  lemma {:induction false} RunAppend(enc: Encoding, s: State, first: seq<Event>, second: seq<Event>)
    ensures Run(enc, s, first + second) == Run(enc, Run(enc, s, first), second)
    decreases |second|
  {
    if second == [] {
      assert first + second == first;
    } else {
      var n := |second| - 1;
      RunAppend(enc, s, first, second[..n]);
      assert (first + second)[..|first + second| - 1] == first + second[..n];
    }
  }

  /** The verifier accepts the ledger of every reachable committed database,
      and for every intent the three tables tell the same story: the status is
      AUTHORIZING exactly while the outbox holds just AUTH_STARTED and the
      ledger just INTENT_CREATED, and AUTHORIZED or FAILED exactly when the
      matching event and a later record were added.  No event and no record
      exists without its intent. */
  lemma TablesAlwaysAgree(enc: Encoding, events: seq<Event>)
    ensures var db := Run(enc, INITIAL, events).db;
            && Accepted(enc.h, db.ledger)
            && (forall i :: 0 <= i < |db.outbox| ==> db.outbox[i].aggregateId in db.intents)
            && (forall i :: 0 <= i < |db.ledger| ==> db.ledger[i].txId in db.intents)
            && forall id :: id in db.intents ==> Story(db, id)
  {
    InitialInv(enc);
    RunKeepsInv(enc, INITIAL, events);
    var db := Run(enc, INITIAL, events).db;
    forall id | id in db.intents { StatusFromEvents(db, id); }
  }

  /** The head a transfer chains its record to is never stale: from the SELECT
      to the COMMIT it is the head of the committed ledger, because the first
      write of the transaction already holds the writer lock. */
  lemma HeadNeverStale(enc: Encoding, events: seq<Event>, c: nat)
    requires var s := Run(enc, INITIAL, events); CallAt(s, c) && (s.conns[c].pc.Append? || s.conns[c].pc.Commit?)
    ensures var s := Run(enc, INITIAL, events);
            && s.writer == Some(c)
            && (s.conns[c].pc.Append? ==> s.conns[c].pc.prevHash == Head(s.db.ledger))
            && (s.conns[c].pc.Commit? ==> s.conns[c].pc.record.prevHash == Head(s.db.ledger))
  {
    InitialInv(enc);
    RunKeepsInv(enc, INITIAL, events);
    var s := Run(enc, INITIAL, events);
    assert CallFits(s.db, s.writer == Some(c), s.conns[c]);
    assert OpenTransaction(enc, s.db, s.work, s.conns[c]);
  }

  /** One idempotency key, one payment: every two calls with the key that
      return, at whatever times, return the same intent id, and report the same
      status unless one of them saw it AUTHORIZING. */
  lemma OneIntentPerKey(enc: Encoding, earlier: seq<Event>, later: seq<Event>, c: nat, d: nat)
    requires var s := Run(enc, INITIAL, earlier); CallAt(s, c) && s.conns[c].pc.Returned?
    requires var s := Run(enc, INITIAL, earlier + later); CallAt(s, d) && s.conns[d].pc.Returned?
    requires Run(enc, INITIAL, earlier).conns[c].request.key == Run(enc, INITIAL, earlier + later).conns[d].request.key
    ensures Run(enc, INITIAL, earlier).conns[c].pc.intentId == Run(enc, INITIAL, earlier + later).conns[d].pc.intentId
    ensures var x := Run(enc, INITIAL, earlier).conns[c].pc.status;
            var y := Run(enc, INITIAL, earlier + later).conns[d].pc.status;
            x == y || x == Authorizing || y == Authorizing
  {
    InitialInv(enc);
    RunKeepsInv(enc, INITIAL, earlier);
    RunAppend(enc, INITIAL, earlier, later);
    var s, t := Run(enc, INITIAL, earlier), Run(enc, INITIAL, earlier + later);
    RunKeepsInv(enc, s, later);
    assert CallFits(s.db, s.writer == Some(c), s.conns[c]);
    assert CallFits(t.db, t.writer == Some(d), t.conns[d]);
  }

  /** Rows and keys are unique and permanent, a row keeps its request, a status
      only leaves AUTHORIZING, events only become published, the ledger only
      grows. */
  lemma CommittedRowsAdvance(enc: Encoding, earlier: seq<Event>, later: seq<Event>)
    ensures Advances(Run(enc, INITIAL, earlier).db, Run(enc, INITIAL, earlier + later).db)
    ensures KeysUnique(Run(enc, INITIAL, earlier).db)
  {
    InitialInv(enc);
    RunKeepsInv(enc, INITIAL, earlier);
    RunAppend(enc, INITIAL, earlier, later);
    RunKeepsInv(enc, Run(enc, INITIAL, earlier), later);
  }

  /** The event is in the outbox and so is the payment it belongs to. */
  ghost predicate OfCommittedPayment(db: Db, id: string) {
    exists i :: 0 <= i < |db.outbox| && db.outbox[i].id == id && db.outbox[i].aggregateId in db.intents
  }

  /** At-least-once delivery.  An event committed as PUBLISHED was sent, an
      event is sent only if the transaction that created it and its payment
      row has committed, and what was sent earlier stays sent. */
  lemma OutboxDelivery(enc: Encoding, earlier: seq<Event>, later: seq<Event>)
    ensures var s := Run(enc, INITIAL, earlier + later);
            && Run(enc, INITIAL, earlier).sent <= s.sent
            && (forall i :: 0 <= i < |s.db.outbox| && s.db.outbox[i].published ==> s.db.outbox[i].id in s.sent)
            && (forall k :: 0 <= k < |s.sent| ==> OfCommittedPayment(s.db, s.sent[k]))
  {
    InitialInv(enc);
    RunKeepsInv(enc, INITIAL, earlier);
    RunAppend(enc, INITIAL, earlier, later);
    RunKeepsInv(enc, Run(enc, INITIAL, earlier), later);
    var s := Run(enc, INITIAL, earlier + later);
    forall k | 0 <= k < |s.sent| ensures OfCommittedPayment(s.db, s.sent[k]) {
      assert EventIdTaken(s.db.outbox, s.sent[k]);
      var i :| 0 <= i < |s.db.outbox| && s.db.outbox[i].id == s.sent[k];
    }
  }

  /** Two runs, of whatever transfers in whatever order, whose ledgers end in
      the same hash recorded the same payments: the same ids with the same user,
      amount, target and status; or a collision, or a preimage of the genesis value, is exhibited. */
  lemma AuditHeadCommitsToPayments(enc: Encoding, x: seq<Event>, y: seq<Event>)
    requires Wide(enc.h) && Faithful(enc)
    requires Head(Run(enc, INITIAL, x).db.ledger) == Head(Run(enc, INITIAL, y).db.ledger)
    ensures var a, b := Run(enc, INITIAL, x).db, Run(enc, INITIAL, y).db;
            var e := Compare(enc.h, a.ledger, b.ledger);
            && Genuine(enc.h, e)
            && (e.NoEvidence? ==>
                  && a.ledger == b.ledger && a.intents.Keys == b.intents.Keys
                  && forall id :: id in a.intents ==> SamePayment(a.intents[id], b.intents[id]))
  {
    InitialInv(enc);
    RunKeepsInv(enc, INITIAL, x);
    RunKeepsInv(enc, INITIAL, y);
    SameAuditHeadSamePayments(enc, Run(enc, INITIAL, x).db, Run(enc, INITIAL, y).db);
  }
}
