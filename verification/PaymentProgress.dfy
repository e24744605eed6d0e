/** Where progress stops, and exactly when: transfers lost between their two
    transactions, and a relay that keeps the writer lock. */
module PaymentProgress {
  import opened Hashing
  import opened Options
  import opened AuditLedger
  import opened PaymentTables
  import opened PaymentProtocol
  import opened PaymentGuarantees
  import Poller = OutboxRelay
  import Store = PaymentStore

  // --------------------------------------------------------- abandoned intents

  /** No live call is between opening and settling intent id. */
  predicate Abandoned(s: State, id: string) {
    && id in s.db.intents && s.db.intents[id].status == Authorizing
    && forall c :: c in s.conns && Unsettled(s.conns[c]) ==> s.conns[c].id != id
  }

  lemma AbandonedAtCommit(enc: Encoding, s: State, c: nat, id: string)
    requires Fits(enc, s) && Abandoned(s, id) && Enabled(s, CommitCall(c))
    ensures s.conns[c].id != id && s.work.intents[id] == s.db.intents[id] && id in s.work.intents
  {
  }

  lemma AbandonedAtMarks(enc: Encoding, s: State, c: nat)
    requires Fits(enc, s) && Enabled(s, CommitRelay(c))
    ensures s.work.intents == s.db.intents
  {
  }

  /** A call becomes unsettled only by committing its own new intent. */
  lemma NewlyUnsettled(enc: Encoding, s: State, e: Event, c: nat)
    requires Enabled(s, e) && c in Effect(enc, s, e).conns && Unsettled(Effect(enc, s, e).conns[c])
    ensures c in s.conns && s.conns[c].Call? && s.conns[c].id == Effect(enc, s, e).conns[c].id
    ensures Unsettled(s.conns[c]) || e == CommitCall(c)
  {
  }

  lemma AbandonedStep(enc: Encoding, s: State, e: Event, id: string)
    requires Fits(enc, s) && Abandoned(s, id)
    ensures Abandoned(Step(enc, s, e), id)
  {
    if Enabled(s, e) {
      if e.CommitCall? {
        AbandonedAtCommit(enc, s, e.c, id);
      } else if e.CommitRelay? {
        AbandonedAtMarks(enc, s, e.c);
      }
      var s' := Effect(enc, s, e);
      forall c | c in s'.conns && Unsettled(s'.conns[c]) ensures s'.conns[c].id != id {
        NewlyUnsettled(enc, s, e, c);
      }
    }
  }

  lemma {:induction false} AbandonedPersists(enc: Encoding, s: State, events: seq<Event>, id: string)
    requires Inv(enc, s) && Abandoned(s, id)
    ensures Abandoned(Run(enc, s, events), id)
    decreases |events|
  {
    if events != [] {
      AbandonedPersists(enc, s, events[..|events| - 1], id);
      RunKeepsInv(enc, s, events[..|events| - 1]);
      AbandonedStep(enc, Run(enc, s, events[..|events| - 1]), events[|events| - 1], id);
    }
  }

  /** An intent whose call was lost between the two transactions stays
      AUTHORIZING for ever: no retry with its key, and nothing else, settles it. */
  lemma AbandonedStaysAuthorizing(enc: Encoding, earlier: seq<Event>, later: seq<Event>, id: string)
    requires Abandoned(Run(enc, INITIAL, earlier), id)
    ensures Abandoned(Run(enc, INITIAL, earlier + later), id)
  {
    InitialInv(enc);
    RunKeepsInv(enc, INITIAL, earlier);
    RunAppend(enc, INITIAL, earlier, later);
    AbandonedPersists(enc, Run(enc, INITIAL, earlier), later, id);
  }

  // ------------------------------------------------------- live calls can settle

  predicate Settled(db: Db, id: string) {
    id in db.intents && db.intents[id].status != Authorizing
  }

  /** Some continuation settles the intent. */
  ghost predicate CanSettle(enc: Encoding, s: State, id: string) {
    exists later :: Settled(Run(enc, s, later).db, id)
  }

  lemma SettlesAfter(enc: Encoding, s: State, e: Event, id: string)
    requires CanSettle(enc, Step(enc, s, e), id)
    ensures CanSettle(enc, s, id)
  {
    var later :| Settled(Run(enc, Step(enc, s, e), later).db, id);
    RunAppend(enc, s, [e], later);
    RunOne(enc, s, e);
    assert Settled(Run(enc, s, [e] + later).db, id);
  }

  lemma RunOne(enc: Encoding, s: State, e: Event)
    ensures Run(enc, s, [e]) == Step(enc, s, e)
  {
    assert [e][..0] == [];
  }

  /** The record that would settle the intent, and whether its digest is new. */
  function OutcomeRecord(enc: Encoding, db: Db, id: string, approved: bool): Record {
    Chained(enc.h, db.ledger, id, ActionOf(Settling(approved)), enc.outcome(approved))
  }

  predicate DigestsFree(enc: Encoding, db: Db, id: string) {
    forall approved :: !DigestTaken(db.ledger, OutcomeRecord(enc, db, id, approved).currentHash)
  }

  predicate SettlingAt(s: State, c: nat) {
    CallAt(s, c) && Unsettled(s.conns[c])
  }

  /** The call goes on and nothing is committed. */
  predicate Moved(s: State, s': State, c: nat) {
    && s'.db == s.db && CallAt(s, c) && SettlingAt(s', c) && s'.conns[c].id == s.conns[c].id
  }

  lemma BankMoves(enc: Encoding, s: State, c: nat)
    requires SettlingAt(s, c) && s.conns[c].pc.Bank?
    ensures var s' := Step(enc, s, BankAnswers(c, true)); Moved(s, s', c) && s'.conns[c].pc.Write?
  {
  }

  /** Whoever has the writer lock can lose its connection. */
  lemma CrashMoves(enc: Encoding, s: State, c: nat, d: nat)
    requires Fits(enc, s) && SettlingAt(s, c) && s.conns[c].pc.Write? && s.writer == Some(d)
    ensures var s' := Step(enc, s, Crash(d)); Moved(s, s', c) && s'.conns[c].pc.Write? && s'.writer == None
  {
    assert ConnFits(s.db, true, s.sent, s.conns[d]) && ConnFits(s.db, s.writer == Some(c), s.sent, s.conns[c]);
  }

  lemma WriteMoves(enc: Encoding, s: State, c: nat)
    requires SettlingAt(s, c) && s.conns[c].pc.Write? && s.writer == None
    ensures var s' := Step(enc, s, WriteFirst(c)); Moved(s, s', c) && s'.conns[c].pc.Outbox?
  {
  }

  function LongestId(outbox: seq<OutboxEvent>): (n: nat)
    ensures forall i :: 0 <= i < |outbox| ==> |outbox[i].id| <= n
  {
    if outbox == [] then 0
    else
      var n, last := LongestId(outbox[..|outbox| - 1]), outbox[|outbox| - 1];
      assert forall i :: 0 <= i < |outbox| - 1 ==> outbox[i] == outbox[..|outbox| - 1][i];
      if |last.id| > n then |last.id| else n
  }

  /** An id that no event has yet. */
  function NewId(outbox: seq<OutboxEvent>): (id: string)
    ensures !EventIdTaken(outbox, id)
  {
    Repeat('e', LongestId(outbox) + 1)
  }

  lemma OutboxMoves(enc: Encoding, s: State, c: nat)
    requires SettlingAt(s, c) && s.conns[c].pc.Outbox?
    ensures var s' := Step(enc, s, AppendOutbox(c, NewId(s.work.outbox), ""));
            Moved(s, s', c) && s'.conns[c].pc.ReadHead?
  {
  }

  lemma HeadMoves(enc: Encoding, s: State, c: nat)
    requires SettlingAt(s, c) && s.conns[c].pc.ReadHead?
    ensures var s' := Step(enc, s, SelectHead(c)); Moved(s, s', c) && s'.conns[c].pc.Append?
  {
  }

  lemma AppendMoves(enc: Encoding, s: State, c: nat)
    requires Fits(enc, s) && SettlingAt(s, c) && s.conns[c].pc.Append? && DigestsFree(enc, s.db, s.conns[c].id)
    ensures var s' := Step(enc, s, AppendLedger(c)); Moved(s, s', c) && s'.conns[c].pc.Commit?
  {
    assert CallFits(s.db, s.writer == Some(c), s.conns[c]);
    assert OpenTransaction(enc, s.db, s.work, s.conns[c]);
    assert !DigestTaken(s.work.ledger,
      OutcomeRecord(enc, s.db, s.conns[c].id, s.conns[c].pc.phase.approved).currentHash);
  }

  lemma SettlesFromCommit(enc: Encoding, s: State, c: nat)
    requires Inv(enc, s) && SettlingAt(s, c) && s.conns[c].pc.Commit?
    ensures CanSettle(enc, s, s.conns[c].id)
  {
    PreparedCommit(enc, s, c);
    RunOne(enc, s, CommitCall(c));
    assert Settled(Run(enc, s, [CommitCall(c)]).db, s.conns[c].id);
  }

  /** How far the call is from its COMMIT. */
  function Distance(s: State, c: nat): nat
    requires SettlingAt(s, c)
  {
    match s.conns[c].pc
    case Bank => 6
    case Write(_) => if s.writer == None then 4 else 5
    case Outbox(_) => 3
    case ReadHead(_, _) => 2
    case Append(_, _, _) => 1
    case Commit(_, _, _) => 0
  }

  /** The step that brings it closer. */
  function NextStep(s: State, c: nat): Event
    requires SettlingAt(s, c)
  {
    match s.conns[c].pc
    case Bank => BankAnswers(c, true)
    case Write(_) => if s.writer == None then WriteFirst(c) else Crash(s.writer.value)
    case Outbox(_) => AppendOutbox(c, NewId(s.work.outbox), "")
    case ReadHead(_, _) => SelectHead(c)
    case Append(_, _, _) => AppendLedger(c)
    case Commit(_, _, _) => CommitCall(c)
  }

  lemma NextStepMoves(enc: Encoding, s: State, c: nat)
    requires Fits(enc, s) && SettlingAt(s, c) && !s.conns[c].pc.Commit? && DigestsFree(enc, s.db, s.conns[c].id)
    ensures Moved(s, Step(enc, s, NextStep(s, c)), c) && Distance(Step(enc, s, NextStep(s, c)), c) < Distance(s, c)
  {
    match s.conns[c].pc {
      case Bank => BankMoves(enc, s, c);
      case Write(_) => if s.writer == None { WriteMoves(enc, s, c); } else { CrashMoves(enc, s, c, s.writer.value); }
      case Outbox(_) => OutboxMoves(enc, s, c);
      case ReadHead(_, _) => HeadMoves(enc, s, c);
      case Append(_, _, _) => AppendMoves(enc, s, c);
    }
  }

  /** From wherever it is, a call between its two transactions can settle. */
  lemma {:induction false} LiveCallCanSettle(enc: Encoding, s: State, c: nat)
    requires Inv(enc, s) && SettlingAt(s, c) && DigestsFree(enc, s.db, s.conns[c].id)
    ensures CanSettle(enc, s, s.conns[c].id)
    decreases Distance(s, c)
  {
    if s.conns[c].pc.Commit? {
      SettlesFromCommit(enc, s, c);
    } else {
      NextStepMoves(enc, s, c);
      StepKeepsInv(enc, s, NextStep(s, c));
      LiveCallCanSettle(enc, Step(enc, s, NextStep(s, c)), c);
      SettlesAfter(enc, s, NextStep(s, c), s.conns[c].id);
    }
  }

  function OutcomeEvidence(enc: Encoding, db: Db, id: string, approved: bool): Evidence {
    var next := OutcomeRecord(enc, db, id, approved);
    if DigestTaken(db.ledger, next.currentHash) then ReuseEvidence(enc.h, db.ledger, next) else NoEvidence
  }

  function SettleEvidence(enc: Encoding, db: Db, id: string): Evidence {
    OrElse(OutcomeEvidence(enc, db, id, true), OutcomeEvidence(enc, db, id, false))
  }

  lemma OutcomeEvidenceSound(enc: Encoding, db: Db, id: string, approved: bool)
    requires Wide(enc.h) && Accepted(enc.h, db.ledger)
    ensures var e := OutcomeEvidence(enc, db, id, approved);
            Genuine(enc.h, e) &&
            (e.NoEvidence? <==> !DigestTaken(db.ledger, OutcomeRecord(enc, db, id, approved).currentHash))
  {
    if DigestTaken(db.ledger, OutcomeRecord(enc, db, id, approved).currentHash) {
      StoredDigestNeedsCollision(enc.h, db.ledger, id, ActionOf(Settling(approved)), enc.outcome(approved));
    }
  }

  /** Which open intents can still be settled, exactly: those with a live call
      between its two transactions.  No retry with the key, and nothing else,
      settles another one; and a live call settles from wherever it is, unless
      the record it would append exhibits a collision or a genesis preimage. */
  lemma SettlesIffLive(enc: Encoding, events: seq<Event>, id: string)
    requires Wide(enc.h)
    requires var db := Run(enc, INITIAL, events).db; id in db.intents && db.intents[id].status == Authorizing
    ensures var s := Run(enc, INITIAL, events);
            && Genuine(enc.h, SettleEvidence(enc, s.db, id))
            && (CanSettle(enc, s, id) ==> !Abandoned(s, id))
            && (SettleEvidence(enc, s.db, id).NoEvidence? ==> (CanSettle(enc, s, id) <==> !Abandoned(s, id)))
  {
    InitialInv(enc);
    RunKeepsInv(enc, INITIAL, events);
    var s := Run(enc, INITIAL, events);
    OutcomeEvidenceSound(enc, s.db, id, true);
    OutcomeEvidenceSound(enc, s.db, id, false);
    if Abandoned(s, id) {
      forall later ensures !Settled(Run(enc, s, later).db, id) { AbandonedPersists(enc, s, later, id); }
    } else if SettleEvidence(enc, s.db, id).NoEvidence? {
      var c :| c in s.conns && Unsettled(s.conns[c]) && s.conns[c].id == id;
      forall approved ensures !DigestTaken(s.db.ledger, OutcomeRecord(enc, s.db, id, approved).currentHash) {
        if approved { assert OutcomeEvidence(enc, s.db, id, true).NoEvidence?; }
      }
      LiveCallCanSettle(enc, s, c);
    }
  }

  // ----------------------------------------------------------------- a wedged relay

  /** A relay that keeps the writer lock with nothing left to select. */
  predicate Wedged(s: State, c: nat) {
    && c in s.conns && s.conns[c] == Relay(Idle) && s.writer == Some(c)
    && PendingCount(s.work.outbox) == 0
  }

  /** Without the writer lock a connection changes only itself. */
  lemma NonWriterStep(enc: Encoding, s: State, e: Event, c: nat)
    requires Fits(enc, s) && s.writer == Some(c) && Enabled(s, e) && e.c != c
    ensures var s' := Effect(enc, s, e);
            s'.db == s.db && s'.work == s.work && s'.writer == s.writer && s'.conns == s.conns[e.c := s'.conns[e.c]]
  {
    if !e.StartCall? && !e.StartRelay? {
      assert ConnFits(s.db, false, s.sent, s.conns[e.c]);
    }
  }

  lemma WedgedStep(enc: Encoding, s: State, e: Event, c: nat)
    requires Fits(enc, s) && Wedged(s, c) && e != Crash(c)
    ensures Wedged(Step(enc, s, e), c) && Step(enc, s, e).db == s.db
  {
    if Enabled(s, e) && e.c != c {
      NonWriterStep(enc, s, e, c);
    }
  }

  lemma {:induction false} WedgePersists(enc: Encoding, s: State, c: nat, events: seq<Event>)
    requires Inv(enc, s) && Wedged(s, c)
    requires forall i :: 0 <= i < |events| ==> events[i] != Crash(c)
    ensures Wedged(Run(enc, s, events), c) && Run(enc, s, events).db == s.db
    decreases |events|
  {
    if events != [] {
      WedgePersists(enc, s, c, events[..|events| - 1]);
      RunKeepsInv(enc, s, events[..|events| - 1]);
      WedgedStep(enc, Run(enc, s, events[..|events| - 1]), events[|events| - 1], c);
    }
  }

  lemma FailedCommitWedges(enc: Encoding, s: State, c: nat)
    requires Fits(enc, s) && RelayAt(s, c) && s.conns[c].rpc.CommitMarks? && PendingCount(s.work.outbox) == 0
    ensures Wedged(Step(enc, s, Fail(c)), c) && Step(enc, s, Fail(c)).db == s.db
  {
    assert ConnFits(s.db, s.writer == Some(c), s.sent, s.conns[c]);
  }

  /** The relay does not roll back.  If its COMMIT fails after it has marked
      everything it could select, it polls on with the transaction open, finds
      nothing pending, never commits, and keeps the writer lock: until that
      connection is lost no transfer and no other relay commits anything. */
  lemma FailedRelayCommitBlocksWriters(enc: Encoding, earlier: seq<Event>, c: nat, later: seq<Event>)
    requires var s := Run(enc, INITIAL, earlier);
             RelayAt(s, c) && s.conns[c].rpc.CommitMarks? && PendingCount(s.work.outbox) == 0
    requires forall i :: 0 <= i < |later| ==> later[i] != Crash(c)
    ensures var s := Run(enc, INITIAL, earlier);
            var after := Run(enc, Step(enc, s, Fail(c)), later);
            Wedged(after, c) && after.db == s.db
  {
    InitialInv(enc);
    RunKeepsInv(enc, INITIAL, earlier);
    var s := Run(enc, INITIAL, earlier);
    FailedCommitWedges(enc, s, c);
    StepKeepsInv(enc, s, Fail(c));
    WedgePersists(enc, Step(enc, s, Fail(c)), c, later);
  }

  ghost predicate NeverCrashes(events: seq<Event>, c: nat) {
    forall i :: 0 <= i < |events| ==> events[i] != Crash(c)
  }

  /** Some continuation in which the connection survives frees the writer lock. */
  ghost predicate CanFree(enc: Encoding, s: State, c: nat) {
    exists later :: NeverCrashes(later, c) && Run(enc, s, later).writer != Some(c)
  }

  lemma FreesAfter(enc: Encoding, s: State, e: Event, c: nat)
    requires e != Crash(c) && CanFree(enc, Step(enc, s, e), c)
    ensures CanFree(enc, s, c)
  {
    var later :| NeverCrashes(later, c) && Run(enc, Step(enc, s, e), later).writer != Some(c);
    RunAppend(enc, s, [e], later);
    RunOne(enc, s, e);
    assert NeverCrashes([e] + later, c) && Run(enc, s, [e] + later).writer != Some(c);
  }

  lemma FreesByCommit(enc: Encoding, s: State, c: nat)
    requires RelayAt(s, c) && s.conns[c].rpc.CommitMarks? && s.writer == Some(c)
    ensures CanFree(enc, s, c)
  {
    RunOne(enc, s, CommitRelay(c));
    assert NeverCrashes([CommitRelay(c)], c) && Run(enc, s, [CommitRelay(c)]).writer == None;
  }

  lemma {:induction false} FreesByPublishing(enc: Encoding, s: State, c: nat)
    requires RelayAt(s, c) && s.conns[c].rpc.Publish? && s.conns[c].rpc.todo != [] && s.writer == Some(c)
    ensures CanFree(enc, s, c)
    decreases |s.conns[c].rpc.todo|
  {
    var todo := s.conns[c].rpc.todo;
    var sent := Step(enc, s, Send(c));
    var marked := Step(enc, sent, MarkPublished(c));
    assert marked.writer == Some(c) &&
      marked.conns[c] == Relay(if |todo| == 1 then CommitMarks else Publish(todo[1..]));
    if |todo| == 1 { FreesByCommit(enc, marked, c); } else { FreesByPublishing(enc, marked, c); }
    FreesAfter(enc, sent, MarkPublished(c), c);
    FreesAfter(enc, s, Send(c), c);
  }

  lemma SomethingToSelect(enc: Encoding, s: State, c: nat) returns (ids: seq<string>)
    requires Inv(enc, s) && RelayAt(s, c) && s.writer == Some(c) && PendingCount(s.work.outbox) > 0
    ensures ids != [] && IsSelection(s.work.outbox, ids)
  {
    assert OpenMarks(s.db, s.work, s.sent);
    assert forall i :: 0 <= i < |s.db.outbox| ==> Marked(s.db.outbox[i], s.work.outbox[i], s.sent);
    ids := Poller.SelectFirst(s.work.outbox, BATCH);
    Poller.SelectFirstSelects(s.work.outbox, BATCH);
  }

  lemma PendingCanFree(enc: Encoding, s: State, c: nat)
    requires Inv(enc, s) && RelayAt(s, c) && s.conns[c].rpc.Idle? && s.writer == Some(c) &&
      PendingCount(s.work.outbox) > 0
    ensures CanFree(enc, s, c)
  {
    var ids := SomethingToSelect(enc, s, c);
    var selected := Step(enc, s, SelectPending(c, ids));
    assert selected.conns[c] == Relay(Publish(ids)) && selected.writer == Some(c);
    FreesByPublishing(enc, selected, c);
    FreesAfter(enc, s, SelectPending(c, ids), c);
  }

  /** Exactly when an idle relay that holds the writer lock can ever release it
      without being lost: when something is left to select. */
  lemma RelayRecoversIffPending(enc: Encoding, events: seq<Event>, c: nat)
    requires var s := Run(enc, INITIAL, events); RelayAt(s, c) && s.conns[c].rpc.Idle? && s.writer == Some(c)
    ensures var s := Run(enc, INITIAL, events); CanFree(enc, s, c) <==> PendingCount(s.work.outbox) > 0
  {
    InitialInv(enc);
    RunKeepsInv(enc, INITIAL, events);
    var s := Run(enc, INITIAL, events);
    if PendingCount(s.work.outbox) > 0 {
      PendingCanFree(enc, s, c);
    } else {
      forall later | NeverCrashes(later, c) ensures Run(enc, s, later).writer == Some(c) {
        WedgePersists(enc, s, c, later);
      }
    }
  }

  // ------------------------------------------------------------------ witness runs

  /** A transfer up to the first COMMIT. */
  function OpeningEvents(c: nat, id: string, request: Request, eventId: string, payload: string): seq<Event> {
    [StartCall(c, id, request), WriteFirst(c), AppendOutbox(c, eventId, payload), SelectHead(c), AppendLedger(c),
      CommitCall(c)]
  }

  function OpenedDb(enc: Encoding, id: string, request: Request, eventId: string, payload: string): Db {
    Db(map[id := Intent(request, Authorizing)], [OutboxEvent(eventId, id, AuthStarted, payload, false)],
       [Chained(enc.h, [], id, "INTENT_CREATED", enc.opening(request.userId, request.amount, request.target))])
  }

  lemma RunSnoc(enc: Encoding, s: State, events: seq<Event>, e: Event)
    ensures Run(enc, s, events + [e]) == Step(enc, Run(enc, s, events), e)
  {
    assert (events + [e])[..|events|] == events;
  }

  /** The same events as six steps. */
  lemma OpeningSteps(enc: Encoding, c: nat, id: string, request: Request, eventId: string, payload: string)
    ensures var started := Step(enc, INITIAL, StartCall(c, id, request));
            var w := Store.Weather(false, eventId, payload, true);
            Run(enc, INITIAL, OpeningEvents(c, id, request, eventId, payload)) ==
            Store.FromHead(enc, Store.UpToHead(enc, started, c, w), c, w)
  {
    var e := OpeningEvents(c, id, request, eventId, payload);
    RunOne(enc, INITIAL, e[0]);
    RunSnoc(enc, INITIAL, [e[0]], e[1]);
    RunSnoc(enc, INITIAL, [e[0], e[1]], e[2]);
    RunSnoc(enc, INITIAL, [e[0], e[1], e[2]], e[3]);
    RunSnoc(enc, INITIAL, [e[0], e[1], e[2], e[3]], e[4]);
    RunSnoc(enc, INITIAL, [e[0], e[1], e[2], e[3], e[4]], e[5]);
    assert [e[0]] + [e[1]] == [e[0], e[1]] && [e[0], e[1]] + [e[2]] == [e[0], e[1], e[2]];
    assert [e[0], e[1], e[2]] + [e[3]] == [e[0], e[1], e[2], e[3]];
    assert [e[0], e[1], e[2], e[3]] + [e[4]] == [e[0], e[1], e[2], e[3], e[4]];
    assert [e[0], e[1], e[2], e[3], e[4]] + [e[5]] == e;
  }

  lemma StartedCall(enc: Encoding, id: string, request: Request)
    requires BarFree(id)
    ensures Step(enc, INITIAL, StartCall(0, id, request)) ==
            State(EMPTY_DB, EMPTY_DB, None, map[0 := Call(id, request, Write(Opening))], [])
  {
  }

  lemma OpenedDbIsCommitted(enc: Encoding, id: string, request: Request, w: Store.Weather)
    requires !w.busy && w.commits
    ensures Store.Succeeds(enc, EMPTY_DB, Opening, id, request, w)
    ensures Store.Committed(enc, EMPTY_DB, Opening, id, request, w) ==
      OpenedDb(enc, id, request, w.eventId, w.eventPayload)
  {
  }

  /** Six events open any intent. */
  lemma OpeningRuns(enc: Encoding, id: string, request: Request, eventId: string, payload: string)
    requires BarFree(id)
    ensures var s := Run(enc, INITIAL, OpeningEvents(0, id, request, eventId, payload));
            && s.db == OpenedDb(enc, id, request, eventId, payload)
            && s.writer == None && s.conns == map[0 := Call(id, request, Bank)]
  {
    var w := Store.Weather(false, eventId, payload, true);
    var started := Step(enc, INITIAL, StartCall(0, id, request));
    StartedCall(enc, id, request);
    OpeningSteps(enc, 0, id, request, eventId, payload);
    OpenedDbIsCommitted(enc, id, request, w);
    Store.UninterruptedPhase(enc, started, 0, Opening, w);
    assert map[0 := Call(id, request, Write(Opening))][0 := Call(id, request, Bank)] ==
      map[0 := Call(id, request, Bank)];
  }

  /** Abandoned intents are reachable: a crash while the bank is asked. */
  lemma AbandonedIsReachable(enc: Encoding, id: string, request: Request, eventId: string, payload: string)
    requires BarFree(id)
    ensures Abandoned(Run(enc, INITIAL, OpeningEvents(0, id, request, eventId, payload) + [Crash(0)]), id)
  {
    OpeningRuns(enc, id, request, eventId, payload);
    RunSnoc(enc, INITIAL, OpeningEvents(0, id, request, eventId, payload), Crash(0));
  }

  /** The audit head does not commit to idempotency keys: transfers that differ
      in the key alone leave the same ledger. */
  lemma KeyIsNotCommitted(enc: Encoding, id: string, request: Request, otherKey: string, eventId: string,
                          payload: string)
    requires BarFree(id) && otherKey != request.key
    ensures var a := Run(enc, INITIAL, OpeningEvents(0, id, request, eventId, payload)).db;
            var b := Run(enc, INITIAL, OpeningEvents(0, id, request.(key := otherKey), eventId, payload)).db;
            && a.ledger == b.ledger && id in a.intents && id in b.intents
            && a.intents[id].request.key != b.intents[id].request.key
  {
    OpeningRuns(enc, id, request, eventId, payload);
    OpeningRuns(enc, id, request.(key := otherKey), eventId, payload);
  }

  function RelayEvents(eventId: string): seq<Event> {
    [StartRelay(1), SelectPending(1, [eventId]), Send(1), MarkPublished(1)]
  }

  lemma RelaySteps(enc: Encoding, s: State, eventId: string)
    ensures Run(enc, s, RelayEvents(eventId)) ==
            Step(enc, Step(enc, Step(enc, Step(enc, s, StartRelay(1)), SelectPending(1, [eventId])), Send(1)),
              MarkPublished(1))
  {
    var e := RelayEvents(eventId);
    RunOne(enc, s, e[0]);
    RunSnoc(enc, s, [e[0]], e[1]);
    RunSnoc(enc, s, [e[0], e[1]], e[2]);
    RunSnoc(enc, s, [e[0], e[1], e[2]], e[3]);
    assert [e[0]] + [e[1]] == [e[0], e[1]] && [e[0], e[1]] + [e[2]] == [e[0], e[1], e[2]];
    assert [e[0], e[1], e[2]] + [e[3]] == e;
  }

  /** A relay that has sent and marked the only event. */
  lemma RelayMarksOne(enc: Encoding, s: State, e: OutboxEvent)
    requires 1 !in s.conns && s.writer == None && s.db.outbox == [e] && !e.published
    ensures var s' := Run(enc, s, RelayEvents(e.id));
            RelayAt(s', 1) && s'.conns[1].rpc.CommitMarks? && PendingCount(s'.work.outbox) == 0
  {
    RelaySteps(enc, s, e.id);
    OneSelected(e);
    var s1 := Step(enc, s, StartRelay(1));
    var s2 := Step(enc, s1, SelectPending(1, [e.id]));
    assert s2.conns[1] == Relay(Publish([e.id])) && s2.writer == None && s2.db == s.db;
    var s3 := Step(enc, s2, Send(1));
    assert s3.conns[1] == Relay(Mark([e.id])) && s3.writer == None && s3.db == s.db;
    var s4 := Step(enc, s3, MarkPublished(1));
    assert s4.work.outbox == Published([e], e.id);
  }

  lemma OneSelected(e: OutboxEvent)
    requires !e.published
    ensures IsSelection([e], [e.id]) && PendingCount(Published([e], e.id)) == 0
  {
    assert [e][..0] == [];
    assert Published([e], e.id) == [e.(published := true)];
    assert [e.(published := true)][..0] == [];
    assert IsPending([e], e.id) by { assert [e][0].id == e.id; }
  }

  /** A wedged relay is reachable: one transfer, one relay, and a COMMIT of the
      relay that fails. */
  lemma WedgeIsReachable(enc: Encoding, id: string, request: Request, eventId: string, payload: string)
    requires BarFree(id)
    ensures var marked := OpeningEvents(0, id, request, eventId, payload) + RelayEvents(eventId);
            Wedged(Run(enc, INITIAL, marked + [Fail(1)]), 1)
  {
    var opening := OpeningEvents(0, id, request, eventId, payload);
    OpeningRuns(enc, id, request, eventId, payload);
    RunAppend(enc, INITIAL, opening, RelayEvents(eventId));
    RelayMarksOne(enc, Run(enc, INITIAL, opening), OutboxEvent(eventId, id, AuthStarted, payload, false));
    RunSnoc(enc, INITIAL, opening + RelayEvents(eventId), Fail(1));
    InitialInv(enc);
    RunKeepsInv(enc, INITIAL, opening + RelayEvents(eventId));
    FailedCommitWedges(enc, Run(enc, INITIAL, opening + RelayEvents(eventId)), 1);
  }
}
