/** `authorize_transfer` itself, statement by statement on tables that are
    updated in place: BEGIN, the writes, COMMIT or ROLLBACK, the lookup of an
    existing intent, and the second transaction after the bank's answer. */
module PaymentStore {
  import opened Hashing
  import opened Options
  import opened AuditLedger
  import opened PaymentTables
  import P = PaymentProtocol

  datatype Outcome = Returned(intentId: string, status: Status) | Raised

  /** What the database does to one transaction: busy at the first write or
      not, the UUID of the event, the serialized payloads, and whether COMMIT
      succeeds. */
  datatype Weather = Weather(busy: bool, eventId: string, eventPayload: string, commits: bool)

  function NewEvent(phase: Phase, id: string, w: Weather): OutboxEvent {
    OutboxEvent(w.eventId, id, KindOf(phase), w.eventPayload, false)
  }

  function NewRecord(enc: Encoding, db: Db, phase: Phase, id: string, request: Request): Record {
    Chained(enc.h, db.ledger, id, ActionOf(phase), AuditPayload(enc, phase, request))
  }

  /** The transaction commits: the writer lock was free, no constraint of the
      three tables is violated, and COMMIT succeeds. */
  predicate Succeeds(enc: Encoding, db: Db, phase: Phase, id: string, request: Request, w: Weather) {
    && !w.busy && w.commits
    && (phase.Opening? ==> CanInsert(db, id, request.key))
    && !EventIdTaken(db.outbox, w.eventId)
    && !DigestTaken(db.ledger, NewRecord(enc, db, phase, id, request).currentHash)
  }

  function Committed(enc: Encoding, db: Db, phase: Phase, id: string, request: Request, w: Weather): Db {
    Transact(db, phase, id, request, NewEvent(phase, id, w), NewRecord(enc, db, phase, id, request))
  }

  class TransactionManager {
    var db: Db      // committed tables
    var work: Db    // what the open transaction sees

    constructor ()
      ensures db == EMPTY_DB
    {
      db, work := EMPTY_DB, EMPTY_DB;
    }

    method AppendOutbox(id: string, phase: Phase, eventId: string, payload: string) returns (ok: bool)
      modifies this`work
      ensures ok <==> !EventIdTaken(old(work).outbox, eventId)
      ensures var event := OutboxEvent(eventId, id, KindOf(phase), payload, false);
              work == if ok then AddEvent(old(work), event) else old(work)
    {
      if exists i :: 0 <= i < |work.outbox| && work.outbox[i].id == eventId {
        return false;
      }
      work := work.(outbox := work.outbox + [OutboxEvent(eventId, id, KindOf(phase), payload, false)]);
      return true;
    }

    /** `append_record`: reads the head, hashes, inserts.  UNIQUE current_hash
        makes the insert fail when that digest is already stored. */
    method AppendRecord(h: Hash, id: string, action: string, payload: string) returns (digest: Option<string>)
      modifies this`work
      ensures var r := Chained(h, old(work).ledger, id, action, payload);
              && (digest.None? <==> DigestTaken(old(work).ledger, r.currentHash))
              && work == (if digest.Some? then AddRecord(old(work), r) else old(work))
      ensures digest.Some? ==>
        var rows := old(work).ledger;
        var prev := if rows == [] then ZERO else rows[|rows| - 1].currentHash;
        && digest.value == h(prev + "|" + id + "|" + action + "|" + payload)
        && work.ledger == rows + [Record(id, action, payload, prev, digest.value)]
      ensures Accepted(h, old(work).ledger) ==> Accepted(h, work.ledger)
    {
      var prevHash := if |work.ledger| > 0 then work.ledger[|work.ledger| - 1].currentHash else ZERO;
      var dataToHash := prevHash + "|" + id + "|" + action + "|" + payload;
      InputIsJoined(prevHash, id, action, payload);
      var currentHash := h(dataToHash);
      if exists i :: 0 <= i < |work.ledger| && work.ledger[i].currentHash == currentHash {
        return None;
      }
      AcceptedSnoc(h, work.ledger, Record(id, action, payload, prevHash, currentHash));
      work := work.(ledger := work.ledger + [Record(id, action, payload, prevHash, currentHash)]);
      return Some(currentHash);
    }

    /** One BEGIN ... COMMIT block.  It takes effect as a whole or not at all. */
    method Transaction(enc: Encoding, phase: Phase, id: string, request: Request, w: Weather) returns (ok: bool)
      requires phase.Settling? ==> Ready(db, phase, id, request)
      modifies this
      ensures ok <==> Succeeds(enc, old(db), phase, id, request, w)
      ensures db == if ok then Committed(enc, old(db), phase, id, request, w) else old(db)
    {
      work := db;
      ok := !w.busy && (phase.Settling? || !ConstraintFails(id, request.key));
      if ok {
        work := work.(intents := work.intents[id := Intent(request, StatusAfter(phase))]);
        ok := AppendOutbox(id, phase, w.eventId, w.eventPayload);
      }
      if ok {
        var digest := AppendRecord(enc.h, id, ActionOf(phase), AuditPayload(enc, phase, request));
        ok := digest.Some?;
      }
      if ok && w.commits {
        db := work;
      } else {
        ok := false;
      }
    }

    predicate ConstraintFails(id: string, key: string)
      reads this
      ensures ConstraintFails(id, key) <==> !CanInsert(work, id, key)
    {
      id in work.intents || exists other :: other in work.intents && work.intents[other].request.key == key
    }

    method FindByKey(key: string) returns (found: Option<string>)
      ensures found.None? <==> !KeyTaken(db, key)
      ensures found.Some? ==> found.value in db.intents && db.intents[found.value].request.key == key
    {
      if exists id :: id in db.intents && db.intents[id].request.key == key {
        var id :| id in db.intents && db.intents[id].request.key == key;
        return Some(id);
      }
      return None;
    }

    /** One call that no other transaction interleaves with.  A known key gives
        back the existing payment and changes nothing.  With a new key the first
        transaction is undisturbed if it finds the database free, its ids and its
        digest unused, and COMMIT working; so is the second, next to the rows of
        the first.  The call raises without effect if the first is disturbed,
        raises and leaves its intent AUTHORIZING if the second is, and otherwise
        returns its own id with the bank's verdict, after exactly both. */
    method AuthorizeTransfer(enc: Encoding, intentId: string, request: Request, first: Weather, approved: bool,
                             second: Weather)
      returns (outcome: Outcome)
      requires Consistent(enc, db) && BarFree(intentId)
      modifies this
      ensures Consistent(enc, db)
      ensures old(KeyTaken(db, request.key)) ==>
        && db == old(db) && outcome.Returned? && outcome.intentId in db.intents
        && db.intents[outcome.intentId].status == outcome.status
        && db.intents[outcome.intentId].request.key == request.key
      ensures !old(KeyTaken(db, request.key)) ==>
        var intents, outbox, ledger := old(db.intents), old(db.outbox), old(db.ledger);
        var created := Chained(enc.h, ledger, intentId, "INTENT_CREATED",
                              enc.opening(request.userId, request.amount, request.target));
        var settled := Chained(enc.h, ledger + [created], intentId, if approved then "AUTH_APPROVED" else "AUTH_FAILED",
                               enc.outcome(approved));
        var started := OutboxEvent(first.eventId, intentId, AuthStarted, first.eventPayload, false);
        var answered := OutboxEvent(second.eventId, intentId, if approved then AuthApproved else AuthFailed,
                                    second.eventPayload, false);
        var verdict := if approved then Authorized else Failed;
        if first.busy || !first.commits || intentId in intents || EventIdTaken(outbox, first.eventId) ||
          DigestTaken(ledger, created.currentHash)
        then
          outcome == Raised && db == old(db)
        else if second.busy || !second.commits || EventIdTaken(outbox, second.eventId) ||
          second.eventId == first.eventId || DigestTaken(ledger, settled.currentHash) ||
          settled.currentHash == created.currentHash
        then
          && outcome == Raised
          && db == Db(intents[intentId := Intent(request, Authorizing)], outbox + [started], ledger + [created])
        else
          && outcome == Returned(intentId, verdict)
          && db == Db(intents[intentId := Intent(request, verdict)], outbox + [started] + [answered],
                      ledger + [created] + [settled])
    {
      CommittedKeepsConsistent(enc, db, Opening, intentId, request, first);
      var ok := Transaction(enc, Opening, intentId, request, first);
      if !ok {
        var existing := FindByKey(request.key);
        match existing {
          case Some(id) => return Returned(id, db.intents[id].status);
          case None => return Raised;
        }
      }
      BesideFirst(old(db), db, intentId, request);
      CommittedKeepsConsistent(enc, db, Settling(approved), intentId, request, second);
      ok := Transaction(enc, Settling(approved), intentId, request, second);
      if !ok {
        return Raised;
      }
      return Returned(intentId, if approved then Authorized else Failed);
    }
  }

  /** What the second transaction finds taken after the first. */
  lemma BesideFirst(before: Db, after: Db, id: string, request: Request)
    requires |after.outbox| > 0 && after.outbox[..|after.outbox| - 1] == before.outbox
    requires |after.ledger| > 0 && after.ledger[..|after.ledger| - 1] == before.ledger
    requires after.intents == before.intents[id := Intent(request, Authorizing)]
    ensures forall eventId :: EventIdTaken(after.outbox, eventId) <==>
              EventIdTaken(before.outbox, eventId) || eventId == after.outbox[|after.outbox| - 1].id
    ensures forall digest :: DigestTaken(after.ledger, digest) <==>
              DigestTaken(before.ledger, digest) || digest == after.ledger[|after.ledger| - 1].currentHash
    ensures forall status ::
      after.intents[id := Intent(request, status)] == before.intents[id := Intent(request, status)]
  {
  }

  /** A committed transaction keeps the tables consistent. */
  lemma CommittedKeepsConsistent(enc: Encoding, before: Db, phase: Phase, id: string, request: Request, w: Weather)
    requires Consistent(enc, before) && BarFree(id)
    ensures Ready(before, phase, id, request) && Succeeds(enc, before, phase, id, request, w) ==>
      Consistent(enc, Committed(enc, before, phase, id, request, w))
  {
    if Ready(before, phase, id, request) && Succeeds(enc, before, phase, id, request, w) {
      TransactKeepsConsistent(enc, before, phase, id, request, NewEvent(phase, id, w),
        NewRecord(enc, before, phase, id, request));
    }
  }

  // ------------------------------------------------ agreement with the protocol

  /** A phase up to the SELECT of the head, run without interruption. */
  function UpToHead(enc: Encoding, s: P.State, c: nat, w: Weather): P.State {
    P.Step(enc, P.Step(enc, P.Step(enc, s, P.WriteFirst(c)), P.AppendOutbox(c, w.eventId, w.eventPayload)),
      P.SelectHead(c))
  }

  /** The rest of it. */
  function FromHead(enc: Encoding, s: P.State, c: nat, w: Weather): P.State {
    P.Step(enc, P.Step(enc, s, P.AppendLedger(c)), P.CommitCall(c))
  }

  /** The first three statements: row and event are written, the head is read. */
  lemma HeadRead(enc: Encoding, s: P.State, c: nat, phase: Phase, w: Weather)
    requires P.CallAt(s, c) && s.conns[c].pc == P.Write(phase) && s.writer == None
    requires Succeeds(enc, s.db, phase, s.conns[c].id, s.conns[c].request, w)
    ensures var id, request := s.conns[c].id, s.conns[c].request;
            var event := NewEvent(phase, id, w);
            UpToHead(enc, s, c, w) ==
            P.State(s.db, AddEvent(WriteIntent(s.db, phase, id, request), event), Some(c),
                    s.conns[c := P.Call(id, request, P.Append(phase, event, Head(s.db.ledger)))], s.sent)
  {
    var id, request := s.conns[c].id, s.conns[c].request;
    var s1 := P.Step(enc, s, P.WriteFirst(c));
    assert s1 == P.State(s.db, WriteIntent(s.db, phase, id, request), Some(c),
                         s.conns[c := P.Call(id, request, P.Outbox(phase))], s.sent);
    var s2 := P.Step(enc, s1, P.AppendOutbox(c, w.eventId, w.eventPayload));
    assert s2.conns == s.conns[c := P.Call(id, request, P.ReadHead(phase, NewEvent(phase, id, w)))];
  }

  lemma AppendedAndCommitted(enc: Encoding, s: P.State, c: nat, phase: Phase, event: OutboxEvent, w: Weather)
    requires P.CallAt(s, c) && s.conns[c].pc == P.Append(phase, event, Head(s.work.ledger)) && s.writer == Some(c)
    requires !DigestTaken(s.work.ledger, NewRecord(enc, s.work, phase, s.conns[c].id, s.conns[c].request).currentHash)
    ensures var id, request := s.conns[c].id, s.conns[c].request;
            var after := FromHead(enc, s, c, w);
            && after.db == AddRecord(s.work, NewRecord(enc, s.work, phase, id, request))
            && after.writer == None
            && after.conns == s.conns[c := P.Call(id, request,
                 if phase.Opening? then P.Bank else P.Returned(id, StatusAfter(phase)))]
  {
  }

  /** A phase that the concurrent protocol runs without interruption commits
      what `Transaction` commits, and moves the call to the bank, or to its
      answer. */
  lemma UninterruptedPhase(enc: Encoding, s: P.State, c: nat, phase: Phase, w: Weather)
    requires P.CallAt(s, c) && s.conns[c].pc == P.Write(phase) && s.writer == None
    requires Succeeds(enc, s.db, phase, s.conns[c].id, s.conns[c].request, w)
    ensures var id, request := s.conns[c].id, s.conns[c].request;
            var after := FromHead(enc, UpToHead(enc, s, c, w), c, w);
            && after.db == Committed(enc, s.db, phase, id, request, w)
            && after.writer == None
            && after.conns == s.conns[c := P.Call(id, request,
                 if phase.Opening? then P.Bank else P.Returned(id, StatusAfter(phase)))]
  {
    HeadRead(enc, s, c, phase, w);
    AppendedAndCommitted(enc, UpToHead(enc, s, c, w), c, phase, NewEvent(phase, s.conns[c].id, w), w);
  }

  /** The first write, which may find the database busy. */
  function FirstWrite(enc: Encoding, s: P.State, c: nat, w: Weather): P.State {
    P.Step(enc, s, if w.busy then P.Fail(c) else P.WriteFirst(c))
  }

  /** The other statements. */
  function Statements(enc: Encoding, s: P.State, c: nat, w: Weather): P.State {
    P.Step(enc, P.Step(enc, P.Step(enc, s, P.AppendOutbox(c, w.eventId, w.eventPayload)), P.SelectHead(c)),
      P.AppendLedger(c))
  }

  /** COMMIT, which may fail, and ROLLBACK if there was an exception. */
  function Ending(enc: Encoding, s: P.State, c: nat, w: Weather): P.State {
    var fails := P.CallAt(s, c) && s.conns[c].pc.Commit? && !w.commits;
    P.Step(enc, P.Step(enc, s, if fails then P.Fail(c) else P.CommitCall(c)), P.RollbackCall(c))
  }

  /** A phase that nobody else interleaves with. */
  function Alone(enc: Encoding, s: P.State, c: nat, w: Weather): P.State {
    Ending(enc, Statements(enc, FirstWrite(enc, s, c, w), c, w), c, w)
  }

  /** An exception has put the call in front of its ROLLBACK. */
  predicate RollingBack(s: P.State, db: Db, c: nat, phase: Phase) {
    P.CallAt(s, c) && s.conns[c].pc == P.Rollback(phase) && s.db == db && P.MayWrite(s, c)
  }

  predicate RolledBack(s: P.State, db: Db, c: nat, phase: Phase) {
    && P.CallAt(s, c) && s.writer == None && s.db == db
    && s.conns[c].pc == if phase.Opening? then P.Lookup else P.Raised
  }

  /** The other statements are skipped, and ROLLBACK frees the database. */
  lemma ExceptionRollsBack(enc: Encoding, s: P.State, db: Db, c: nat, phase: Phase, w: Weather)
    requires RollingBack(s, db, c, phase)
    ensures Statements(enc, s, c, w) == s && RolledBack(Ending(enc, s, c, w), db, c, phase)
  {
  }

  lemma FirstWriteFails(enc: Encoding, s: P.State, c: nat, phase: Phase, w: Weather)
    requires P.CallAt(s, c) && s.conns[c].pc == P.Write(phase) && s.writer == None
    requires w.busy || (phase.Opening? && !CanInsert(s.db, s.conns[c].id, s.conns[c].request.key))
    ensures RollingBack(FirstWrite(enc, s, c, w), s.db, c, phase)
  {
  }

  lemma StatementFails(enc: Encoding, s: P.State, c: nat, phase: Phase, w: Weather)
    requires P.CallAt(s, c) && s.conns[c].pc == P.Write(phase) && s.writer == None
    requires !w.busy && (phase.Opening? ==> CanInsert(s.db, s.conns[c].id, s.conns[c].request.key))
    requires !Succeeds(enc, s.db, phase, s.conns[c].id, s.conns[c].request, w.(commits := true))
    ensures RollingBack(Statements(enc, P.Step(enc, s, P.WriteFirst(c)), c, w), s.db, c, phase)
  {
    var wrote := P.Step(enc, s, P.WriteFirst(c));
    assert wrote.conns[c].pc == P.Outbox(phase) && wrote.writer == Some(c);
  }

  lemma CommitFails(enc: Encoding, s: P.State, db: Db, c: nat, phase: Phase, w: Weather)
    requires P.CallAt(s, c) && s.conns[c].pc.Commit? && s.conns[c].pc.phase == phase && P.MayWrite(s, c) && s.db == db
    requires !w.commits
    ensures RolledBack(Ending(enc, s, c, w), db, c, phase)
  {
  }

  lemma ReadyToCommit(enc: Encoding, s: P.State, c: nat, phase: Phase, w: Weather)
    requires P.CallAt(s, c) && s.conns[c].pc == P.Write(phase) && s.writer == None
    requires Succeeds(enc, s.db, phase, s.conns[c].id, s.conns[c].request, w.(commits := true))
    ensures var written := Statements(enc, FirstWrite(enc, s, c, w), c, w);
            && P.CallAt(written, c) && written.conns[c].pc.Commit? && written.conns[c].pc.phase == phase
            && P.MayWrite(written, c) && written.db == s.db
  {
    HeadRead(enc, s, c, phase, w.(commits := true));
  }

  lemma AloneCommits(enc: Encoding, s: P.State, c: nat, phase: Phase, w: Weather)
    requires P.CallAt(s, c) && s.conns[c].pc == P.Write(phase) && s.writer == None
    requires Succeeds(enc, s.db, phase, s.conns[c].id, s.conns[c].request, w)
    ensures Alone(enc, s, c, w) == FromHead(enc, UpToHead(enc, s, c, w), c, w)
  {
    ReadyToCommit(enc, s, c, phase, w);
    UninterruptedPhase(enc, s, c, phase, w);
  }

  /** The protocol left alone commits if and only if `Transaction` does, from
      any tables; otherwise it rolls back, and goes on to the lookup of the key or
      ends with the exception. */
  lemma AloneCommitsIffSucceeds(enc: Encoding, s: P.State, c: nat, phase: Phase, w: Weather)
    requires P.CallAt(s, c) && s.conns[c].pc == P.Write(phase) && s.writer == None
    ensures var id, request := s.conns[c].id, s.conns[c].request;
            var after := Alone(enc, s, c, w);
            && after.writer == None && P.CallAt(after, c)
            && if Succeeds(enc, s.db, phase, id, request, w) then
                 && after.db == Committed(enc, s.db, phase, id, request, w)
                 && after.conns[c].pc == if phase.Opening? then P.Bank else P.Returned(id, StatusAfter(phase))
               else
                 after.db == s.db && after.conns[c].pc == if phase.Opening? then P.Lookup else P.Raised
  {
    var wrote := FirstWrite(enc, s, c, w);
    if w.busy || (phase.Opening? && !CanInsert(s.db, s.conns[c].id, s.conns[c].request.key)) {
      FirstWriteFails(enc, s, c, phase, w);
      ExceptionRollsBack(enc, wrote, s.db, c, phase, w);
    } else if !Succeeds(enc, s.db, phase, s.conns[c].id, s.conns[c].request, w.(commits := true)) {
      StatementFails(enc, s, c, phase, w);
      ExceptionRollsBack(enc, Statements(enc, wrote, c, w), s.db, c, phase, w);
    } else if !w.commits {
      ReadyToCommit(enc, s, c, phase, w);
      CommitFails(enc, Statements(enc, wrote, c, w), s.db, c, phase, w);
    } else {
      AloneCommits(enc, s, c, phase, w);
      UninterruptedPhase(enc, s, c, phase, w);
    }
  }

  /** A call of the protocol up to the bank, that nobody interleaves with; `found`
      is the row that the lookup finds, if it comes to that. */
  function UpToBank(enc: Encoding, s: P.State, c: nat, id: string, request: Request, w: Weather,
                    found: string): P.State {
    P.Step(enc, Alone(enc, P.Step(enc, s, P.StartCall(c, id, request)), c, w), P.LookupKey(c, found))
  }

  /** And from there. */
  function FromBank(enc: Encoding, s: P.State, c: nat, approved: bool, w: Weather): P.State {
    Alone(enc, P.Step(enc, s, P.BankAnswers(c, approved)), c, w)
  }

  /** A call that has returned or raised takes no further step. */
  lemma FinishedRests(enc: Encoding, s: P.State, c: nat, w: Weather, approved: bool)
    requires P.CallAt(s, c) && P.Finished(s.conns[c])
    ensures FromBank(enc, s, c, approved, w) == s
  {
  }

  lemma StepKeepsCall(enc: Encoding, s: P.State, c: nat, e: P.Event)
    requires P.CallAt(s, c)
    ensures var after := P.Step(enc, s, e);
            P.CallAt(after, c) && after.conns[c].id == s.conns[c].id && after.conns[c].request == s.conns[c].request
  {
  }

  /** Id and request of a call never change. */
  lemma AloneKeepsCall(enc: Encoding, s: P.State, c: nat, w: Weather)
    requires P.CallAt(s, c)
    ensures var after := Alone(enc, s, c, w);
            P.CallAt(after, c) && after.conns[c].id == s.conns[c].id && after.conns[c].request == s.conns[c].request
  {
    var wrote := FirstWrite(enc, s, c, w);
    StepKeepsCall(enc, s, c, if w.busy then P.Fail(c) else P.WriteFirst(c));
    var noted := P.Step(enc, wrote, P.AppendOutbox(c, w.eventId, w.eventPayload));
    StepKeepsCall(enc, wrote, c, P.AppendOutbox(c, w.eventId, w.eventPayload));
    StepKeepsCall(enc, noted, c, P.SelectHead(c));
    StepKeepsCall(enc, P.Step(enc, noted, P.SelectHead(c)), c, P.AppendLedger(c));
    var written := Statements(enc, wrote, c, w);
    var last := if P.CallAt(written, c) && written.conns[c].pc.Commit? && !w.commits then P.Fail(c)
      else P.CommitCall(c);
    StepKeepsCall(enc, written, c, last);
    StepKeepsCall(enc, P.Step(enc, written, last), c, P.RollbackCall(c));
  }

  /** Where the lookup leaves a call that has begun, or rolled back, its opening. */
  lemma LookupEnds(enc: Encoding, s: P.State, c: nat, found: string)
    requires P.CallAt(s, c) && (s.conns[c].pc == P.Lookup || s.conns[c].pc == P.Bank)
    requires var key := s.conns[c].request.key;
             s.conns[c].pc == P.Lookup && KeyTaken(s.db, key) ==>
               found in s.db.intents && s.db.intents[found].request.key == key
    ensures var after := P.Step(enc, s, P.LookupKey(c, found));
            && after == s.(conns := after.conns) && P.CallAt(after, c)
            && after.conns[c] == s.conns[c].(pc :=
                 if s.conns[c].pc == P.Bank then P.Bank
                 else if KeyTaken(s.db, s.conns[c].request.key) then P.Returned(found, s.db.intents[found].status)
                 else P.Raised)
  {
  }

  lemma OpeningEnds(enc: Encoding, s: P.State, c: nat, id: string, request: Request, w: Weather)
    requires c !in s.conns && s.writer == None && BarFree(id)
    ensures var after := Alone(enc, P.Step(enc, s, P.StartCall(c, id, request)), c, w);
            && after.writer == None && P.CallAt(after, c)
            && if Succeeds(enc, s.db, Opening, id, request, w) then
                 after.db == Committed(enc, s.db, Opening, id, request, w) &&
                   after.conns[c] == P.Call(id, request, P.Bank)
               else
                 after.db == s.db && after.conns[c] == P.Call(id, request, P.Lookup)
  {
    var started := P.Step(enc, s, P.StartCall(c, id, request));
    assert started.conns[c] == P.Call(id, request, P.Write(Opening));
    AloneCommitsIffSucceeds(enc, started, c, Opening, w);
    AloneKeepsCall(enc, started, c, w);
  }

  lemma OpensOrEnds(enc: Encoding, s: P.State, c: nat, id: string, request: Request, w: Weather, found: string)
    requires c !in s.conns && s.writer == None && BarFree(id)
    requires KeyTaken(s.db, request.key) ==> found in s.db.intents && s.db.intents[found].request.key == request.key
    ensures var after := UpToBank(enc, s, c, id, request, w, found);
            && after.writer == None && P.CallAt(after, c)
            && if Succeeds(enc, s.db, Opening, id, request, w) then
                 after.db == Committed(enc, s.db, Opening, id, request, w) &&
                   after.conns[c] == P.Call(id, request, P.Bank)
               else
                 && after.db == s.db
                 && after.conns[c] == P.Call(id, request,
                      if KeyTaken(s.db, request.key) then P.Returned(found, s.db.intents[found].status) else P.Raised)
  {
    OpeningEnds(enc, s, c, id, request, w);
    LookupEnds(enc, Alone(enc, P.Step(enc, s, P.StartCall(c, id, request)), c, w), c, found);
  }

  lemma SettlesOrRaises(enc: Encoding, s: P.State, c: nat, approved: bool, w: Weather)
    requires P.CallAt(s, c) && s.conns[c].pc == P.Bank && s.writer == None
    ensures var id, request := s.conns[c].id, s.conns[c].request;
            var after := FromBank(enc, s, c, approved, w);
            && after.writer == None && P.CallAt(after, c)
            && if Succeeds(enc, s.db, Settling(approved), id, request, w) then
                 && after.db == Committed(enc, s.db, Settling(approved), id, request, w)
                 && after.conns[c].pc == P.Returned(id, if approved then Authorized else Failed)
               else
                 after.db == s.db && after.conns[c].pc == P.Raised
  {
    var answered := P.Step(enc, s, P.BankAnswers(c, approved));
    assert answered.conns[c] == s.conns[c].(pc := P.Write(Settling(approved)));
    AloneCommitsIffSucceeds(enc, answered, c, Settling(approved), w);
  }

  /** It ends as `AuthorizeTransfer` does: with the existing payment, with an
      exception before or after the first transaction, or with the verdict. */
  lemma UninterruptedCall(enc: Encoding, s: P.State, c: nat, id: string, request: Request, first: Weather,
                          found: string, approved: bool, second: Weather)
    requires c !in s.conns && s.writer == None && BarFree(id)
    requires KeyTaken(s.db, request.key) ==> found in s.db.intents && s.db.intents[found].request.key == request.key
    ensures var after := FromBank(enc, UpToBank(enc, s, c, id, request, first, found), c, approved, second);
            var halfway := Committed(enc, s.db, Opening, id, request, first);
            && after.writer == None && P.CallAt(after, c)
            && if KeyTaken(s.db, request.key) then
                 after.db == s.db && after.conns[c].pc == P.Returned(found, s.db.intents[found].status)
               else if !Succeeds(enc, s.db, Opening, id, request, first) then
                 after.db == s.db && after.conns[c].pc == P.Raised
               else if !Succeeds(enc, halfway, Settling(approved), id, request, second) then
                 after.db == halfway && after.conns[c].pc == P.Raised
               else
                 && after.db == Committed(enc, halfway, Settling(approved), id, request, second)
                 && after.conns[c].pc == P.Returned(id, if approved then Authorized else Failed)
  {
    OpensOrEnds(enc, s, c, id, request, first, found);
    var looked := UpToBank(enc, s, c, id, request, first, found);
    if Succeeds(enc, s.db, Opening, id, request, first) {
      SettlesOrRaises(enc, looked, c, approved, second);
    } else {
      FinishedRests(enc, looked, c, second, approved);
    }
  }
}
