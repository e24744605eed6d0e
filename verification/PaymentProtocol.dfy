/** Concurrent transfers and outbox relays on one SQLite database:
    `authorize_transfer` and `_append_outbox` of core/transaction.py, the
    appender of security/audit_chain.py inside them, and
    `outbox_relay_worker` of core/relay.py.

    Every SQL statement is one event.  A connection's first write takes the
    single writer lock; until it commits or rolls back its changes live in a
    private copy of the tables.  Busy errors, failed commits, exceptions and
    crashes can happen at any statement.
 */
module PaymentProtocol {
  import opened Hashing
  import opened Options
  import opened AuditLedger
  import opened PaymentTables

  datatype CallPc =
    | Write(phase: Phase)                              // INSERT or UPDATE
    | Outbox(phase: Phase)
    | ReadHead(phase: Phase, event: OutboxEvent)
    | Append(phase: Phase, event: OutboxEvent, prevHash: string)
    | Commit(phase: Phase, event: OutboxEvent, record: Record)
    | Rollback(phase: Phase)
    | Lookup                                           // SELECT by idempotency key
    | Bank
    | Returned(intentId: string, status: Status)
    | Raised
    | Lost                                             // crash or cancellation

  datatype RelayPc =
    | Idle
    | Publish(todo: seq<string>)                       // event ids still to send
    | Mark(todo: seq<string>)                          // the first one has been sent
    | CommitMarks
    | Stopped

  datatype Conn =
    | Call(id: string, request: Request, pc: CallPc)
    | Relay(rpc: RelayPc)

  datatype State = State(db: Db, work: Db, writer: Option<nat>, conns: map<nat, Conn>, sent: seq<string>)

  const INITIAL := State(EMPTY_DB, EMPTY_DB, None, map[], [])

  const BATCH := 10

  datatype Event =
    | StartCall(c: nat, id: string, request: Request)
    | StartRelay(c: nat)
    | WriteFirst(c: nat)
    | AppendOutbox(c: nat, eventId: string, payload: string)
    | SelectHead(c: nat)
    | AppendLedger(c: nat)
    | CommitCall(c: nat)
    | RollbackCall(c: nat)
    | LookupKey(c: nat, found: string)                 // the row found, if there is one
    | BankAnswers(c: nat, approved: bool)
    | SelectPending(c: nat, ids: seq<string>)
    | Send(c: nat)
    | MarkPublished(c: nat)
    | CommitRelay(c: nat)
    | Fail(c: nat)                                     // an exception, busy included
    | Crash(c: nat)

  // ------------------------------------------------------------------- steps

  predicate CallAt(s: State, c: nat) {
    c in s.conns && s.conns[c].Call?
  }

  predicate RelayAt(s: State, c: nat) {
    c in s.conns && s.conns[c].Relay?
  }

  predicate MayWrite(s: State, c: nat) {
    s.writer == None || s.writer == Some(c)
  }

  /** What connection c reads: its own open transaction, else the committed tables. */
  function ViewOf(s: State, c: nat): Db {
    if s.writer == Some(c) then s.work else s.db
  }

  predicate IsPending(outbox: seq<OutboxEvent>, id: string) {
    exists i :: 0 <= i < |outbox| && outbox[i].id == id && !outbox[i].published
  }

  function PendingCount(outbox: seq<OutboxEvent>): nat {
    if outbox == [] then 0
    else PendingCount(outbox[..|outbox| - 1]) + if outbox[|outbox| - 1].published then 0 else 1
  }

  /** SELECT ... WHERE status = 'PENDING' LIMIT 10, in any order. */
  predicate IsSelection(outbox: seq<OutboxEvent>, ids: seq<string>) {
    && |ids| == (if PendingCount(outbox) <= BATCH then PendingCount(outbox) else BATCH)
    && (forall i :: 0 <= i < |ids| ==> IsPending(outbox, ids[i]))
    && (forall i, j :: 0 <= i < j < |ids| ==> ids[i] != ids[j])
  }

  predicate Finished(conn: Conn) {
    match conn
    case Call(_, _, pc) => pc.Returned? || pc.Raised? || pc.Lost?
    case Relay(rpc) => rpc.Stopped?
  }

  predicate Enabled(s: State, e: Event) {
    match e
    case StartCall(c, id, _) => c !in s.conns && BarFree(id)
    case StartRelay(c) => c !in s.conns
    case WriteFirst(c) => CallAt(s, c) && s.conns[c].pc.Write? && s.writer == None
    case AppendOutbox(c, _, _) => CallAt(s, c) && s.conns[c].pc.Outbox?
    case SelectHead(c) => CallAt(s, c) && s.conns[c].pc.ReadHead?
    case AppendLedger(c) => CallAt(s, c) && s.conns[c].pc.Append?
    case CommitCall(c) => CallAt(s, c) && s.conns[c].pc.Commit?
    case RollbackCall(c) => CallAt(s, c) && s.conns[c].pc.Rollback?
    case LookupKey(c, found) =>
      && CallAt(s, c) && s.conns[c].pc.Lookup?
      && (KeyTaken(s.db, s.conns[c].request.key) ==>
            found in s.db.intents && s.db.intents[found].request.key == s.conns[c].request.key)
    case BankAnswers(c, _) => CallAt(s, c) && s.conns[c].pc.Bank?
    case SelectPending(c, ids) => RelayAt(s, c) && s.conns[c].rpc.Idle? && IsSelection(ViewOf(s, c).outbox, ids)
    case Send(c) => RelayAt(s, c) && s.conns[c].rpc.Publish? && s.conns[c].rpc.todo != []
    case MarkPublished(c) => RelayAt(s, c) && s.conns[c].rpc.Mark? && s.conns[c].rpc.todo != [] && MayWrite(s, c)
    case CommitRelay(c) => RelayAt(s, c) && s.conns[c].rpc.CommitMarks? && s.writer == Some(c)
    case Fail(c) => c in s.conns && !Finished(s.conns[c]) && !(s.conns[c].Call? && s.conns[c].pc.Bank?)
    case Crash(c) => c in s.conns && !Finished(s.conns[c])
  }

  function Put(s: State, c: nat, conn: Conn): State {
    s.(conns := s.conns[c := conn])
  }

  function Goto(s: State, c: nat, pc: CallPc): State
    requires CallAt(s, c)
  {
    Put(s, c, s.conns[c].(pc := pc))
  }

  /** The writer lock is free again if c had it. */
  function Freed(s: State, c: nat): State {
    if s.writer == Some(c) then s.(writer := None) else s
  }

  function AfterWrite(s: State, c: nat): State
    requires CallAt(s, c) && s.conns[c].pc.Write?
  {
    var Call(id, request, pc) := s.conns[c];
    if pc.phase.Opening? && !CanInsert(s.db, id, request.key) then
      Goto(s, c, Rollback(Opening)).(writer := Some(c), work := s.db)  // IntegrityError
    else
      Goto(s, c, Outbox(pc.phase)).(writer := Some(c), work := WriteIntent(s.db, pc.phase, id, request))
  }

  function AfterOutbox(s: State, c: nat, eventId: string, payload: string): State
    requires CallAt(s, c) && s.conns[c].pc.Outbox?
  {
    var Call(id, _, pc) := s.conns[c];
    if EventIdTaken(s.work.outbox, eventId) then Goto(s, c, Rollback(pc.phase))
    else
      var event := OutboxEvent(eventId, id, KindOf(pc.phase), payload, false);
      Goto(s, c, ReadHead(pc.phase, event)).(work := AddEvent(s.work, event))
  }

  function AfterAppend(enc: Encoding, s: State, c: nat): State
    requires CallAt(s, c) && s.conns[c].pc.Append?
  {
    var Call(id, request, pc) := s.conns[c];
    var action, payload := ActionOf(pc.phase), AuditPayload(enc, pc.phase, request);
    var record := Record(id, action, payload, pc.prevHash, enc.h(HashInput(pc.prevHash, id, action, payload)));
    if DigestTaken(s.work.ledger, record.currentHash) then Goto(s, c, Rollback(pc.phase))
    else Goto(s, c, Commit(pc.phase, pc.event, record)).(work := AddRecord(s.work, record))
  }

  function AfterCommit(s: State, c: nat): State
    requires CallAt(s, c) && s.conns[c].pc.Commit?
  {
    var pc := s.conns[c].pc;
    Goto(s, c, if pc.phase.Opening? then Bank else Returned(s.conns[c].id, StatusAfter(pc.phase)))
      .(db := s.work, writer := None)
  }

  function AfterLookup(s: State, c: nat, found: string): CallPc
    requires CallAt(s, c) && (KeyTaken(s.db, s.conns[c].request.key) ==> found in s.db.intents)
  {
    if KeyTaken(s.db, s.conns[c].request.key) then Returned(found, s.db.intents[found].status) else Raised
  }

  function AfterMark(s: State, c: nat): State
    requires RelayAt(s, c) && s.conns[c].rpc.Mark? && s.conns[c].rpc.todo != []
  {
    var todo := s.conns[c].rpc.todo;
    var view := ViewOf(s, c);
    Put(s, c, Relay(if |todo| == 1 then CommitMarks else Publish(todo[1..])))
      .(writer := Some(c), work := view.(outbox := Published(view.outbox, todo[0])))
  }

  /** An exception.  In a transfer it leads to ROLLBACK; one raised by the
      ROLLBACK or by the lookup escapes, and closing the connection undoes the
      transaction.  The relay only logs it: an open transaction stays open. */
  function AfterFail(s: State, c: nat): State
    requires c in s.conns
  {
    match s.conns[c]
    case Call(_, _, pc) =>
      (match pc
       case Write(phase) => Goto(s, c, Rollback(phase))
       case Outbox(phase) => Goto(s, c, Rollback(phase))
       case ReadHead(phase, _) => Goto(s, c, Rollback(phase))
       case Append(phase, _, _) => Goto(s, c, Rollback(phase))
       case Commit(phase, _, _) => Goto(s, c, Rollback(phase))
       case _ => Freed(Goto(s, c, Raised), c))
    case Relay(_) => Put(s, c, Relay(Idle))
  }

  function Effect(enc: Encoding, s: State, e: Event): State
    requires Enabled(s, e)
  {
    match e
    case StartCall(c, id, request) => Put(s, c, Call(id, request, Write(Opening)))
    case StartRelay(c) => Put(s, c, Relay(Idle))
    case WriteFirst(c) => AfterWrite(s, c)
    case AppendOutbox(c, eventId, payload) => AfterOutbox(s, c, eventId, payload)
    case SelectHead(c) => Goto(s, c, Append(s.conns[c].pc.phase, s.conns[c].pc.event, Head(s.work.ledger)))
    case AppendLedger(c) => AfterAppend(enc, s, c)
    case CommitCall(c) => AfterCommit(s, c)
    case RollbackCall(c) => Freed(Goto(s, c, if s.conns[c].pc.phase.Opening? then Lookup else Raised), c)
    case LookupKey(c, found) => Goto(s, c, AfterLookup(s, c, found))
    case BankAnswers(c, approved) => Goto(s, c, Write(Settling(approved)))
    case SelectPending(c, ids) => Put(s, c, Relay(if ids == [] then Idle else Publish(ids)))
    case Send(c) => Put(s, c, Relay(Mark(s.conns[c].rpc.todo))).(sent := s.sent + [s.conns[c].rpc.todo[0]])
    case MarkPublished(c) => AfterMark(s, c)
    case CommitRelay(c) => Put(s, c, Relay(Idle)).(db := s.work, writer := None)
    case Fail(c) => AfterFail(s, c)
    case Crash(c) => Freed(Put(s, c, if s.conns[c].Call? then s.conns[c].(pc := Lost) else Relay(Stopped)), c)
  }

  /** An event that is not enabled does nothing, so every sequence of events is a run. */
  function Step(enc: Encoding, s: State, e: Event): State {
    if Enabled(s, e) then Effect(enc, s, e) else s
  }

  function Run(enc: Encoding, s: State, events: seq<Event>): State
    decreases |events|
  {
    if events == [] then s
    else Step(enc, Run(enc, s, events[..|events| - 1]), events[|events| - 1])
  }

  // --------------------------------------------------------------- invariant

  /** The transaction a call has open is exactly what its statements so far did
      to the committed tables, and the head it read is the committed head. */
  ghost predicate OpenTransaction(enc: Encoding, db: Db, work: Db, call: Conn)
    requires call.Call?
  {
    var Call(id, request, pc) := call;
    match pc
    case Outbox(phase) =>
      Ready(db, phase, id, request) && work == WriteIntent(db, phase, id, request)
    case ReadHead(phase, event) =>
      && Ready(db, phase, id, request) && FreshEvent(db, phase, id, event)
      && work == AddEvent(WriteIntent(db, phase, id, request), event)
    case Append(phase, event, prevHash) =>
      && Ready(db, phase, id, request) && FreshEvent(db, phase, id, event) && prevHash == Head(db.ledger)
      && work == AddEvent(WriteIntent(db, phase, id, request), event)
    case Commit(phase, event, record) =>
      && Ready(db, phase, id, request) && FreshEvent(db, phase, id, event) &&
        NextRecord(enc, db, phase, id, request, record)
      && work == Transact(db, phase, id, request, event, record)
    case Rollback(_) => true
    case _ => false
  }

  /** The call has opened its intent and not yet settled it. */
  predicate Unsettled(call: Conn) {
    && call.Call?
    && match call.pc
       case Bank => true
       case Write(phase) => phase.Settling?
       case Outbox(phase) => phase.Settling?
       case ReadHead(phase, _) => phase.Settling?
       case Append(phase, _, _) => phase.Settling?
       case Commit(phase, _, _) => phase.Settling?
       case _ => false
  }

  /** The relay's open transaction only marks events that have been sent. */
  predicate Marked(before: OutboxEvent, after: OutboxEvent, sent: seq<string>) {
    after == before || (after == before.(published := true) && before.id in sent)
  }

  ghost predicate OpenMarks(db: Db, work: Db, sent: seq<string>) {
    && work.intents == db.intents && work.ledger == db.ledger && |work.outbox| == |db.outbox|
    && forall i :: 0 <= i < |db.outbox| ==> Marked(db.outbox[i], work.outbox[i], sent)
  }

  predicate Holding(pc: CallPc) {
    pc.Outbox? || pc.ReadHead? || pc.Append? || pc.Commit?
  }

  ghost predicate CallFits(db: Db, writes: bool, call: Conn)
    requires call.Call?
  {
    var Call(id, request, pc) := call;
    && BarFree(id)
    && (writes ==> Holding(pc) || pc.Rollback?)
    && (Holding(pc) ==> writes)
    && (Unsettled(call) ==> Ready(db, Settling(true), id, request))
    && (pc.Returned? ==>
          && pc.intentId in db.intents && db.intents[pc.intentId].request.key == request.key
          && (pc.status == Authorizing || db.intents[pc.intentId].status == pc.status))
  }

  ghost predicate RelayFits(db: Db, writes: bool, sent: seq<string>, rpc: RelayPc) {
    match rpc
    case Idle => true
    case Publish(todo) => forall i :: 0 <= i < |todo| ==> EventIdTaken(db.outbox, todo[i])
    case Mark(todo) => todo != [] && todo[0] in sent && forall i :: 0 <= i < |todo| ==> EventIdTaken(db.outbox, todo[i])
    case CommitMarks => writes
    case Stopped => !writes
  }

  ghost predicate ConnFits(db: Db, writes: bool, sent: seq<string>, conn: Conn) {
    match conn
    case Call(_, _, _) => CallFits(db, writes, conn)
    case Relay(rpc) => RelayFits(db, writes, sent, rpc)
  }

  ghost predicate WriterFits(enc: Encoding, s: State) {
    s.writer.Some? ==>
      && s.writer.value in s.conns
      && match s.conns[s.writer.value]
         case Call(_, _, _) => OpenTransaction(enc, s.db, s.work, s.conns[s.writer.value])
         case Relay(_) => OpenMarks(s.db, s.work, s.sent)
  }

  /** Everything sent is a committed event; everything published was sent. */
  ghost predicate SentFits(db: Db, sent: seq<string>) {
    && (forall i :: 0 <= i < |sent| ==> EventIdTaken(db.outbox, sent[i]))
    && (forall i :: 0 <= i < |db.outbox| && db.outbox[i].published ==> db.outbox[i].id in sent)
  }

  ghost predicate Inv(enc: Encoding, s: State) {
    Consistent(enc, s.db) && Fits(enc, s)
  }

  ghost predicate Fits(enc: Encoding, s: State) {
    && WriterFits(enc, s)
    && SentFits(s.db, s.sent)
    && (forall c :: c in s.conns ==> ConnFits(s.db, s.writer == Some(c), s.sent, s.conns[c]))
    && (forall c, d | c in s.conns && d in s.conns && Unsettled(s.conns[c]) && Unsettled(s.conns[d]) ::
          s.conns[c].id == s.conns[d].id ==> c == d)
  }

  /** How the committed tables may change: rows stay, a status leaves
      AUTHORIZING only, events only become published, the ledger only grows. */
  ghost predicate Advances(before: Db, after: Db) {
    && (forall id :: id in before.intents ==>
          && id in after.intents && after.intents[id].request == before.intents[id].request
          && (before.intents[id].status == Authorizing || after.intents[id] == before.intents[id]))
    && |before.outbox| <= |after.outbox|
    && (forall i :: 0 <= i < |before.outbox| ==>
          after.outbox[i] == before.outbox[i] || after.outbox[i] == before.outbox[i].(published := true))
    && before.ledger <= after.ledger
  }

  lemma AdvancesTransitive(a: Db, b: Db, c: Db)
    requires Advances(a, b) && Advances(b, c)
    ensures Advances(a, c)
  {
  }

  /** The committed tables change by a whole transaction of one transfer, by
      marking events that were sent, or not at all. */
  ghost predicate Atomic(enc: Encoding, before: Db, after: Db, sent: seq<string>) {
    || after == before
    || (exists phase, id, request, e, r :: IsTransaction(enc, before, after, phase, id, request, e, r))
    || OpenMarks(before, after, sent)
  }

  ghost predicate IsTransaction(enc: Encoding, before: Db, after: Db, phase: Phase, id: string, request: Request,
                                e: OutboxEvent, r: Record) {
    && Ready(before, phase, id, request) && BarFree(id)
    && FreshEvent(before, phase, id, e) && NextRecord(enc, before, phase, id, request, r)
    && after == Transact(before, phase, id, request, e, r)
  }

  // ------------------------------------------------------ steps keep the invariant

  /** A step that commits nothing. */
  ghost predicate Kept(enc: Encoding, s: State, s': State) {
    Fits(enc, s') && s'.db == s.db && s.sent <= s'.sent
  }

  /** A step of connection c that commits nothing. */
  lemma LocalStep(enc: Encoding, s: State, c: nat, s': State)
    requires Fits(enc, s)
    requires s'.db == s.db && c in s'.conns && s'.conns == s.conns[c := s'.conns[c]]
    requires s.sent <= s'.sent && forall i :: |s.sent| <= i < |s'.sent| ==> EventIdTaken(s.db.outbox, s'.sent[i])
    requires (s'.work == s.work && s'.writer == s.writer) || (MayWrite(s, c) && MayWrite(s', c))
    requires ConnFits(s.db, s'.writer == Some(c), s'.sent, s'.conns[c])
    requires s'.writer == Some(c) ==>
      match s'.conns[c]
      case Call(_, _, _) => OpenTransaction(enc, s.db, s'.work, s'.conns[c])
      case Relay(_) => OpenMarks(s.db, s'.work, s'.sent)
    requires Unsettled(s'.conns[c]) ==> CallAt(s, c) && Unsettled(s.conns[c]) && s'.conns[c].id == s.conns[c].id
    ensures Fits(enc, s') && s'.db == s.db && s.sent <= s'.sent
  {
  }

  /** A commit by connection c. */
  lemma CommitStep(enc: Encoding, s: State, c: nat, s': State)
    requires Fits(enc, s) && s.writer == Some(c) && c in s.conns
    requires c in s'.conns && s' == State(s.work, s.work, None, s.conns[c := s'.conns[c]], s.sent)
    requires Advances(s.db, s.work) && SentFits(s.work, s.sent)
    requires ConnFits(s.work, false, s.sent, s'.conns[c])
    requires forall d :: d in s.conns && d != c && Unsettled(s.conns[d]) ==>
      && s.conns[d].id in s.db.intents && s.work.intents[s.conns[d].id] == s.db.intents[s.conns[d].id]
      && (Unsettled(s'.conns[c]) ==> s'.conns[c].id != s.conns[d].id)
    ensures Fits(enc, s')
  {
  }

  lemma CallWriteKeepsInv(enc: Encoding, s: State, c: nat)
    requires Fits(enc, s) && Enabled(s, WriteFirst(c))
    ensures Kept(enc, s, Effect(enc, s, WriteFirst(c)))
  {
    assert CallFits(s.db, false, s.conns[c]);
    LocalStep(enc, s, c, AfterWrite(s, c));
  }

  lemma CallOutboxKeepsInv(enc: Encoding, s: State, c: nat, eventId: string, payload: string)
    requires Fits(enc, s) && Enabled(s, AppendOutbox(c, eventId, payload))
    ensures Kept(enc, s, Effect(enc, s, AppendOutbox(c, eventId, payload)))
  {
    assert CallFits(s.db, s.writer == Some(c), s.conns[c]);
    LocalStep(enc, s, c, AfterOutbox(s, c, eventId, payload));
  }

  lemma CallHeadKeepsInv(enc: Encoding, s: State, c: nat)
    requires Fits(enc, s) && Enabled(s, SelectHead(c))
    ensures Kept(enc, s, Effect(enc, s, SelectHead(c)))
  {
  }

  lemma CallAppendKeepsInv(enc: Encoding, s: State, c: nat)
    requires Fits(enc, s) && Enabled(s, AppendLedger(c))
    ensures Kept(enc, s, Effect(enc, s, AppendLedger(c)))
  {
    assert CallFits(s.db, s.writer == Some(c), s.conns[c]);
    LocalStep(enc, s, c, AfterAppend(enc, s, c));
  }

  /** The transaction a call is about to commit. */
  lemma PreparedCommit(enc: Encoding, s: State, c: nat)
    requires Fits(enc, s) && Enabled(s, CommitCall(c))
    ensures s.writer == Some(c)
    ensures var Call(id, request, pc) := s.conns[c];
            IsTransaction(enc, s.db, s.work, pc.phase, id, request, pc.event, pc.record)
    ensures Advances(s.db, s.work)
  {
  }

  lemma OtherUnsettled(enc: Encoding, s: State, c: nat, d: nat)
    requires Fits(enc, s) && Enabled(s, CommitCall(c))
    requires d in s.conns && d != c && Unsettled(s.conns[d])
    ensures s.conns[d].id in s.db.intents && s.conns[d].id != s.conns[c].id
    ensures s.work.intents[s.conns[d].id] == s.db.intents[s.conns[d].id]
  {
  }

  lemma UnpublishedKeepsSent(db: Db, work: Db, e: OutboxEvent, sent: seq<string>)
    requires SentFits(db, sent) && work.outbox == db.outbox + [e] && !e.published
    ensures SentFits(work, sent)
  {
    forall i | 0 <= i < |sent| ensures EventIdTaken(work.outbox, sent[i]) {
      assert EventIdTaken(db.outbox, sent[i]);
      var k :| 0 <= k < |db.outbox| && db.outbox[k].id == sent[i];
      assert work.outbox[k].id == sent[i];
    }
  }

  lemma CommittedCallFits(enc: Encoding, s: State, c: nat)
    requires Fits(enc, s) && Enabled(s, CommitCall(c))
    ensures CallFits(s.work, false, AfterCommit(s, c).conns[c])
  {
  }

  lemma CallCommitKeepsInv(enc: Encoding, s: State, c: nat)
    requires Fits(enc, s) && Enabled(s, CommitCall(c))
    ensures Fits(enc, AfterCommit(s, c))
  {
    PreparedCommit(enc, s, c);
    CommittedCallFits(enc, s, c);
    UnpublishedKeepsSent(s.db, s.work, s.conns[c].pc.event, s.sent);
    var s' := AfterCommit(s, c);
    forall d | d in s.conns && d != c && Unsettled(s.conns[d])
      ensures && s.conns[d].id in s.db.intents && s.work.intents[s.conns[d].id] == s.db.intents[s.conns[d].id]
              && s.conns[c].id != s.conns[d].id
    {
      OtherUnsettled(enc, s, c, d);
    }
    CommitStep(enc, s, c, s');
  }

  lemma CallEndsKeepInv(enc: Encoding, s: State, c: nat, e: Event)
    requires Fits(enc, s) && Enabled(s, e) && CallAt(s, c)
    requires e == RollbackCall(c) || (e.LookupKey? && e.c == c) || (e.BankAnswers? && e.c == c)
    ensures Kept(enc, s, Effect(enc, s, e))
  {
    assert CallFits(s.db, s.writer == Some(c), s.conns[c]);
    LocalStep(enc, s, c, Effect(enc, s, e));
  }

  lemma FailKeepsInv(enc: Encoding, s: State, c: nat)
    requires Fits(enc, s) && Enabled(s, Fail(c))
    ensures Kept(enc, s, Effect(enc, s, Fail(c)))
  {
    assert ConnFits(s.db, s.writer == Some(c), s.sent, s.conns[c]);
    LocalStep(enc, s, c, AfterFail(s, c));
  }

  lemma CrashKeepsInv(enc: Encoding, s: State, c: nat)
    requires Fits(enc, s) && Enabled(s, Crash(c))
    ensures Kept(enc, s, Effect(enc, s, Crash(c)))
  {
    assert ConnFits(s.db, s.writer == Some(c), s.sent, s.conns[c]);
    LocalStep(enc, s, c, Effect(enc, s, Crash(c)));
  }

  lemma MarksReflexive(db: Db, sent: seq<string>)
    ensures OpenMarks(db, db, sent)
  {
  }

  lemma SelectKeepsInv(enc: Encoding, s: State, c: nat, ids: seq<string>)
    requires Fits(enc, s) && Enabled(s, SelectPending(c, ids))
    ensures Kept(enc, s, Effect(enc, s, SelectPending(c, ids)))
  {
  }

  lemma SendKeepsInv(enc: Encoding, s: State, c: nat)
    requires Fits(enc, s) && Enabled(s, Send(c))
    ensures Kept(enc, s, Effect(enc, s, Send(c)))
  {
    var s' := Effect(enc, s, Send(c));
    assert RelayFits(s.db, s.writer == Some(c), s.sent, s.conns[c].rpc);
    assert s'.sent[|s.sent|] == s.conns[c].rpc.todo[0];
    assert forall id :: id in s.sent ==> id in s'.sent;
    LocalStep(enc, s, c, s');
  }

  lemma MarkKeepsInv(enc: Encoding, s: State, c: nat)
    requires Fits(enc, s) && Enabled(s, MarkPublished(c))
    ensures Kept(enc, s, Effect(enc, s, MarkPublished(c)))
  {
    var view, id := ViewOf(s, c), s.conns[c].rpc.todo[0];
    assert RelayFits(s.db, s.writer == Some(c), s.sent, s.conns[c].rpc);
    MarksReflexive(s.db, s.sent);
    assert OpenMarks(s.db, view, s.sent);
    var work := view.(outbox := Published(view.outbox, id));
    forall i | 0 <= i < |s.db.outbox| ensures Marked(s.db.outbox[i], work.outbox[i], s.sent) {
      assert Marked(s.db.outbox[i], view.outbox[i], s.sent);
      PublishedRow(view.outbox, id, i);
    }
    LocalStep(enc, s, c, AfterMark(s, c));
  }

  lemma MarksKeepConsistent(enc: Encoding, db: Db, work: Db, sent: seq<string>)
    requires Consistent(enc, db) && OpenMarks(db, work, sent)
    ensures Consistent(enc, work)
  {
    forall i | 0 <= i < |db.outbox|
      ensures work.outbox[i].id == db.outbox[i].id && work.outbox[i].aggregateId == db.outbox[i].aggregateId
    {
      assert Marked(db.outbox[i], work.outbox[i], sent);
    }
    forall id | id in work.intents ensures InStepFor(work, id) {
      MarksKeepKinds(db.outbox, work.outbox, id, sent);
      assert InStepFor(db, id);
    }
  }

  lemma {:induction false} MarksKeepKinds(before: seq<OutboxEvent>, after: seq<OutboxEvent>, id: string,
                                          sent: seq<string>)
    requires |before| == |after| && forall i :: 0 <= i < |before| ==> Marked(before[i], after[i], sent)
    ensures KindsOf(after, id) == KindsOf(before, id)
  {
    if before != [] {
      var n := |before| - 1;
      assert Marked(before[n], after[n], sent);
      MarksKeepKinds(before[..n], after[..n], id, sent);
    }
  }

  lemma MarksKeepSent(db: Db, work: Db, sent: seq<string>)
    requires SentFits(db, sent) && OpenMarks(db, work, sent)
    ensures SentFits(work, sent)
  {
  }

  lemma MarksAdvance(db: Db, work: Db, sent: seq<string>)
    requires OpenMarks(db, work, sent)
    ensures Advances(db, work)
  {
  }

  lemma RelayCommitKeepsInv(enc: Encoding, s: State, c: nat)
    requires Fits(enc, s) && Enabled(s, CommitRelay(c))
    ensures Fits(enc, Effect(enc, s, CommitRelay(c)))
    ensures Advances(s.db, s.work) && OpenMarks(s.db, s.work, s.sent)
  {
    assert OpenMarks(s.db, s.work, s.sent);
    MarksAdvance(s.db, s.work, s.sent);
    MarksKeepSent(s.db, s.work, s.sent);
    forall d | d in s.conns && Unsettled(s.conns[d]) ensures s.conns[d].id in s.db.intents {
      assert ConnFits(s.db, s.writer == Some(d), s.sent, s.conns[d]);
    }
    CommitStep(enc, s, c, Effect(enc, s, CommitRelay(c)));
  }

  lemma StartKeepsInv(enc: Encoding, s: State, e: Event)
    requires Fits(enc, s) && Enabled(s, e) && (e.StartCall? || e.StartRelay?)
    ensures Kept(enc, s, Effect(enc, s, e))
  {
  }

  lemma CallStepKeepsInv(enc: Encoding, s: State, e: Event)
    requires Fits(enc, s) && Enabled(s, e)
    requires e.WriteFirst? || e.AppendOutbox? || e.SelectHead? || e.AppendLedger? || e.RollbackCall? ||
      e.LookupKey? || e.BankAnswers?
    ensures Kept(enc, s, Effect(enc, s, e))
  {
    match e {
      case WriteFirst(c) => CallWriteKeepsInv(enc, s, c);
      case AppendOutbox(c, eventId, payload) => CallOutboxKeepsInv(enc, s, c, eventId, payload);
      case SelectHead(c) => CallHeadKeepsInv(enc, s, c);
      case AppendLedger(c) => CallAppendKeepsInv(enc, s, c);
      case RollbackCall(c) => CallEndsKeepInv(enc, s, c, e);
      case LookupKey(c, _) => CallEndsKeepInv(enc, s, c, e);
      case BankAnswers(c, _) => CallEndsKeepInv(enc, s, c, e);
    }
  }

  lemma OtherStepKeepsInv(enc: Encoding, s: State, e: Event)
    requires Fits(enc, s) && Enabled(s, e)
    requires e.StartCall? || e.StartRelay? || e.SelectPending? || e.Send? || e.MarkPublished? || e.Fail? || e.Crash?
    ensures Kept(enc, s, Effect(enc, s, e))
  {
    match e {
      case StartCall(_, _, _) => StartKeepsInv(enc, s, e);
      case StartRelay(_) => StartKeepsInv(enc, s, e);
      case SelectPending(c, ids) => SelectKeepsInv(enc, s, c, ids);
      case Send(c) => SendKeepsInv(enc, s, c);
      case MarkPublished(c) => MarkKeepsInv(enc, s, c);
      case Fail(c) => FailKeepsInv(enc, s, c);
      case Crash(c) => CrashKeepsInv(enc, s, c);
    }
  }

  /** One step: the invariant is kept, and the committed tables change by a
      whole transaction of one transfer, by marking sent events, or not at all. */
  lemma StepKeepsInv(enc: Encoding, s: State, e: Event)
    requires Inv(enc, s)
    ensures var s' := Step(enc, s, e);
            && Inv(enc, s') && Advances(s.db, s'.db) && Atomic(enc, s.db, s'.db, s.sent)
            && s.sent <= s'.sent
  {
    if Enabled(s, e) {
      if e.CommitCall? {
        CallCommitKeepsInv(enc, s, e.c);
        PreparedCommit(enc, s, e.c);
        var Call(id, request, pc) := s.conns[e.c];
        TransactKeepsConsistent(enc, s.db, pc.phase, id, request, pc.event, pc.record);
      } else if e.CommitRelay? {
        RelayCommitKeepsInv(enc, s, e.c);
        MarksKeepConsistent(enc, s.db, s.work, s.sent);
      } else if e.StartCall? || e.StartRelay? || e.SelectPending? || e.Send? || e.MarkPublished? || e.Fail? ||
        e.Crash? {
        OtherStepKeepsInv(enc, s, e);
      } else {
        CallStepKeepsInv(enc, s, e);
      }
    }
  }

  lemma {:induction false} RunKeepsInv(enc: Encoding, s: State, events: seq<Event>)
    requires Inv(enc, s)
    ensures var s' := Run(enc, s, events);
            Inv(enc, s') && Advances(s.db, s'.db) && s.sent <= s'.sent
    decreases |events|
  {
    if events != [] {
      var before := Run(enc, s, events[..|events| - 1]);
      RunKeepsInv(enc, s, events[..|events| - 1]);
      StepKeepsInv(enc, before, events[|events| - 1]);
      AdvancesTransitive(s.db, before.db, Run(enc, s, events).db);
    }
  }
}
