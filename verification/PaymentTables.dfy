/** The three tables of core/database.py that a transfer writes, and the three
    transactions that change them: opening an intent, recording the bank's
    answer, and marking outbox events published. */
module PaymentTables {
  import opened Hashing
  import opened AuditLedger

  datatype Status = Authorizing | Authorized | Failed

  /** A float, as mantissa and binary exponent. */
  datatype Amount = Amount(mantissa: int, exponent: int)

  datatype Request = Request(key: string, userId: string, amount: Amount, target: string)

  /** A row of payment_intents; the primary key is the map key. */
  datatype Intent = Intent(request: Request, status: Status)

  datatype Kind = AuthStarted | AuthApproved | AuthFailed

  datatype OutboxEvent = OutboxEvent(id: string, aggregateId: string, kind: Kind, payload: string, published: bool)

  datatype Db = Db(intents: map<string, Intent>, outbox: seq<OutboxEvent>, ledger: seq<Record>)

  const EMPTY_DB := Db(map[], [], [])

  /** SHA-256 and the serializations of the two audit payloads: user, amount
      and target of a new intent, and the outcome of a settled one. */
  datatype Encoding = Encoding(h: Hash, opening: (string, Amount, string) -> string, outcome: bool -> string)

  /** The two transactions of authorize_transfer. */
  datatype Phase = Opening | Settling(approved: bool)

  function StatusAfter(phase: Phase): Status {
    match phase
    case Opening => Authorizing
    case Settling(approved) => if approved then Authorized else Failed
  }

  function KindOf(phase: Phase): Kind {
    match phase
    case Opening => AuthStarted
    case Settling(approved) => if approved then AuthApproved else AuthFailed
  }

  function ActionOf(phase: Phase): string {
    match phase
    case Opening => "INTENT_CREATED"
    case Settling(approved) => if approved then "AUTH_APPROVED" else "AUTH_FAILED"
  }

  function AuditPayload(enc: Encoding, phase: Phase, request: Request): string {
    match phase
    case Opening => enc.opening(request.userId, request.amount, request.target)
    case Settling(approved) => enc.outcome(approved)
  }

  // --------------------------------------------------------------- statements

  predicate KeyTaken(db: Db, key: string) {
    exists id :: id in db.intents && db.intents[id].request.key == key
  }

  /** The INSERT violates neither the primary key nor UNIQUE idempotency_key. */
  predicate CanInsert(db: Db, id: string, key: string) {
    id !in db.intents && !KeyTaken(db, key)
  }

  /** The first write of a phase: INSERT the intent, or UPDATE its status. */
  function WriteIntent(db: Db, phase: Phase, id: string, request: Request): Db {
    db.(intents := db.intents[id := Intent(request, StatusAfter(phase))])
  }

  predicate EventIdTaken(outbox: seq<OutboxEvent>, id: string) {
    exists i :: 0 <= i < |outbox| && outbox[i].id == id
  }

  function AddEvent(db: Db, e: OutboxEvent): Db {
    db.(outbox := db.outbox + [e])
  }

  function AddRecord(db: Db, r: Record): Db {
    db.(ledger := db.ledger + [r])
  }

  function Published(outbox: seq<OutboxEvent>, id: string): (after: seq<OutboxEvent>)
    ensures |after| == |outbox|
  {
    if outbox == [] then []
    else
      var e := outbox[|outbox| - 1];
      Published(outbox[..|outbox| - 1], id) + [if e.id == id then e.(published := true) else e]
  }

  /** UPDATE ... SET status = 'PUBLISHED' WHERE id = ? touches that row only. */
  lemma {:induction false} PublishedRow(outbox: seq<OutboxEvent>, id: string, i: nat)
    requires i < |outbox|
    ensures Published(outbox, id)[i] == if outbox[i].id == id then outbox[i].(published := true) else outbox[i]
  {
    if i < |outbox| - 1 { PublishedRow(outbox[..|outbox| - 1], id, i); }
  }

  // ------------------------------------------------------------- transactions

  /** What a phase may assume about the committed tables when it writes. */
  predicate Ready(db: Db, phase: Phase, id: string, request: Request) {
    if phase.Opening? then CanInsert(db, id, request.key)
    else id in db.intents && db.intents[id] == Intent(request, Authorizing)
  }

  predicate FreshEvent(db: Db, phase: Phase, id: string, e: OutboxEvent) {
    !EventIdTaken(db.outbox, e.id) && e.aggregateId == id && e.kind == KindOf(phase) && !e.published
  }

  predicate NextRecord(enc: Encoding, db: Db, phase: Phase, id: string, request: Request, r: Record) {
    r == Chained(enc.h, db.ledger, id, ActionOf(phase), AuditPayload(enc, phase, request))
  }

  /** A whole phase as one transaction. */
  function Transact(db: Db, phase: Phase, id: string, request: Request, e: OutboxEvent, r: Record): Db {
    AddRecord(AddEvent(WriteIntent(db, phase, id, request), e), r)
  }

  // --------------------------------------------------------- tables kept in step

  function KindsOf(outbox: seq<OutboxEvent>, id: string): seq<Kind> {
    if outbox == [] then []
    else
      var e := outbox[|outbox| - 1];
      KindsOf(outbox[..|outbox| - 1], id) + if e.aggregateId == id then [e.kind] else []
  }

  function ActionsOf(ledger: seq<Record>, id: string): seq<string> {
    if ledger == [] then []
    else
      var r := ledger[|ledger| - 1];
      ActionsOf(ledger[..|ledger| - 1], id) + if r.txId == id then [r.action] else []
  }

  /** The phases an intent with this status has been through. */
  function PhasesOf(status: Status): seq<Phase> {
    match status
    case Authorizing => [Opening]
    case Authorized => [Opening, Settling(true)]
    case Failed => [Opening, Settling(false)]
  }

  function Kinds(phases: seq<Phase>): seq<Kind> {
    seq(|phases|, i requires 0 <= i < |phases| => KindOf(phases[i]))
  }

  function Actions(phases: seq<Phase>): seq<string> {
    seq(|phases|, i requires 0 <= i < |phases| => ActionOf(phases[i]))
  }

  /** The events and the records of an intent, in order, are those of its phases. */
  ghost predicate InStepFor(db: Db, id: string)
    requires id in db.intents
  {
    && KindsOf(db.outbox, id) == Kinds(PhasesOf(db.intents[id].status))
    && ActionsOf(db.ledger, id) == Actions(PhasesOf(db.intents[id].status))
  }

  ghost predicate InStep(db: Db) {
    && (forall id :: id in db.intents ==> InStepFor(db, id))
    && (forall i :: 0 <= i < |db.outbox| ==> db.outbox[i].aggregateId in db.intents)
    && (forall i :: 0 <= i < |db.ledger| ==> db.ledger[i].txId in db.intents)
  }

  ghost predicate KeysUnique(db: Db) {
    && (forall a, b :: a in db.intents && b in db.intents && db.intents[a].request.key == db.intents[b].request.key ==>
          a == b)
    && DistinctIds(db.outbox)
  }

  predicate DistinctIds(outbox: seq<OutboxEvent>) {
    forall i, j :: 0 <= i < j < |outbox| ==> outbox[i].id != outbox[j].id
  }

  /** The record that opened an intent holds the intent's user, amount and target. */
  ghost predicate Recorded(enc: Encoding, db: Db) {
    forall i :: 0 <= i < |db.ledger| && db.ledger[i].action == ActionOf(Opening) ==>
      && db.ledger[i].txId in db.intents
      && db.ledger[i].payload == AuditPayload(enc, Opening, db.intents[db.ledger[i].txId].request)
  }

  ghost predicate Consistent(enc: Encoding, db: Db) {
    KeysUnique(db) && InStep(db) && Accepted(enc.h, db.ledger) && Clean(db.ledger) && Recorded(enc, db)
  }

  lemma {:induction false} NoneOf(db: Db, id: string)
    requires InStep(db) && id !in db.intents
    ensures KindsOf(db.outbox, id) == [] && ActionsOf(db.ledger, id) == []
  {
    NoKinds(db.outbox, id);
    NoActions(db.ledger, id);
  }

  lemma {:induction false} NoKinds(outbox: seq<OutboxEvent>, id: string)
    requires forall i :: 0 <= i < |outbox| ==> outbox[i].aggregateId != id
    ensures KindsOf(outbox, id) == []
  {
    if outbox != [] { NoKinds(outbox[..|outbox| - 1], id); }
  }

  lemma {:induction false} NoActions(ledger: seq<Record>, id: string)
    requires forall i :: 0 <= i < |ledger| ==> ledger[i].txId != id
    ensures ActionsOf(ledger, id) == []
  {
    if ledger != [] { NoActions(ledger[..|ledger| - 1], id); }
  }

  lemma Appended(db: Db, e: OutboxEvent, r: Record, id: string)
    ensures KindsOf(db.outbox + [e], id) == KindsOf(db.outbox, id) + if e.aggregateId == id then [e.kind] else []
    ensures ActionsOf(db.ledger + [r], id) == ActionsOf(db.ledger, id) + if r.txId == id then [r.action] else []
  {
  }

  lemma ActionsAreClean(phase: Phase)
    ensures BarFree(ActionOf(phase))
  {
  }

  lemma PhasesGrow(phase: Phase)
    ensures var earlier := if phase.Opening? then [] else [Opening];
            && PhasesOf(StatusAfter(phase)) == earlier + [phase]
            && Kinds(earlier + [phase]) == Kinds(earlier) + [KindOf(phase)]
            && Actions(earlier + [phase]) == Actions(earlier) + [ActionOf(phase)]
  {
  }

  lemma TransactKeepsIntent(enc: Encoding, db: Db, phase: Phase, id: string, request: Request, e: OutboxEvent,
                            r: Record)
    requires InStep(db) && Ready(db, phase, id, request)
    requires e.aggregateId == id && e.kind == KindOf(phase) && r.txId == id && r.action == ActionOf(phase)
    ensures InStepFor(Transact(db, phase, id, request, e, r), id)
  {
    Appended(db, e, r, id);
    PhasesGrow(phase);
    if phase.Opening? {
      NoneOf(db, id);
      assert Kinds([]) == [] && Actions([]) == [];
    } else {
      assert InStepFor(db, id);
      PhasesGrow(Opening);
    }
  }

  lemma TransactKeepsOthers(db: Db, phase: Phase, id: string, request: Request, e: OutboxEvent, r: Record,
                            other: string)
    requires other in db.intents && InStepFor(db, other) && other != id
    requires e.aggregateId == id && r.txId == id
    ensures InStepFor(Transact(db, phase, id, request, e, r), other)
  {
  }

  lemma TransactKeepsStep(enc: Encoding, db: Db, phase: Phase, id: string, request: Request, e: OutboxEvent, r: Record)
    requires InStep(db) && Ready(db, phase, id, request)
    requires FreshEvent(db, phase, id, e) && NextRecord(enc, db, phase, id, request, r)
    ensures InStep(Transact(db, phase, id, request, e, r))
  {
    var after := Transact(db, phase, id, request, e, r);
    forall other | other in after.intents ensures InStepFor(after, other) {
      if other == id {
        TransactKeepsIntent(enc, db, phase, id, request, e, r);
      } else {
        TransactKeepsOthers(db, phase, id, request, e, r, other);
      }
    }
  }

  lemma TransactKeepsKeys(db: Db, phase: Phase, id: string, request: Request, e: OutboxEvent, r: Record)
    requires KeysUnique(db) && Ready(db, phase, id, request) && FreshEvent(db, phase, id, e)
    ensures KeysUnique(Transact(db, phase, id, request, e, r))
  {
  }

  lemma TransactKeepsLedger(enc: Encoding, db: Db, phase: Phase, id: string, request: Request, r: Record)
    requires Accepted(enc.h, db.ledger) && Clean(db.ledger) && BarFree(id) && NextRecord(enc, db, phase, id, request, r)
    ensures Accepted(enc.h, db.ledger + [r]) && Clean(db.ledger + [r])
  {
    AcceptedSnoc(enc.h, db.ledger, r);
    ActionsAreClean(phase);
  }

  lemma ActionsDiffer(approved: bool)
    ensures ActionOf(Settling(approved)) != ActionOf(Opening)
  {
    assert ActionOf(Settling(approved))[0] == 'A' && ActionOf(Opening)[0] == 'I';
  }

  lemma TransactKeepsRecorded(enc: Encoding, db: Db, phase: Phase, id: string, request: Request, e: OutboxEvent,
                              r: Record)
    requires InStep(db) && Recorded(enc, db) && Ready(db, phase, id, request) &&
      NextRecord(enc, db, phase, id, request, r)
    ensures Recorded(enc, Transact(db, phase, id, request, e, r))
  {
    if phase.Settling? { ActionsDiffer(phase.approved); }
  }

  /** Either transaction of a transfer keeps the tables consistent. */
  lemma TransactKeepsConsistent(enc: Encoding, db: Db, phase: Phase, id: string, request: Request, e: OutboxEvent,
                                r: Record)
    requires Consistent(enc, db) && Ready(db, phase, id, request) && BarFree(id)
    requires FreshEvent(db, phase, id, e) && NextRecord(enc, db, phase, id, request, r)
    ensures Consistent(enc, Transact(db, phase, id, request, e, r))
  {
    TransactKeepsKeys(db, phase, id, request, e, r);
    TransactKeepsStep(enc, db, phase, id, request, e, r);
    TransactKeepsLedger(enc, db, phase, id, request, r);
    TransactKeepsRecorded(enc, db, phase, id, request, e, r);
  }

  lemma KindsTellStatus(status: Status)
    ensures status == Authorizing <==> Kinds(PhasesOf(status)) == [AuthStarted]
    ensures status == Authorized <==> Kinds(PhasesOf(status)) == [AuthStarted, AuthApproved]
    ensures status == Failed <==> Kinds(PhasesOf(status)) == [AuthStarted, AuthFailed]
  {
    var kinds := Kinds(PhasesOf(status));
    if |kinds| == 2 { assert kinds[1] == KindOf(PhasesOf(status)[1]); }
  }

  lemma ActionsTellStatus(status: Status)
    ensures status == Authorizing <==> Actions(PhasesOf(status)) == ["INTENT_CREATED"]
    ensures status == Authorized <==> Actions(PhasesOf(status)) == ["INTENT_CREATED", "AUTH_APPROVED"]
    ensures status == Failed <==> Actions(PhasesOf(status)) == ["INTENT_CREATED", "AUTH_FAILED"]
  {
    var actions := Actions(PhasesOf(status));
    assert |"AUTH_APPROVED"| != |"AUTH_FAILED"|;
    if |actions| == 2 { assert actions[1] == ActionOf(PhasesOf(status)[1]); }
  }

  /** What the outbox and the audit ledger say about an intent's status. */
  ghost predicate Story(db: Db, id: string)
    requires id in db.intents
  {
    var status := db.intents[id].status;
    && (status == Authorizing <==> KindsOf(db.outbox, id) == [AuthStarted])
    && (status == Authorized <==> KindsOf(db.outbox, id) == [AuthStarted, AuthApproved])
    && (status == Failed <==> KindsOf(db.outbox, id) == [AuthStarted, AuthFailed])
    && (status == Authorizing <==> ActionsOf(db.ledger, id) == ["INTENT_CREATED"])
    && (status == Authorized <==> ActionsOf(db.ledger, id) == ["INTENT_CREATED", "AUTH_APPROVED"])
    && (status == Failed <==> ActionsOf(db.ledger, id) == ["INTENT_CREATED", "AUTH_FAILED"])
  }

  /** Each status can be read off the outbox, and off the audit ledger. */
  lemma StatusFromEvents(db: Db, id: string)
    requires InStep(db) && id in db.intents
    ensures Story(db, id)
  {
    assert InStepFor(db, id);
    KindsTellStatus(db.intents[id].status);
    ActionsTellStatus(db.intents[id].status);
  }

  lemma {:induction false} RecordOf(ledger: seq<Record>, id: string, action: string) returns (i: nat)
    requires action in ActionsOf(ledger, id)
    ensures i < |ledger| && ledger[i].txId == id && ledger[i].action == action
  {
    var n := |ledger| - 1;
    if ledger[n].txId == id && ledger[n].action == action {
      i := n;
    } else {
      i := RecordOf(ledger[..n], id, action);
    }
  }

  /** What the audit ledger says about a payment. */
  predicate SamePayment(x: Intent, y: Intent) {
    && x.status == y.status
    && x.request.userId == y.request.userId && x.request.amount == y.request.amount &&
      x.request.target == y.request.target
  }

  /** Different users, amounts or targets serialize differently. */
  ghost predicate Faithful(enc: Encoding) {
    forall u, a, t, u', a', t' :: enc.opening(u, a, t) == enc.opening(u', a', t') ==> u == u' && a == a' && t == t'
  }

  lemma SameLedgerSamePayment(enc: Encoding, a: Db, b: Db, id: string)
    requires Faithful(enc) && InStep(a) && InStep(b) && Recorded(enc, a) && Recorded(enc, b)
    requires a.ledger == b.ledger && id in a.intents
    ensures id in b.intents && SamePayment(a.intents[id], b.intents[id])
  {
    assert InStepFor(a, id);
    assert Actions(PhasesOf(a.intents[id].status))[0] == ActionOf(Opening);
    if id !in b.intents {
      NoneOf(b, id);
    } else {
      StatusFromEvents(a, id);
      StatusFromEvents(b, id);
      var i := RecordOf(a.ledger, id, ActionOf(Opening));
      assert AuditPayload(enc, Opening, a.intents[id].request) == AuditPayload(enc, Opening, b.intents[id].request);
    }
  }

  lemma SameLedgerSamePayments(enc: Encoding, a: Db, b: Db)
    requires Faithful(enc) && InStep(a) && InStep(b) && Recorded(enc, a) && Recorded(enc, b) && a.ledger == b.ledger
    ensures a.intents.Keys == b.intents.Keys
    ensures forall id :: id in a.intents ==> SamePayment(a.intents[id], b.intents[id])
  {
    forall id | id in a.intents ensures id in b.intents && SamePayment(a.intents[id], b.intents[id]) {
      SameLedgerSamePayment(enc, a, b, id);
    }
    forall id | id in b.intents ensures id in a.intents {
      SameLedgerSamePayment(enc, b, a, id);
    }
  }

  /** The head of the audit ledger commits to the payments.  Two consistent
      databases whose ledgers end in the same hash hold the same payments: the
      same ids with the same user, amount, target and status; or a collision or
      a genesis preimage is exhibited.  (The idempotency key is not hashed.) */
  lemma SameAuditHeadSamePayments(enc: Encoding, a: Db, b: Db)
    requires Wide(enc.h) && Faithful(enc) && Consistent(enc, a) && Consistent(enc, b)
    requires Head(a.ledger) == Head(b.ledger)
    ensures var e := Compare(enc.h, a.ledger, b.ledger);
            && Genuine(enc.h, e)
            && (e.NoEvidence? ==>
                  && a.ledger == b.ledger && a.intents.Keys == b.intents.Keys
                  && forall id :: id in a.intents ==> SamePayment(a.intents[id], b.intents[id]))
  {
    SameHeadSameLedger(enc.h, a.ledger, b.ledger);
    if Compare(enc.h, a.ledger, b.ledger).NoEvidence? {
      SameLedgerSamePayments(enc, a, b);
    }
  }
}
