/** `handle_transfer` of core/gateway.py between the two layers: requests with
    one idempotency key run through the middleware, and those that execute call
    `authorize_transfer` with that key. */
module TransferEndpoint {
  import opened Hashing
  import opened Options
  import I = IdempotencyProtocol
  import AuditLedger
  import opened PaymentTables
  import P = PaymentProtocol
  import G = PaymentGuarantees
  import Progress = PaymentProgress

  /** The two layers' foreign functions, and the body of a successful answer:
      trace id, intent id and status. */
  datatype Setup = Setup(key: string, decode: I.Decoder, enc: Encoding, body: (string, string, Status) -> I.Bytes)

  /** `calls` says which connection runs the transfer of which request. */
  datatype State = State(idem: I.State, pay: P.State, calls: map<nat, nat>)

  const INITIAL := State(I.INITIAL, P.INITIAL, map[])

  datatype Event =
    | Middleware(i: I.Event)                                // any but an answer of the endpoint
    | Database(p: P.Event)                                  // any, of this key or others
    | Begin(w: nat, c: nat, id: string, request: Request)   // an executing request starts its transfer
    | Reply(w: nat, trace: string)                          // the transfer returned
    | Refuse(w: nat, response: I.Response)                  // 4xx before any transfer, or 5xx

  predicate Success(response: I.Response) {
    response.status == 200
  }

  predicate HasReturned(s: P.State, c: nat) {
    P.CallAt(s, c) && s.conns[c].pc.Returned?
  }

  predicate Enabled(u: Setup, s: State, e: Event) {
    match e
    case Middleware(i) => !i.Respond?
    case Database(_) => true
    case Begin(w, c, id, request) =>
      I.At(s.idem, w, I.Execute) && w !in s.calls && P.Enabled(s.pay, P.StartCall(c, id, request)) &&
        request.key == u.key
    case Reply(w, _) => I.At(s.idem, w, I.Execute) && w in s.calls && HasReturned(s.pay, s.calls[w])
    case Refuse(w, response) =>
      I.At(s.idem, w, I.Execute) && (response.status >= 500 || (w !in s.calls && response.status >= 400))
  }

  function Answer(u: Setup, s: State, w: nat, trace: string): I.Response
    requires w in s.calls && HasReturned(s.pay, s.calls[w])
  {
    var pc := s.pay.conns[s.calls[w]].pc;
    I.Response(200, u.body(trace, pc.intentId, pc.status))
  }

  function Step(u: Setup, s: State, e: Event): State {
    if !Enabled(u, s, e) then s
    else
      match e
      case Middleware(i) => s.(idem := I.Step(u.decode, s.idem, i))
      case Database(p) => s.(pay := P.Step(u.enc, s.pay, p))
      case Begin(w, c, id, request) =>
        s.(pay := P.Step(u.enc, s.pay, P.StartCall(c, id, request)), calls := s.calls[w := c])
      case Reply(w, trace) => s.(idem := I.Step(u.decode, s.idem, I.Respond(w, Answer(u, s, w, trace))))
      case Refuse(w, response) => s.(idem := I.Step(u.decode, s.idem, I.Respond(w, response)))
  }

  function Run(u: Setup, s: State, events: seq<Event>): State
    decreases |events|
  {
    if events == [] then s else Step(u, Run(u, s, events[..|events| - 1]), events[|events| - 1])
  }

  // ---------------------------------------------------------------- invariant

  /** The body tells trace, intent and status of what call c returned. */
  ghost predicate Tells(u: Setup, pay: P.State, c: nat, response: I.Response) {
    HasReturned(pay, c) &&
    exists trace :: response == I.Response(200, u.body(trace, pay.conns[c].pc.intentId, pay.conns[c].pc.status))
  }

  ghost predicate Truthful(u: Setup, s: State, w: nat, response: I.Response) {
    Success(response) ==> w in s.calls && Tells(u, s.pay, s.calls[w], response)
  }

  ghost predicate Inv(u: Setup, s: State) {
    && I.Inv(u.decode, s.idem)
    && P.Inv(u.enc, s.pay)
    && (forall w :: w in s.calls ==> P.CallAt(s.pay, s.calls[w]) && s.pay.conns[s.calls[w]].request.key == u.key)
    && (forall w :: w in s.idem.workers && s.idem.workers[w].pc.MarkCompleted? ==>
          Truthful(u, s, w, s.idem.workers[w].pc.response))
    && (forall i :: 0 <= i < |s.idem.completions| ==>
          Truthful(u, s, s.idem.completions[i].worker, s.idem.completions[i].response))
  }

  /** What the payment layer leaves alone in a call: its request, and an answer. */
  lemma CallsStay(enc: Encoding, s: P.State, e: P.Event, c: nat)
    requires P.CallAt(s, c)
    ensures var s' := P.Step(enc, s, e);
            && P.CallAt(s', c) && s'.conns[c].request == s.conns[c].request
            && (s.conns[c].pc.Returned? ==> s'.conns[c].pc == s.conns[c].pc)
  {
  }

  lemma TruthfulStays(u: Setup, s: State, e: P.Event, calls: map<nat, nat>, w: nat, response: I.Response)
    requires Truthful(u, s, w, response) && forall v :: v in s.calls ==> v in calls && calls[v] == s.calls[v]
    ensures Truthful(u, State(s.idem, P.Step(u.enc, s.pay, e), calls), w, response)
  {
    if Success(response) { CallsStay(u.enc, s.pay, e, s.calls[w]); }
  }

  lemma PayStepKeepsInv(u: Setup, s: State, e: P.Event, calls: map<nat, nat>)
    requires Inv(u, s) && forall w :: w in s.calls ==> w in calls && calls[w] == s.calls[w]
    requires var pay := P.Step(u.enc, s.pay, e);
             forall w :: w in calls && w !in s.calls ==>
               P.CallAt(pay, calls[w]) && pay.conns[calls[w]].request.key == u.key
    ensures Inv(u, State(s.idem, P.Step(u.enc, s.pay, e), calls))
  {
    var s' := State(s.idem, P.Step(u.enc, s.pay, e), calls);
    P.StepKeepsInv(u.enc, s.pay, e);
    forall w | w in calls ensures P.CallAt(s'.pay, calls[w]) && s'.pay.conns[calls[w]].request.key == u.key {
      if w in s.calls { CallsStay(u.enc, s.pay, e, s.calls[w]); }
    }
    forall w | w in s.idem.workers && s.idem.workers[w].pc.MarkCompleted?
      ensures Truthful(u, s', w, s.idem.workers[w].pc.response)
    {
      TruthfulStays(u, s, e, calls, w, s.idem.workers[w].pc.response);
    }
    forall i | 0 <= i < |s.idem.completions|
      ensures Truthful(u, s', s.idem.completions[i].worker, s.idem.completions[i].response)
    {
      TruthfulStays(u, s, e, calls, s.idem.completions[i].worker, s.idem.completions[i].response);
    }
  }

  /** Where an answer can come from in the middleware. */
  lemma ResponsesStay(decode: I.Decoder, s: I.State, e: I.Event)
    ensures var s' := I.Step(decode, s, e);
            && (forall w :: w in s'.workers && s'.workers[w].pc.MarkCompleted? ==>
                  || (w in s.workers && s.workers[w].pc == s'.workers[w].pc)
                  || e == I.Respond(w, s'.workers[w].pc.response))
            && (forall i :: 0 <= i < |s'.completions| ==>
                  || (i < |s.completions| && s'.completions[i] == s.completions[i])
                  || (&& s'.completions[i].worker in s.workers
                      && s.workers[s'.completions[i].worker].pc == I.MarkCompleted(s'.completions[i].response)))
  {
  }

  lemma IdemStepKeepsInv(u: Setup, s: State, e: I.Event)
    requires Inv(u, s) && (e.Respond? ==> Truthful(u, s, e.w, e.response))
    ensures Inv(u, s.(idem := I.Step(u.decode, s.idem, e)))
  {
    I.StepKeepsInv(u.decode, s.idem, e);
    ResponsesStay(u.decode, s.idem, e);
  }

  lemma StepKeepsInv(u: Setup, s: State, e: Event)
    requires Inv(u, s)
    ensures Inv(u, Step(u, s, e))
  {
    if Enabled(u, s, e) {
      match e {
        case Middleware(i) => IdemStepKeepsInv(u, s, i);
        case Database(p) => PayStepKeepsInv(u, s, p, s.calls);
        case Begin(w, c, id, request) => PayStepKeepsInv(u, s, P.StartCall(c, id, request), s.calls[w := c]);
        case Reply(w, trace) => IdemStepKeepsInv(u, s, I.Respond(w, Answer(u, s, w, trace)));
        case Refuse(w, response) => IdemStepKeepsInv(u, s, I.Respond(w, response));
      }
    }
  }

  lemma {:induction false} RunKeepsInv(u: Setup, s: State, events: seq<Event>)
    requires Inv(u, s)
    ensures Inv(u, Run(u, s, events))
    decreases |events|
  {
    if events != [] {
      RunKeepsInv(u, s, events[..|events| - 1]);
      StepKeepsInv(u, Run(u, s, events[..|events| - 1]), events[|events| - 1]);
    }
  }

  // ----------------------------------------------------------------- theorems

  /** The answer names intent `id`, which has the key, and tells its status or
      AUTHORIZING. */
  ghost predicate Names(u: Setup, db: Db, id: string, answer: (nat, string)) {
    && id in db.intents && db.intents[id].request.key == u.key
    && exists trace, status ::
         && answer == (200, u.decode(u.body(trace, id, status)))
         && (status == Authorizing || status == db.intents[id].status)
  }

  lemma TellsNames(u: Setup, s: State, w: nat, response: I.Response)
    requires Inv(u, s) && Success(response) && Truthful(u, s, w, response)
    ensures Names(u, s.pay.db, s.pay.conns[s.calls[w]].pc.intentId, (response.status, u.decode(response.body)))
  {
    var c := s.calls[w];
    var trace :| response == I.Response(200, u.body(trace, s.pay.conns[c].pc.intentId, s.pay.conns[c].pc.status));
    assert P.CallFits(s.pay.db, s.pay.writer == Some(c), s.pay.conns[c]);
  }

  /** One key, one intent, through both layers.  Under any interleaving, crash,
      retry and lost reply, every successful answer that any request with the key
      ever gets, executed or replayed, names the one intent with that key. */
  lemma AnswersNameTheIntent(u: Setup, events: seq<Event>, w: nat)
    requires var s := Run(u, INITIAL, events);
             && w in s.idem.workers && I.Answer(u.decode, s.idem.workers[w].pc).Some?
             && I.Answer(u.decode, s.idem.workers[w].pc).value.0 == 200
    ensures var s := Run(u, INITIAL, events);
            exists id ::
              && Names(u, s.pay.db, id, I.Answer(u.decode, s.idem.workers[w].pc).value)
              && forall other :: other in s.pay.db.intents && s.pay.db.intents[other].request.key == u.key ==>
                other == id
  {
    G.InitialInv(u.enc);
    RunKeepsInv(u, INITIAL, events);
    var s := Run(u, INITIAL, events);
    I.InvLogsAnswers(u.decode, s.idem, w);
    var done := s.idem.completions[0];
    TellsNames(u, s, done.worker, done.response);
    var id := s.pay.conns[s.calls[done.worker]].pc.intentId;
    assert Names(u, s.pay.db, id, I.Answer(u.decode, s.idem.workers[w].pc).value);
  }

  // ------------------------------------------------- when AUTHORIZING is cached

  predicate ReturnedOpen(s: P.State, c: nat) {
    HasReturned(s, c) && s.conns[c].pc.status == Authorizing
  }

  /** Call c finds the key's intent while it is not yet settled. */
  predicate FindsOpen(u: Setup, s: State, e: Event, c: nat) {
    && e.Database? && e.p.LookupKey? && e.p.c == c && P.Enabled(s.pay, e.p)
    && KeyTaken(s.pay.db, s.pay.conns[c].request.key) && s.pay.db.intents[e.p.found].status == Authorizing
  }

  predicate EverFindsOpen(u: Setup, events: seq<Event>, c: nat) {
    events != [] &&
    (EverFindsOpen(u, events[..|events| - 1], c) ||
      FindsOpen(u, Run(u, INITIAL, events[..|events| - 1]), events[|events| - 1], c))
  }

  lemma ReturnsOpenStep(enc: Encoding, s: P.State, e: P.Event, c: nat)
    ensures ReturnedOpen(P.Step(enc, s, e), c) <==>
      || ReturnedOpen(s, c)
      || (&& e.LookupKey? && e.c == c && P.Enabled(s, e)
          && KeyTaken(s.db, s.conns[c].request.key) && s.db.intents[e.found].status == Authorizing)
  {
    if ReturnedOpen(s, c) { CallsStay(enc, s, e, c); }
  }

  lemma {:induction false} ReturnsOpenIffFound(u: Setup, events: seq<Event>, c: nat)
    ensures ReturnedOpen(Run(u, INITIAL, events).pay, c) <==> EverFindsOpen(u, events, c)
  {
    if events != [] {
      var earlier, last := events[..|events| - 1], events[|events| - 1];
      var s := Run(u, INITIAL, earlier);
      ReturnsOpenIffFound(u, earlier, c);
      if Enabled(u, s, last) && last.Database? {
        ReturnsOpenStep(u.enc, s.pay, last.p, c);
      } else if Enabled(u, s, last) && last.Begin? {
        ReturnsOpenStep(u.enc, s.pay, P.StartCall(last.c, last.id, last.request), c);
      }
    }
  }

  /** What the cache tells, exactly: intent and status that the transfer of the
      one executed request returned.  The status is AUTHORIZING if and only if
      that transfer found the key taken by an intent not yet settled: a retry
      after a transfer that had failed or was still running. */
  lemma CachedOpenIffFoundOpen(u: Setup, events: seq<Event>)
    requires var s := Run(u, INITIAL, events); I.IsCompleted(s.idem.record) && s.idem.record.value.status == 200
    ensures var s := Run(u, INITIAL, events);
            && |s.idem.completions| == 1 && s.idem.completions[0].worker in s.calls
            && var c := s.calls[s.idem.completions[0].worker];
               && Tells(u, s.pay, c, s.idem.completions[0].response)
               && s.idem.record.value.text == u.decode(s.idem.completions[0].response.body)
               && (s.pay.conns[c].pc.status == Authorizing <==> EverFindsOpen(u, events, c))
  {
    G.InitialInv(u.enc);
    RunKeepsInv(u, INITIAL, events);
    var s := Run(u, INITIAL, events);
    ReturnsOpenIffFound(u, events, s.calls[s.idem.completions[0].worker]);
  }

  lemma {:induction false} RunAppend(u: Setup, s: State, first: seq<Event>, second: seq<Event>)
    ensures Run(u, s, first + second) == Run(u, Run(u, s, first), second)
    decreases |second|
  {
    if second == [] {
      assert first + second == first;
    } else {
      var n := |second| - 1;
      RunAppend(u, s, first, second[..n]);
      assert (first + second)[..|first + second| - 1] == first + second[..n];
    }
  }

  lemma {:induction false} RecordStays(u: Setup, s: State, events: seq<Event>)
    requires Inv(u, s)
    ensures I.RecordEvolves(s.idem.record, Run(u, s, events).idem.record)
    decreases |events|
  {
    if events != [] {
      var before, last := Run(u, s, events[..|events| - 1]), events[|events| - 1];
      RecordStays(u, s, events[..|events| - 1]);
      RunKeepsInv(u, s, events[..|events| - 1]);
      StepEvolvesRecord(u, before, last);
    }
  }

  lemma StepEvolvesRecord(u: Setup, s: State, e: Event)
    requires Inv(u, s)
    ensures I.RecordEvolves(s.idem.record, Step(u, s, e).idem.record)
  {
    if Enabled(u, s, e) {
      match e {
        case Middleware(i) => I.StepKeepsInv(u.decode, s.idem, i);
        case Reply(w, trace) => I.StepKeepsInv(u.decode, s.idem, I.Respond(w, Answer(u, s, w, trace)));
        case Refuse(w, response) => I.StepKeepsInv(u.decode, s.idem, I.Respond(w, response));
        case _ =>
      }
    }
  }

  /** And it tells that for good: whatever becomes of the intent, no later event
      changes the cached answer. */
  lemma CachedForGood(u: Setup, earlier: seq<Event>, later: seq<Event>)
    requires I.IsCompleted(Run(u, INITIAL, earlier).idem.record)
    ensures Run(u, INITIAL, earlier + later).idem.record == Run(u, INITIAL, earlier).idem.record
  {
    G.InitialInv(u.enc);
    RunKeepsInv(u, INITIAL, earlier);
    RunAppend(u, INITIAL, earlier, later);
    RecordStays(u, Run(u, INITIAL, earlier), later);
  }

  // ---------------------------------------- a run that caches AUTHORIZING for good

  function MiddlewareEvents(events: seq<I.Event>): seq<Event> {
    seq(|events|, k requires 0 <= k < |events| => Middleware(events[k]))
  }

  function DatabaseEvents(events: seq<P.Event>): seq<Event> {
    seq(|events|, k requires 0 <= k < |events| => Database(events[k]))
  }

  lemma {:induction false} MiddlewareRun(u: Setup, s: State, events: seq<I.Event>)
    requires forall k :: 0 <= k < |events| ==> !events[k].Respond?
    ensures Run(u, s, MiddlewareEvents(events)) == s.(idem := I.Run(u.decode, s.idem, events))
    decreases |events|
  {
    if events != [] {
      var n := |events| - 1;
      MiddlewareRun(u, s, events[..n]);
      assert MiddlewareEvents(events)[..n] == MiddlewareEvents(events[..n]);
    }
  }

  lemma {:induction false} DatabaseRun(u: Setup, s: State, events: seq<P.Event>)
    ensures Run(u, s, DatabaseEvents(events)) == s.(pay := P.Run(u.enc, s.pay, events))
    decreases |events|
  {
    if events != [] {
      var n := |events| - 1;
      DatabaseRun(u, s, events[..n]);
      assert DatabaseEvents(events)[..n] == DatabaseEvents(events[..n]);
    }
  }

  lemma RunOne(u: Setup, s: State, e: Event)
    ensures Run(u, s, [e]) == Step(u, s, e)
  {
    assert [e][..0] == [];
  }

  /** Request w arrives, finds the lock free and no answer, and executes. */
  function Enters(w: nat, payloadHash: string): seq<I.Event> {
    [I.Arrive(w, payloadHash), I.Poll(w), I.ReadRecord(w), I.WriteStarted(w)]
  }

  lemma EntersSteps(decode: I.Decoder, s: I.State, w: nat, p: string)
    requires w !in s.workers && !s.lock && (s.record == None || s.record == Some(I.Started(p)))
    ensures var polled := I.Step(decode, I.Step(decode, s, I.Arrive(w, p)), I.Poll(w));
            I.Step(decode, I.Step(decode, polled, I.ReadRecord(w)), I.WriteStarted(w)) ==
            I.State(true, Some(I.Started(p)), s.workers[w := I.Worker(p, true, I.Execute)], s.completions)
  {
    var s1 := I.Step(decode, s, I.Arrive(w, p));
    assert s1 == I.State(false, s.record, s.workers[w := I.Worker(p, false, I.TryLock)], s.completions);
    var s2 := I.Step(decode, s1, I.Poll(w));
    assert s2 == I.State(true, s.record, s.workers[w := I.Worker(p, true, I.CheckRecord)], s.completions);
    var s3 := I.Step(decode, s2, I.ReadRecord(w));
    assert s3 == I.State(true, s.record, s.workers[w := I.Worker(p, true, I.MarkStarted)], s.completions);
  }

  lemma RunFour(decode: I.Decoder, s: I.State, a: I.Event, b: I.Event, c: I.Event, d: I.Event)
    ensures I.Run(decode, s, [a, b, c, d]) ==
            I.Step(decode, I.Step(decode, I.Step(decode, I.Step(decode, s, a), b), c), d)
  {
    assert [a, b, c, d][..3] == [a, b, c] && [a, b, c][..2] == [a, b] && [a, b][..1] == [a] && [a][..0] == [];
    assert I.Run(decode, s, [a]) == I.Step(decode, s, a);
    assert I.Run(decode, s, [a, b]) == I.Step(decode, I.Run(decode, s, [a]), b);
    assert I.Run(decode, s, [a, b, c]) == I.Step(decode, I.Run(decode, s, [a, b]), c);
  }

  lemma EntersRuns(decode: I.Decoder, s: I.State, w: nat, p: string)
    requires w !in s.workers && !s.lock && (s.record == None || s.record == Some(I.Started(p)))
    ensures I.Run(decode, s, Enters(w, p)) ==
            I.State(true, Some(I.Started(p)), s.workers[w := I.Worker(p, true, I.Execute)], s.completions)
  {
    RunFour(decode, s, I.Arrive(w, p), I.Poll(w), I.ReadRecord(w), I.WriteStarted(w));
    EntersSteps(decode, s, w, p);
  }

  /** Request w enters and starts a transfer on connection w. */
  function EntersAndBegins(w: nat, p: string, id: string, request: Request): seq<Event> {
    MiddlewareEvents(Enters(w, p)) + [Begin(w, w, id, request)]
  }

  lemma EntersAndBeginsRuns(u: Setup, s: State, w: nat, p: string, id: string, request: Request)
    requires w !in s.idem.workers && !s.idem.lock && (s.idem.record == None || s.idem.record == Some(I.Started(p)))
    requires w !in s.calls && w !in s.pay.conns && AuditLedger.BarFree(id) && request.key == u.key
    ensures Run(u, s, EntersAndBegins(w, p, id, request)) ==
            State(I.State(true, Some(I.Started(p)), s.idem.workers[w := I.Worker(p, true, I.Execute)],
              s.idem.completions),
                  P.Step(u.enc, s.pay, P.StartCall(w, id, request)), s.calls[w := w])
  {
    RunAppend(u, s, MiddlewareEvents(Enters(w, p)), [Begin(w, w, id, request)]);
    MiddlewareRun(u, s, Enters(w, p));
    EntersRuns(u.decode, s.idem, w, p);
    RunOne(u, Run(u, s, MiddlewareEvents(Enters(w, p))), Begin(w, w, id, request));
  }

  /** The first request dies while the bank is asked, with its connection. */
  function FirstDies(p: string, id: string, request: Request, eventId: string, payload: string): seq<Event> {
    EntersAndBegins(0, p, id, request) +
    DatabaseEvents(Progress.OpeningEvents(0, id, request, eventId, payload)[1..] + [P.Crash(0)]) +
    MiddlewareEvents([I.Crash(0), I.Expire])
  }

  lemma OpeningAfterStart(enc: Encoding, id: string, request: Request, eventId: string, payload: string)
    requires AuditLedger.BarFree(id)
    ensures var started := P.Step(enc, P.INITIAL, P.StartCall(0, id, request));
            var s := P.Run(enc, started, Progress.OpeningEvents(0, id, request, eventId, payload)[1..]);
            && s.db == Progress.OpenedDb(enc, id, request, eventId, payload)
            && s.writer == None && s.conns == map[0 := P.Call(id, request, P.Bank)]
  {
    var e := Progress.OpeningEvents(0, id, request, eventId, payload);
    Progress.OpeningRuns(enc, id, request, eventId, payload);
    G.RunAppend(enc, P.INITIAL, [e[0]], e[1..]);
    Progress.RunOne(enc, P.INITIAL, e[0]);
    assert [e[0]] + e[1..] == e;
  }

  lemma CrashAtBank(enc: Encoding, s: P.State, events: seq<P.Event>, id: string, request: Request)
    requires var atBank := P.Run(enc, s, events);
             atBank.writer == None && atBank.conns == map[0 := P.Call(id, request, P.Bank)]
    ensures var atBank, s' := P.Run(enc, s, events), P.Run(enc, s, events + [P.Crash(0)]);
            s'.db == atBank.db && s'.writer == None && s'.conns == map[0 := P.Call(id, request, P.Lost)]
  {
    G.RunAppend(enc, s, events, [P.Crash(0)]);
    Progress.RunOne(enc, P.Run(enc, s, events), P.Crash(0));
  }

  lemma FirstDiesRuns(u: Setup, p: string, id: string, request: Request, eventId: string, payload: string)
    requires AuditLedger.BarFree(id) && request.key == u.key
    ensures var s := Run(u, INITIAL, FirstDies(p, id, request, eventId, payload));
            && s.idem == I.State(false, Some(I.Started(p)), map[0 := I.Worker(p, true, I.Crashed)], [])
            && s.pay.db == Progress.OpenedDb(u.enc, id, request, eventId, payload)
            && s.pay.writer == None && s.pay.conns == map[0 := P.Call(id, request, P.Lost)]
            && s.calls == map[0 := 0]
  {
    var enters := EntersAndBegins(0, p, id, request);
    var statements := Progress.OpeningEvents(0, id, request, eventId, payload)[1..] + [P.Crash(0)];
    var dies := [I.Crash(0), I.Expire];
    RunAppend(u, INITIAL, enters + DatabaseEvents(statements), MiddlewareEvents(dies));
    RunAppend(u, INITIAL, enters, DatabaseEvents(statements));
    EntersAndBeginsRuns(u, INITIAL, 0, p, id, request);
    DatabaseRun(u, Run(u, INITIAL, enters), statements);
    OpeningAfterStart(u.enc, id, request, eventId, payload);
    CrashAtBank(u.enc, Run(u, INITIAL, enters).pay, Progress.OpeningEvents(0, id, request, eventId, payload)[1..],
      id, request);
    MiddlewareRun(u, Run(u, INITIAL, enters + DatabaseEvents(statements)), dies);
    DiesRuns(u.decode, p);
  }

  lemma DiesRuns(decode: I.Decoder, p: string)
    ensures I.Run(decode, I.State(true, Some(I.Started(p)), map[0 := I.Worker(p, true, I.Execute)], []),
      [I.Crash(0), I.Expire]) ==
            I.State(false, Some(I.Started(p)), map[0 := I.Worker(p, true, I.Crashed)], [])
  {
    var s := I.State(true, Some(I.Started(p)), map[0 := I.Worker(p, true, I.Execute)], []);
    var s1 := I.Step(decode, s, I.Crash(0));
    assert s1 == I.State(true, Some(I.Started(p)), map[0 := I.Worker(p, true, I.Crashed)], []);
    assert [I.Crash(0), I.Expire][..1] == [I.Crash(0)] && [I.Crash(0)][..0] == [];
    assert I.Run(decode, s, [I.Crash(0)]) == s1;
  }

  /** The retry: its INSERT violates the key, and the lookup finds the intent. */
  function RetryAnswers(p: string, id: string, other: string, request: Request, trace: string): seq<Event> {
    EntersAndBegins(1, p, other, request) +
    DatabaseEvents([P.WriteFirst(1), P.RollbackCall(1), P.LookupKey(1, id)]) +
    [Reply(1, trace)] + MiddlewareEvents([I.WriteCompleted(1)])
  }

  lemma LookupRuns(enc: Encoding, s: P.State, id: string, request: Request)
    requires 1 in s.conns && s.conns[1].Call? && s.conns[1].pc == P.Write(Opening) && s.conns[1].request == request
    requires s.writer == None && id in s.db.intents && s.db.intents[id] == Intent(request, Authorizing)
    ensures var s' := P.Run(enc, s, [P.WriteFirst(1), P.RollbackCall(1), P.LookupKey(1, id)]);
            s'.db == s.db && P.CallAt(s', 1) && s'.conns == s.conns[1 := s.conns[1].(pc := P.Returned(id, Authorizing))]
  {
    assert KeyTaken(s.db, request.key);
    var s1 := P.Step(enc, s, P.WriteFirst(1));
    assert s1.conns == s.conns[1 := s.conns[1].(pc := P.Rollback(Opening))] && s1.db == s.db;
    var s2 := P.Step(enc, s1, P.RollbackCall(1));
    assert s2.conns == s.conns[1 := s.conns[1].(pc := P.Lookup)] && s2.db == s.db;
    var e := [P.WriteFirst(1), P.RollbackCall(1), P.LookupKey(1, id)];
    assert e[..2][..1] == e[..1] && e[..1][..0] == [];
    assert P.Run(enc, s, e[..1]) == s1 && P.Run(enc, s, e[..2]) == s2;
  }

  lemma ReplyRuns(u: Setup, s: State, p: string, id: string, trace: string)
    requires I.At(s.idem, 1, I.Execute) && s.idem.workers[1].payloadHash == p
    requires 1 in s.calls && s.calls[1] == 1 && HasReturned(s.pay, 1) &&
      s.pay.conns[1].pc == P.Returned(id, Authorizing)
    ensures var s' := Run(u, s, [Reply(1, trace)] + MiddlewareEvents([I.WriteCompleted(1)]));
            && s'.idem.record == Some(I.Completed(p, 200, u.decode(u.body(trace, id, Authorizing))))
            && s'.pay == s.pay
  {
    RunAppend(u, s, [Reply(1, trace)], MiddlewareEvents([I.WriteCompleted(1)]));
    RunOne(u, s, Reply(1, trace));
    var replied := Step(u, s, Reply(1, trace));
    assert replied.idem.workers[1] ==
      s.idem.workers[1].(pc := I.MarkCompleted(I.Response(200, u.body(trace, id, Authorizing))));
    MiddlewareRun(u, replied, [I.WriteCompleted(1)]);
    assert [I.WriteCompleted(1)][..0] == [];
  }

  /** What the retry meets: the first request is dead, its intent open. */
  predicate FirstIsDead(s: State, p: string, id: string, request: Request) {
    && s.idem == I.State(false, Some(I.Started(p)), map[0 := I.Worker(p, true, I.Crashed)], [])
    && 1 !in s.pay.conns && 1 !in s.calls && s.pay.writer == None
    && id in s.pay.db.intents && s.pay.db.intents[id] == Intent(request, Authorizing)
  }

  lemma RetryFinds(u: Setup, s: State, p: string, id: string, other: string, request: Request)
    requires AuditLedger.BarFree(other) && request.key == u.key && FirstIsDead(s, p, id, request)
    ensures var s' := Run(u, s, EntersAndBegins(1, p, other, request) +
                                DatabaseEvents([P.WriteFirst(1), P.RollbackCall(1), P.LookupKey(1, id)]));
            && I.At(s'.idem, 1, I.Execute) && s'.idem.workers[1].payloadHash == p
            && 1 in s'.calls && s'.calls[1] == 1 && s'.pay.db == s.pay.db
            && s'.pay.conns == s.pay.conns[1 := P.Call(other, request, P.Returned(id, Authorizing))]
  {
    var enters := EntersAndBegins(1, p, other, request);
    var lookup := [P.WriteFirst(1), P.RollbackCall(1), P.LookupKey(1, id)];
    RunAppend(u, s, enters, DatabaseEvents(lookup));
    EntersAndBeginsRuns(u, s, 1, p, other, request);
    DatabaseRun(u, Run(u, s, enters), lookup);
    LookupRuns(u.enc, Run(u, s, enters).pay, id, request);
  }

  lemma RetryAnswersRuns(u: Setup, s: State, p: string, id: string, other: string, request: Request, trace: string)
    requires AuditLedger.BarFree(other) && request.key == u.key && FirstIsDead(s, p, id, request)
    ensures var s' := Run(u, s, RetryAnswers(p, id, other, request, trace));
            && s'.idem.record == Some(I.Completed(p, 200, u.decode(u.body(trace, id, Authorizing))))
            && s'.pay.db == s.pay.db
            && s'.pay.conns == s.pay.conns[1 := P.Call(other, request, P.Returned(id, Authorizing))]
  {
    RetryFinds(u, s, p, id, other, request);
    var finds := EntersAndBegins(1, p, other, request) +
                 DatabaseEvents([P.WriteFirst(1), P.RollbackCall(1), P.LookupKey(1, id)]);
    var reply := [Reply(1, trace)] + MiddlewareEvents([I.WriteCompleted(1)]);
    ReplyRuns(u, Run(u, s, finds), p, id, trace);
    RunAppend(u, s, finds, reply);
    assert RetryAnswers(p, id, other, request, trace) == finds + reply;
  }

  /** A request dies between its two transactions; the client retries with the
      same key and payload, and is told AUTHORIZING.  That answer is cached, and
      the intent is abandoned: neither the cache nor the database ever tells
      anything else, whatever happens afterwards. */
  lemma RetryCachesAuthorizing(u: Setup, p: string, id: string, other: string, request: Request, eventId: string,
                               payload: string, trace: string, later: seq<Event>)
    requires AuditLedger.BarFree(id) && AuditLedger.BarFree(other) && request.key == u.key
    ensures var events := FirstDies(p, id, request, eventId, payload) + RetryAnswers(p, id, other, request, trace);
            var s := Run(u, INITIAL, events + later);
            && s.idem.record == Some(I.Completed(p, 200, u.decode(u.body(trace, id, Authorizing))))
            && Progress.Abandoned(s.pay, id)
  {
    var first := FirstDies(p, id, request, eventId, payload);
    var events := first + RetryAnswers(p, id, other, request, trace);
    FirstDiesRuns(u, p, id, request, eventId, payload);
    RunAppend(u, INITIAL, first, RetryAnswers(p, id, other, request, trace));
    RetryAnswersRuns(u, Run(u, INITIAL, first), p, id, other, request, trace);
    var s := Run(u, INITIAL, events);
    assert Progress.Abandoned(s.pay, id);
    CachedForGood(u, events, later);
    G.InitialInv(u.enc);
    RunKeepsInv(u, INITIAL, events);
    RunAppend(u, INITIAL, events, later);
    AbandonedPersists(u, s, later, id);
  }

  lemma {:induction false} AbandonedPersists(u: Setup, s: State, events: seq<Event>, id: string)
    requires Inv(u, s) && Progress.Abandoned(s.pay, id)
    ensures Progress.Abandoned(Run(u, s, events).pay, id)
    decreases |events|
  {
    if events != [] {
      var before, last := Run(u, s, events[..|events| - 1]), events[|events| - 1];
      AbandonedPersists(u, s, events[..|events| - 1], id);
      RunKeepsInv(u, s, events[..|events| - 1]);
      AbandonedStep(u, before, last, id);
    }
  }

  lemma AbandonedStep(u: Setup, s: State, e: Event, id: string)
    requires Inv(u, s) && Progress.Abandoned(s.pay, id)
    ensures Progress.Abandoned(Step(u, s, e).pay, id)
  {
    if e.Database? {
      Progress.AbandonedStep(u.enc, s.pay, e.p, id);
    } else if e.Begin? {
      Progress.AbandonedStep(u.enc, s.pay, P.StartCall(e.c, e.id, e.request), id);
    }
  }
}
