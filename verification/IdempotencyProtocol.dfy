/** The idempotency protocol of core/idempotency.py for one key: a lock and a
    record in Redis, and any number of concurrent requests.

    Every Redis call is atomic, so one event is one await of one request, or a
    crash, an exception, or the expiry of the lock.  The lock names no owner:
    `ReleaseLock` deletes whatever lock is there.
 */
module IdempotencyProtocol {
  import opened Options

  newtype Byte = x: int | 0 <= x < 256
  type Bytes = seq<Byte>

  /** Decoding of a response body for the cache; invalid bytes are dropped. */
  type Decoder = Bytes -> string

  datatype Response = Response(status: nat, body: Bytes)

  datatype Record =
    | Started(payloadHash: string)
    | Completed(payloadHash: string, status: nat, text: string)

  datatype Result =
    | Fresh(response: Response)             // answer of this request's own execution
    | Replayed(status: nat, text: string)   // cached answer
    | Mismatch                              // 409
    | TimedOut                              // 408
    | Raised                                // an exception escapes

  datatype Pc =
    | TryLock
    | ReadHeld
    | CheckRecord
    | MarkStarted
    | Execute
    | MarkCompleted(response: Response)
    | Release(result: Result)
    | Done(result: Result)
    | Crashed

  datatype Worker = Worker(payloadHash: string, acquired: bool, pc: Pc)

  /** One COMPLETED write: which request executed, and what it answered. */
  datatype Completion = Completion(worker: nat, payloadHash: string, response: Response)

  datatype State = State(lock: bool, record: Option<Record>, workers: map<nat, Worker>,
                         completions: seq<Completion>)

  const INITIAL := State(false, None, map[], [])

  datatype Event =
    | Arrive(w: nat, payloadHash: string)
    | Poll(w: nat)                          // SET NX
    | ReadBehindLock(w: nat, late: bool)    // GET, then the MAX_WAIT_TIME test
    | ReadRecord(w: nat)
    | WriteStarted(w: nat)
    | Respond(w: nat, response: Response)
    | WriteCompleted(w: nat)
    | DeleteLock(w: nat)
    | Fail(w: nat, applied: bool)           // an exception, before or after the effect
    | Crash(w: nat)
    | Expire                                // LOCK_TTL runs out

  /** Between the end of the wait loop and the end of `finally`. */
  predicate InTry(pc: Pc) {
    pc.CheckRecord? || pc.MarkStarted? || pc.Execute? || pc.MarkCompleted? || pc.Release?
  }

  predicate IsCompleted(record: Option<Record>) {
    record.Some? && record.value.Completed?
  }

  /** The lock of a request that is still running does not run out before the
      record is COMPLETED. */
  predicate MayExpire(s: State) {
    IsCompleted(s.record) || forall w :: w in s.workers ==> !InTry(s.workers[w].pc)
  }

  predicate At(s: State, w: nat, pc: Pc) {
    w in s.workers && s.workers[w].pc == pc
  }

  predicate Enabled(s: State, e: Event) {
    match e
    case Arrive(w, _) => w !in s.workers
    case Poll(w) => At(s, w, TryLock)
    case ReadBehindLock(w, _) => At(s, w, ReadHeld)
    case ReadRecord(w) => At(s, w, CheckRecord)
    case WriteStarted(w) => At(s, w, MarkStarted)
    case Respond(w, _) => At(s, w, Execute)
    case WriteCompleted(w) => w in s.workers && s.workers[w].pc.MarkCompleted?
    case DeleteLock(w) => w in s.workers && s.workers[w].pc.Release?
    case Fail(w, _) => w in s.workers && !s.workers[w].pc.Done? && !s.workers[w].pc.Crashed?
    case Crash(w) => w in s.workers && !s.workers[w].pc.Done?
    case Expire => s.lock && MayExpire(s)
  }

  function Goto(s: State, w: nat, pc: Pc): State
    requires w in s.workers
  {
    s.(workers := s.workers[w := s.workers[w].(pc := pc)])
  }

  function Complete(decode: Decoder, s: State, w: nat): State
    requires w in s.workers && s.workers[w].pc.MarkCompleted?
  {
    var r := s.workers[w].pc.response;
    var hash := s.workers[w].payloadHash;
    s.(record := Some(Completed(hash, r.status, decode(r.body))),
       completions := s.completions + [Completion(w, hash, r)])
  }

  function AfterPoll(s: State, w: nat): State
    requires w in s.workers
  {
    if s.lock then Goto(s, w, ReadHeld)
    else s.(lock := true, workers := s.workers[w := Worker(s.workers[w].payloadHash, true, CheckRecord)])
  }

  function AfterRead(s: State, w: nat): Pc
    requires w in s.workers
  {
    match s.record
    case None => MarkStarted
    case Some(r) =>
      if r.payloadHash != s.workers[w].payloadHash then Release(Mismatch)
      else if r.Completed? then Release(Replayed(r.status, r.text))
      else MarkStarted  // the previous holder died; run again
  }

  /** An exception at the current await.  Before `try` it ends the request;
      inside `try` it runs `finally`; from `finally` itself it ends the request. */
  function AfterFail(decode: Decoder, s: State, w: nat, applied: bool): State
    requires w in s.workers
  {
    match s.workers[w].pc
    case TryLock => Goto(s, w, Done(Raised)).(lock := s.lock || applied)
    case ReadHeld => Goto(s, w, Done(Raised))
    case CheckRecord => Goto(s, w, Release(Raised))
    case MarkStarted =>
      var s' := Goto(s, w, Release(Raised));
      if applied then s'.(record := Some(Started(s.workers[w].payloadHash))) else s'
    case Execute => Goto(s, w, Release(Raised))
    case MarkCompleted(_) => Goto(if applied then Complete(decode, s, w) else s, w, Release(Raised))
    case Release(_) => Goto(s, w, Done(Raised)).(lock := s.lock && !applied)
    case Done(_) => s
    case Crashed => s
  }

  function Effect(decode: Decoder, s: State, e: Event): State
    requires Enabled(s, e)
  {
    match e
    case Arrive(w, hash) => s.(workers := s.workers[w := Worker(hash, false, TryLock)])
    case Poll(w) => AfterPoll(s, w)
    case ReadBehindLock(w, late) =>
      Goto(s, w, if IsCompleted(s.record) then CheckRecord else if late then Done(TimedOut) else TryLock)
    case ReadRecord(w) => Goto(s, w, AfterRead(s, w))
    case WriteStarted(w) =>
      Goto(s, w, Execute).(record := Some(Started(s.workers[w].payloadHash)))
    case Respond(w, r) => Goto(s, w, if r.status < 500 then MarkCompleted(r) else Release(Fresh(r)))
    case WriteCompleted(w) =>
      Goto(Complete(decode, s, w), w, Release(Fresh(s.workers[w].pc.response)))
    case DeleteLock(w) => Goto(s, w, Done(s.workers[w].pc.result)).(lock := false)
    case Fail(w, applied) => AfterFail(decode, s, w, applied)
    case Crash(w) => Goto(s, w, Crashed)
    case Expire => s.(lock := false)
  }

  /** An event that is not enabled does nothing, so that every sequence of
      events is a run. */
  function Step(decode: Decoder, s: State, e: Event): State {
    if Enabled(s, e) then Effect(decode, s, e) else s
  }

  function Run(decode: Decoder, s: State, events: seq<Event>): State
    decreases |events|
  {
    if events == [] then s
    else Step(decode, Run(decode, s, events[..|events| - 1]), events[|events| - 1])
  }

  /** Lock, record and log are the same. */
  predicate LeftTo(alone: State, now: State) {
    now.lock == alone.lock && now.record == alone.record && now.completions == alone.completions
  }

  /** An exception whose Redis command was executed leaves lock, record and log
      as that command does, and one whose command was not leaves them alone.
      Inside `try` the request goes on to `finally`, elsewhere it is over. */
  lemma LostReplyTakesEffect(decode: Decoder, s: State, e: Event)
    requires Enabled(s, e) && !e.Arrive? && !e.Fail? && !e.Crash? && !e.Expire?
    ensures LeftTo(Step(decode, s, e), Step(decode, s, Fail(e.w, true)))
    ensures LeftTo(s, Step(decode, s, Fail(e.w, false)))
    ensures forall applied :: At(Step(decode, s, Fail(e.w, applied)), e.w,
              if e.Poll? || e.ReadBehindLock? || e.DeleteLock? then Done(Raised) else Release(Raised))
  {
  }

  // ---------------------------------------------------------------- invariant

  /** Until the record is COMPLETED, at most one request is past the wait loop;
      it acquired the lock itself and the lock is still there. */
  predicate Exclusive(s: State) {
    !IsCompleted(s.record) ==>
      && (forall w :: w in s.workers && InTry(s.workers[w].pc) ==> s.lock && s.workers[w].acquired)
      && (forall v, w :: v in s.workers && w in s.workers && InTry(s.workers[v].pc) && InTry(s.workers[w].pc) ==>
        v == w)
  }

  /** The answer a request has or is about to give. */
  function Outcome(pc: Pc): Option<Result> {
    match pc
    case Release(result) => Some(result)
    case Done(result) => Some(result)
    case _ => None
  }

  predicate ResultFits(decode: Decoder, record: Option<Record>, hash: string, result: Result) {
    match result
    case Fresh(r) => r.status < 500 ==> record == Some(Completed(hash, r.status, decode(r.body)))
    case Replayed(status, text) => record == Some(Completed(hash, status, text))
    case Mismatch => record.Some? && record.value.payloadHash != hash
    case TimedOut => true
    case Raised => true
  }

  /** What the record has to be, given where a request is. */
  predicate WorkerFits(decode: Decoder, record: Option<Record>, worker: Worker) {
    match worker.pc
    case TryLock => !worker.acquired
    case ReadHeld => !worker.acquired
    case MarkStarted => record.None? || record == Some(Started(worker.payloadHash))
    case Execute => record == Some(Started(worker.payloadHash))
    case MarkCompleted(r) => r.status < 500 && record == Some(Started(worker.payloadHash))
    case Release(result) => ResultFits(decode, record, worker.payloadHash, result)
    case Done(result) => ResultFits(decode, record, worker.payloadHash, result)
    case _ => true
  }

  predicate LogFits(decode: Decoder, s: State) {
    if IsCompleted(s.record) then
      && |s.completions| == 1
      && s.record.value == Completed(s.completions[0].payloadHash, s.completions[0].response.status,
                                     decode(s.completions[0].response.body))
    else s.completions == []
  }

  predicate BusinessAnswer(pc: Pc) {
    var result := Outcome(pc);
    result.Some? && result.value.Fresh? && result.value.response.status < 500
  }

  /** A business answer that is not replayed comes from the one logged execution. */
  predicate FreshFits(s: State) {
    forall w | w in s.workers && BusinessAnswer(s.workers[w].pc) ::
      s.completions == [Completion(w, s.workers[w].payloadHash, Outcome(s.workers[w].pc).value.response)]
  }

  predicate Inv(decode: Decoder, s: State) {
    && Exclusive(s)
    && FreshFits(s)
    && (forall w :: w in s.workers ==> WorkerFits(decode, s.record, s.workers[w]))
    && LogFits(decode, s)
  }

  /** How the record may change: its hash is never replaced, and once it is
      COMPLETED it does not change at all. */
  predicate RecordEvolves(before: Option<Record>, after: Option<Record>) {
    match before
    case None => true
    case Some(r) => after.Some? && after.value.payloadHash == r.payloadHash && (r.Completed? ==> after == before)
  }

  /** Moving one request while record, lock and log stay. */
  lemma GotoKeepsInv(decode: Decoder, s: State, w: nat, pc: Pc)
    requires Inv(decode, s) && w in s.workers
    requires InTry(pc) ==> InTry(s.workers[w].pc) || IsCompleted(s.record)
    requires WorkerFits(decode, s.record, s.workers[w].(pc := pc))
    requires !BusinessAnswer(pc)
    ensures Inv(decode, Goto(s, w, pc))
  {
  }

  lemma PollKeepsInv(decode: Decoder, s: State, w: nat)
    requires Inv(decode, s) && At(s, w, TryLock)
    ensures Inv(decode, AfterPoll(s, w))
  {
  }

  lemma StartKeepsInv(decode: Decoder, s: State, w: nat, pc: Pc)
    requires Inv(decode, s) && At(s, w, MarkStarted)
    requires pc == Execute || pc == Release(Raised)
    ensures Inv(decode, Goto(s, w, pc).(record := Some(Started(s.workers[w].payloadHash))))
    ensures RecordEvolves(s.record, Some(Started(s.workers[w].payloadHash)))
  {
  }

  lemma CompleteKeepsInv(decode: Decoder, s: State, w: nat, result: Result)
    requires Inv(decode, s) && w in s.workers && s.workers[w].pc.MarkCompleted?
    requires result == Raised || result == Fresh(s.workers[w].pc.response)
    ensures Inv(decode, Goto(Complete(decode, s, w), w, Release(result)))
    ensures RecordEvolves(s.record, Complete(decode, s, w).record)
  {
  }

  lemma ReleaseKeepsInv(decode: Decoder, s: State, w: nat, result: Result, lock: bool)
    requires Inv(decode, s) && w in s.workers && s.workers[w].pc.Release?
    requires result == Raised || result == s.workers[w].pc.result
    ensures Inv(decode, Goto(s, w, Done(result)).(lock := lock))
  {
  }

  lemma FailKeepsInv(decode: Decoder, s: State, w: nat, applied: bool)
    requires Inv(decode, s) && Enabled(s, Fail(w, applied))
    ensures Inv(decode, AfterFail(decode, s, w, applied))
    ensures RecordEvolves(s.record, AfterFail(decode, s, w, applied).record)
  {
    match s.workers[w].pc {
      case TryLock =>
        GotoKeepsInv(decode, s, w, Done(Raised));
      case ReadHeld => GotoKeepsInv(decode, s, w, Done(Raised));
      case CheckRecord => GotoKeepsInv(decode, s, w, Release(Raised));
      case MarkStarted =>
        if applied {
          StartKeepsInv(decode, s, w, Release(Raised));
        } else {
          GotoKeepsInv(decode, s, w, Release(Raised));
        }
      case Execute => GotoKeepsInv(decode, s, w, Release(Raised));
      case MarkCompleted(_) =>
        if applied { CompleteKeepsInv(decode, s, w, Raised); } else { GotoKeepsInv(decode, s, w, Release(Raised)); }
      case Release(_) => ReleaseKeepsInv(decode, s, w, Raised, s.lock && !applied);
    }
  }

  lemma ReadBehindLockKeepsInv(decode: Decoder, s: State, w: nat, late: bool)
    requires Inv(decode, s) && At(s, w, ReadHeld)
    ensures Inv(decode, Effect(decode, s, ReadBehindLock(w, late)))
  {
  }

  lemma RespondKeepsInv(decode: Decoder, s: State, w: nat, r: Response)
    requires Inv(decode, s) && At(s, w, Execute)
    ensures Inv(decode, Effect(decode, s, Respond(w, r)))
  {
  }

  /** Steps that leave record and log alone. */
  lemma ReadingStepKeepsInv(decode: Decoder, s: State, e: Event)
    requires Inv(decode, s) && Enabled(s, e)
    requires !e.WriteStarted? && !e.WriteCompleted? && !e.DeleteLock? && !e.Fail?
    ensures var s' := Effect(decode, s, e); Inv(decode, s') && s'.record == s.record && s'.completions == s.completions
  {
    match e {
      case Arrive(w, hash) =>
      case Poll(w) => PollKeepsInv(decode, s, w);
      case ReadBehindLock(w, late) => ReadBehindLockKeepsInv(decode, s, w, late);
      case ReadRecord(w) => GotoKeepsInv(decode, s, w, AfterRead(s, w));
      case Respond(w, r) => RespondKeepsInv(decode, s, w, r);
      case Crash(w) => GotoKeepsInv(decode, s, w, Crashed);
      case Expire =>
    }
  }

  lemma WritingStepKeepsInv(decode: Decoder, s: State, e: Event)
    requires Inv(decode, s) && Enabled(s, e)
    requires e.WriteStarted? || e.WriteCompleted? || e.DeleteLock? || e.Fail?
    ensures Inv(decode, Effect(decode, s, e)) && RecordEvolves(s.record, Effect(decode, s, e).record)
  {
    match e {
      case WriteStarted(w) => StartKeepsInv(decode, s, w, Execute);
      case WriteCompleted(w) => CompleteKeepsInv(decode, s, w, Fresh(s.workers[w].pc.response));
      case DeleteLock(w) => ReleaseKeepsInv(decode, s, w, s.workers[w].pc.result, false);
      case Fail(w, applied) => FailKeepsInv(decode, s, w, applied);
    }
  }

  lemma LogGrows(decode: Decoder, s: State, e: Event)
    ensures s.completions <= Step(decode, s, e).completions
  {
  }

  lemma StepKeepsInv(decode: Decoder, s: State, e: Event)
    requires Inv(decode, s)
    ensures Inv(decode, Step(decode, s, e))
    ensures RecordEvolves(s.record, Step(decode, s, e).record)
    ensures s.completions <= Step(decode, s, e).completions
  {
    LogGrows(decode, s, e);
    if Enabled(s, e) {
      if e.WriteStarted? || e.WriteCompleted? || e.DeleteLock? || e.Fail? {
        WritingStepKeepsInv(decode, s, e);
      } else {
        ReadingStepKeepsInv(decode, s, e);
      }
    }
  }

  lemma StepKeepsRequests(decode: Decoder, s: State, e: Event, w: nat)
    requires w in s.workers
    ensures var after := Step(decode, s, e);
            w in after.workers && after.workers[w].payloadHash == s.workers[w].payloadHash
  {
  }

  // ----------------------------------------------------------------- theorems

  lemma {:induction false} RunKeepsInv(decode: Decoder, s: State, events: seq<Event>)
    requires Inv(decode, s)
    ensures Inv(decode, Run(decode, s, events))
    ensures RecordEvolves(s.record, Run(decode, s, events).record)
    ensures s.completions <= Run(decode, s, events).completions
    decreases |events|
  {
    if events != [] {
      RunKeepsInv(decode, s, events[..|events| - 1]);
      StepKeepsInv(decode, Run(decode, s, events[..|events| - 1]), events[|events| - 1]);
    }
  }

  lemma {:induction false} RunAppend(decode: Decoder, s: State, first: seq<Event>, second: seq<Event>)
    ensures Run(decode, s, first + second) == Run(decode, Run(decode, s, first), second)
    decreases |second|
  {
    if second == [] {
      assert first + second == first;
    } else {
      var n := |second| - 1;
      RunAppend(decode, s, first, second[..n]);
      assert (first + second)[..|first + second| - 1] == first + second[..n];
    }
  }

  /** Any number of requests, any interleaving, crashes, lost replies, retries
      after 5xx.  While the record is not COMPLETED at most one request is past
      the wait loop, and the lock is its own; once the record is COMPLETED no
      request is between the check of the record and the COMPLETED write,
      although requests that never held the lock delete it. */
  lemma MutualExclusion(decode: Decoder, events: seq<Event>, v: nat, w: nat)
    requires var s := Run(decode, INITIAL, events);
             v in s.workers && w in s.workers && InTry(s.workers[v].pc) && InTry(s.workers[w].pc)
    ensures var s := Run(decode, INITIAL, events);
            if IsCompleted(s.record) then
              s.workers[w].pc.CheckRecord? || s.workers[w].pc.Release?
            else
              v == w && s.lock && s.workers[w].acquired
  {
    RunKeepsInv(decode, INITIAL, events);
    assert WorkerFits(decode, Run(decode, INITIAL, events).record, Run(decode, INITIAL, events).workers[w]);
  }

  /** Over every run the payload hash of the record never changes once written,
      a COMPLETED record is never overwritten, and COMPLETED is written at most
      once. */
  lemma RecordHistory(decode: Decoder, earlier: seq<Event>, later: seq<Event>)
    ensures RecordEvolves(Run(decode, INITIAL, earlier).record, Run(decode, INITIAL, earlier + later).record)
    ensures Run(decode, INITIAL, earlier).completions <= Run(decode, INITIAL, earlier + later).completions
    ensures |Run(decode, INITIAL, earlier).completions| <= 1
  {
    RunKeepsInv(decode, INITIAL, earlier);
    RunAppend(decode, INITIAL, earlier, later);
    RunKeepsInv(decode, Run(decode, INITIAL, earlier), later);
  }

  /** The cacheable answer a finished request gave, as (status, text). */
  function Answer(decode: Decoder, pc: Pc): Option<(nat, string)> {
    match pc
    case Done(Fresh(r)) => if r.status < 500 then Some((r.status, decode(r.body))) else None
    case Done(Replayed(status, text)) => Some((status, text))
    case _ => None
  }

  /** A request's answer is that of the one logged execution. */
  predicate AnswerIsLogged(decode: Decoder, s: State, w: nat)
    requires w in s.workers && Answer(decode, s.workers[w].pc).Some?
  {
    && |s.completions| == 1
    && s.workers[w].payloadHash == s.completions[0].payloadHash
    && Answer(decode, s.workers[w].pc).value ==
         (s.completions[0].response.status, decode(s.completions[0].response.body))
    && (s.workers[w].pc.result.Fresh? ==> s.completions[0].worker == w)
  }

  lemma InvLogsAnswers(decode: Decoder, s: State, w: nat)
    requires Inv(decode, s) && w in s.workers && Answer(decode, s.workers[w].pc).Some?
    ensures AnswerIsLogged(decode, s, w)
  {
    assert WorkerFits(decode, s.record, s.workers[w]);
  }

  /** One key, one answer.  All requests that ever get an answer below 500, at
      whatever times, carry the same payload and get the same status and text:
      that of the single logged execution, which belongs to the only request
      that is not answered from the cache. */
  lemma OneAnswerPerKey(decode: Decoder, events: seq<Event>, w: nat)
    requires var s := Run(decode, INITIAL, events);
             w in s.workers && Answer(decode, s.workers[w].pc).Some?
    ensures AnswerIsLogged(decode, Run(decode, INITIAL, events), w)
  {
    RunKeepsInv(decode, INITIAL, events);
    InvLogsAnswers(decode, Run(decode, INITIAL, events), w);
  }

  /** The expiry assumption is exact.  Let the lock run out in a reachable
      state while some request is polling: the next poll leaves mutual
      exclusion intact if and only if the record is COMPLETED or nobody is past
      the wait loop. */
  lemma EarlyExpiryBreaksExclusion(decode: Decoder, s: State, v: nat)
    requires Inv(decode, s) && At(s, v, TryLock)
    ensures Exclusive(AfterPoll(s.(lock := false), v)) <==> MayExpire(s)
  {
    var after := AfterPoll(s.(lock := false), v);
    if !MayExpire(s) {
      var w :| w in s.workers && InTry(s.workers[w].pc);
      assert InTry(after.workers[w].pc) && InTry(after.workers[v].pc) && v != w;
    }
  }

  /** What that costs: when the lock of an executing request runs out, a polling
      request with the same payload executes too, and the COMPLETED record of
      the first is overwritten by the second. */
  lemma OutlivedLockRunsTwice(decode: Decoder, s: State, v: nat, w: nat, first: Response, second: Response)
    requires Inv(decode, s) && At(s, v, Execute) && At(s, w, TryLock)
    requires s.workers[v].payloadHash == s.workers[w].payloadHash
    requires first.status < 500 && second.status < 500
    ensures var polled := Step(decode, s.(lock := false), Poll(w));
            var both := Step(decode, Step(decode, polled, ReadRecord(w)), WriteStarted(w));
            var earlier := Step(decode, Step(decode, both, Respond(v, first)), WriteCompleted(v));
            var later := Step(decode, Step(decode, earlier, Respond(w, second)), WriteCompleted(w));
            && At(both, v, Execute) && At(both, w, Execute)
            && earlier.record == Some(Completed(s.workers[v].payloadHash, first.status, decode(first.body)))
            && later.record == Some(Completed(s.workers[w].payloadHash, second.status, decode(second.body)))
  {
    assert WorkerFits(decode, s.record, s.workers[v]);
    var polled := Step(decode, s.(lock := false), Poll(w));
    var both := Step(decode, Step(decode, polled, ReadRecord(w)), WriteStarted(w));
    assert At(both, v, Execute) && At(both, w, Execute) && both.workers == s.workers[w := both.workers[w]];
    TwoExecutionsOverwrite(decode, both, v, w, first, second);
  }

  lemma TwoExecutionsOverwrite(decode: Decoder, s: State, v: nat, w: nat, first: Response, second: Response)
    requires At(s, v, Execute) && At(s, w, Execute) && v != w
    requires first.status < 500 && second.status < 500
    ensures var earlier := Step(decode, Step(decode, s, Respond(v, first)), WriteCompleted(v));
            var later := Step(decode, Step(decode, earlier, Respond(w, second)), WriteCompleted(w));
            && earlier.record == Some(Completed(s.workers[v].payloadHash, first.status, decode(first.body)))
            && later.record == Some(Completed(s.workers[w].payloadHash, second.status, decode(second.body)))
  {
  }

  lemma RunSnoc(decode: Decoder, events: seq<Event>, e: Event)
    ensures Run(decode, INITIAL, events + [e]) == Step(decode, Run(decode, INITIAL, events), e)
  {
    assert (events + [e])[..|events|] == events;
  }

  /** A first request that executes, and a second one that polls. */
  function Outliving(payloadHash: string): seq<Event> {
    [Arrive(0, payloadHash)] + [Poll(0)] + [ReadRecord(0)] + [WriteStarted(0)] + [Arrive(1, payloadHash)]
  }

  /** The state after those events. */
  function Outlived(payloadHash: string): State {
    State(true, Some(Started(payloadHash)),
          map[0 := Worker(payloadHash, true, Execute), 1 := Worker(payloadHash, false, TryLock)], [])
  }

  lemma OutlivingSteps(decode: Decoder, p: string)
    ensures var s := Step(decode, Step(decode, INITIAL, Arrive(0, p)), Poll(0));
            Step(decode, Step(decode, Step(decode, s, ReadRecord(0)), WriteStarted(0)), Arrive(1, p)) == Outlived(p)
  {
    var s1 := Step(decode, INITIAL, Arrive(0, p));
    assert s1 == State(false, None, map[0 := Worker(p, false, TryLock)], []);
    var s2 := Step(decode, s1, Poll(0));
    assert s2 == State(true, None, map[0 := Worker(p, true, CheckRecord)], []);
    var s3 := Step(decode, s2, ReadRecord(0));
    assert s3 == State(true, None, map[0 := Worker(p, true, MarkStarted)], []);
    var s4 := Step(decode, s3, WriteStarted(0));
    assert s4 == State(true, Some(Started(p)), map[0 := Worker(p, true, Execute)], []);
  }

  lemma OutlivingRuns(decode: Decoder, payloadHash: string)
    ensures Run(decode, INITIAL, Outliving(payloadHash)) == Outlived(payloadHash)
  {
    var first := [Arrive(0, payloadHash)];
    OutlivingSteps(decode, payloadHash);
    assert [] + first == first;
    RunSnoc(decode, [], Arrive(0, payloadHash));
    RunSnoc(decode, first, Poll(0));
    RunSnoc(decode, first + [Poll(0)], ReadRecord(0));
    RunSnoc(decode, first + [Poll(0)] + [ReadRecord(0)], WriteStarted(0));
    RunSnoc(decode, first + [Poll(0)] + [ReadRecord(0)] + [WriteStarted(0)], Arrive(1, payloadHash));
  }

  /** Such a run exists: after five events the lock runs out under the first
      request, both execute, and a 201 replaces the cached 200. */
  lemma OutlivedLockIsReachable(decode: Decoder, payloadHash: string, body: Bytes)
    ensures var s := Run(decode, INITIAL, Outliving(payloadHash));
            var polled := Step(decode, s.(lock := false), Poll(1));
            var both := Step(decode, Step(decode, polled, ReadRecord(1)), WriteStarted(1));
            var earlier := Step(decode, Step(decode, both, Respond(0, Response(200, body))), WriteCompleted(0));
            var later := Step(decode, Step(decode, earlier, Respond(1, Response(201, body))), WriteCompleted(1));
            && earlier.record == Some(Completed(payloadHash, 200, decode(body)))
            && later.record == Some(Completed(payloadHash, 201, decode(body)))
            && !RecordEvolves(earlier.record, later.record)
  {
    OutlivingRuns(decode, payloadHash);
    RunKeepsInv(decode, INITIAL, Outliving(payloadHash));
    assert At(Outlived(payloadHash), 0, Execute) && At(Outlived(payloadHash), 1, TryLock);
    OutlivedLockRunsTwice(decode, Run(decode, INITIAL, Outliving(payloadHash)), 0, 1, Response(200, body),
      Response(201, body));
  }
}
