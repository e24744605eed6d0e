/** `FinTechIdempotencyMiddleware.dispatch` itself: the Redis lock and record
    updated in place, and one request run from its first poll to its answer
    while other requests do whatever they like at every await. */
module IdempotencyMiddleware {
  import opened Options
  import opened IdempotencyProtocol

  function ActorOf(e: Event): Option<nat> {
    match e
    case Expire => None
    case _ => Some(e.w)
  }

  /** Events of requests other than w, and lock expiry. */
  predicate Foreign(events: seq<Event>, w: nat) {
    forall i :: 0 <= i < |events| ==> ActorOf(events[i]) != Some(w)
  }

  ghost predicate AllForeign(others: nat -> seq<Event>, w: nat) {
    forall k :: Foreign(others(k), w)
  }

  lemma {:induction false} ForeignLeavesWorker(decode: Decoder, s: State, events: seq<Event>, w: nat)
    requires Foreign(events, w) && w in s.workers
    ensures var after := Run(decode, s, events); w in after.workers && after.workers[w] == s.workers[w]
    decreases |events|
  {
    if events != [] {
      ForeignLeavesWorker(decode, s, events[..|events| - 1], w);
    }
  }

  function With(s: State, w: nat, worker: Worker): State {
    s.(workers := s.workers[w := worker])
  }

  /** The same to everybody but request w, which is not past the wait loop. */
  predicate SameForOthers(a: State, b: State, w: nat) {
    && w in a.workers && w in b.workers
    && !InTry(a.workers[w].pc) && !InTry(b.workers[w].pc)
    && b == With(a, w, b.workers[w])
  }

  lemma WithCommutes(s: State, w: nat, x: Worker, u: nat, y: Worker)
    requires u != w
    ensures With(With(s, w, x), u, y) == With(With(s, u, y), w, x)
  {
    assert s.workers[w := x][u := y] == s.workers[u := y][w := x];
  }

  lemma ExpiryAlike(s: State, w: nat, x: Worker)
    requires w in s.workers && !InTry(s.workers[w].pc) && !InTry(x.pc)
    ensures MayExpire(With(s, w, x)) <==> MayExpire(s)
  {
    if MayExpire(s) && !IsCompleted(s.record) {
      forall u | u in With(s, w, x).workers ensures !InTry(With(s, w, x).workers[u].pc) {}
    }
    if MayExpire(With(s, w, x)) && !IsCompleted(s.record) {
      forall u | u in s.workers ensures !InTry(s.workers[u].pc) { assert u in With(s, w, x).workers; }
    }
  }

  lemma ForeignStepAlike(decode: Decoder, s: State, w: nat, x: Worker, e: Event)
    requires w in s.workers && !InTry(s.workers[w].pc) && !InTry(x.pc) && ActorOf(e) != Some(w)
    ensures Step(decode, With(s, w, x), e) == With(Step(decode, s, e), w, x)
  {
    ExpiryAlike(s, w, x);
    assert Enabled(With(s, w, x), e) <==> Enabled(s, e);
    if Enabled(s, e) && !e.Expire? {
      EffectAlike(decode, s, w, x, e);
    }
  }

  /** An effect changes its own request, and reads no other. */
  lemma EffectAlike(decode: Decoder, s: State, w: nat, x: Worker, e: Event)
    requires w in s.workers && ActorOf(e) != Some(w) && !e.Expire?
    requires Enabled(s, e) && Enabled(With(s, w, x), e)
    ensures Effect(decode, With(s, w, x), e) == With(Effect(decode, s, e), w, x)
  {
    var y := Effect(decode, s, e).workers[e.w];
    assert Effect(decode, s, e).workers == s.workers[e.w := y];
    WithCommutes(s, w, x, e.w, y);
  }

  lemma StepSparesOthers(decode: Decoder, s: State, e: Event, w: nat)
    requires w in s.workers && ActorOf(e) != Some(w)
    ensures w in Step(decode, s, e).workers && Step(decode, s, e).workers[w] == s.workers[w]
  {
  }

  lemma {:induction false} ForeignRunAlike(decode: Decoder, a: State, b: State, events: seq<Event>, w: nat)
    requires SameForOthers(a, b, w) && Foreign(events, w)
    ensures SameForOthers(Run(decode, a, events), Run(decode, b, events), w)
    decreases |events|
  {
    if events != [] {
      var n := |events| - 1;
      ForeignRunAlike(decode, a, b, events[..n], w);
      var before := Run(decode, a, events[..n]);
      ForeignStepAlike(decode, before, w, Run(decode, b, events[..n]).workers[w], events[n]);
      StepSparesOthers(decode, before, events[n], w);
    }
  }

  function Concat(chunks: seq<Bytes>): Bytes {
    if chunks == [] then [] else Concat(chunks[..|chunks| - 1]) + chunks[|chunks| - 1]
  }

  /** Every chunk is in the body once, in order. */
  lemma {:induction false} ConcatJoins(first: seq<Bytes>, second: seq<Bytes>)
    ensures Concat(first + second) == Concat(first) + Concat(second)
    ensures forall chunk :: Concat([chunk]) == chunk
    decreases |second|
  {
    forall chunk ensures Concat([chunk]) == chunk {
      assert [chunk][..0] == [];
    }
    if second == [] {
      assert first + second == first;
    } else {
      var n := |second| - 1;
      ConcatJoins(first, second[..n]);
      assert (first + second)[..|first| + n] == first + second[..n];
    }
  }

  /** What the endpoint returned: a status and a streamed body. */
  function Returned(answer: (nat, seq<Bytes>)): Response {
    Response(answer.0, Concat(answer.1))
  }

  method CollectBody(chunks: seq<Bytes>) returns (body: Bytes)
    ensures body == Concat(chunks)
  {
    body := [];
    var i := 0;
    while i < |chunks|
      invariant 0 <= i <= |chunks|
      invariant body == Concat(chunks[..i])
    {
      assert chunks[..i + 1][..i] == chunks[..i];
      body := body + chunks[i];
      i := i + 1;
    }
    assert chunks[..|chunks|] == chunks;
  }

  /** What every await of request w preserves, whoever acts during it. */
  predicate Evolves(decode: Decoder, before: State, after: State, w: nat) {
    && Inv(decode, after)
    && RecordEvolves(before.record, after.record)
    && before.completions <= after.completions
    && w in before.workers && w in after.workers
    && after.workers[w].payloadHash == before.workers[w].payloadHash
  }

  lemma EvolvesTransitive(decode: Decoder, a: State, b: State, c: State, w: nat)
    requires Evolves(decode, a, b, w) && Evolves(decode, b, c, w)
    ensures Evolves(decode, a, c, w)
  {
  }

  lemma StepEvolves(decode: Decoder, s: State, e: Event, w: nat)
    requires Inv(decode, s) && w in s.workers
    ensures Evolves(decode, s, Step(decode, s, e), w)
  {
    StepKeepsInv(decode, s, e);
    StepKeepsRequests(decode, s, e, w);
  }

  /** Since `start`, lock, record, log and the other requests are what the
      events `theirs` of the others alone made of them. */
  predicate OnlyOthers(decode: Decoder, start: State, theirs: seq<Event>, now: State, w: nat) {
    Foreign(theirs, w) && SameForOthers(Run(decode, start, theirs), now, w)
  }

  lemma OthersAlone(decode: Decoder, start: State, theirs: seq<Event>, now: State, w: nat)
    requires OnlyOthers(decode, start, theirs, now, w)
    ensures LeftTo(Run(decode, start, theirs), now)
  {
  }

  lemma OthersContinue(decode: Decoder, start: State, theirs: seq<Event>, now: State, more: seq<Event>, w: nat)
    requires OnlyOthers(decode, start, theirs, now, w) && Foreign(more, w)
    ensures OnlyOthers(decode, start, theirs + more, Run(decode, now, more), w)
  {
    RunAppend(decode, start, theirs, more);
    ForeignRunAlike(decode, Run(decode, start, theirs), now, more, w);
  }

  lemma MovesUnnoticed(decode: Decoder, start: State, theirs: seq<Event>, now: State, w: nat, pc: Pc)
    requires OnlyOthers(decode, start, theirs, now, w) && !InTry(pc)
    ensures OnlyOthers(decode, start, theirs, Goto(now, w, pc), w)
  {
    var alone := Run(decode, start, theirs);
    assert alone.workers[w := now.workers[w]][w := now.workers[w].(pc := pc)] ==
      alone.workers[w := now.workers[w].(pc := pc)];
  }

  lemma AlikeButFor(a: State, b: State, w: nat, worker: Worker)
    requires SameForOthers(a, b, w)
    ensures With(b, w, worker) == With(a, w, worker)
  {
    assert a.workers[w := b.workers[w]][w := worker] == a.workers[w := worker];
  }

  /** What a request gets that finds this record at its check, when the endpoint
      would answer, or raise, like this. */
  function Decided(record: Option<Record>, payloadHash: string, answer: Option<(nat, seq<Bytes>)>): Result {
    if record.Some? && record.value.payloadHash != payloadHash then Mismatch
    else if IsCompleted(record) then Replayed(record.value.status, record.value.text)
    else if answer.None? then Raised
    else Fresh(Returned(answer.value))
  }

  /** A new request, about to poll for the first time. */
  function Arrived(s: State, w: nat, payloadHash: string): State {
    With(s, w, Worker(payloadHash, false, TryLock))
  }

  /** What the others do during the first n awaits. */
  function Schedule(others: nat -> seq<Event>, n: nat): seq<Event> {
    if n == 0 then [] else Schedule(others, n - 1) + others(n - 1)
  }

  /** At poll k the lock is free, as the events of the other requests alone have it. */
  predicate FindsLockFree(decode: Decoder, start: State, others: nat -> seq<Event>, k: nat) {
    !Run(decode, start, Schedule(others, 2 * k + 1)).lock
  }

  /** At read k the record is COMPLETED, as the others alone have it. */
  predicate FindsCompleted(decode: Decoder, start: State, others: nat -> seq<Event>, k: nat) {
    IsCompleted(Run(decode, start, Schedule(others, 2 * k + 2)).record)
  }

  /** Round k ends neither with the lock nor with an answer to be replayed. */
  predicate Blocked(decode: Decoder, start: State, others: nat -> seq<Event>, k: nat) {
    !FindsLockFree(decode, start, others, k) && !FindsCompleted(decode, start, others, k)
  }

  /** Every round up to `patience` is blocked. */
  predicate BlockedThrough(decode: Decoder, start: State, others: nat -> seq<Event>, patience: nat) {
    BlockedBefore(decode, start, others, patience + 1)
  }

  predicate BlockedBefore(decode: Decoder, start: State, others: nat -> seq<Event>, n: nat) {
    forall k: nat :: k < n ==> Blocked(decode, start, others, k)
  }

  /** Round k is the first that is not blocked. */
  predicate LeavesIn(decode: Decoder, start: State, others: nat -> seq<Event>, k: nat) {
    !Blocked(decode, start, others, k) && BlockedBefore(decode, start, others, k)
  }

  lemma OneMoreRound(decode: Decoder, start: State, others: nat -> seq<Event>, k: nat, patience: nat)
    requires BlockedBefore(decode, start, others, k) && k <= patience
    ensures if Blocked(decode, start, others, k) then
              BlockedBefore(decode, start, others, k + 1)
            else
              LeavesIn(decode, start, others, k) && !BlockedThrough(decode, start, others, patience)
  {
  }

  /** The state in which request w leaves the wait loop in round k: with the lock,
      or without it but having seen COMPLETED. */
  function LeftIn(decode: Decoder, start: State, others: nat -> seq<Event>, k: nat, w: nat,
                  payloadHash: string): State {
    if FindsLockFree(decode, start, others, k) then
      With(Run(decode, start, Schedule(others, 2 * k + 1)), w, Worker(payloadHash, true, CheckRecord)).(lock := true)
    else
      With(Run(decode, start, Schedule(others, 2 * k + 2)), w, Worker(payloadHash, false, CheckRecord))
  }

  /** Where the request is when round n begins. */
  ghost predicate Waits(decode: Decoder, start: State, others: nat -> seq<Event>, n: nat, now: State, w: nat) {
    && Evolves(decode, start, now, w) && now.workers[w].pc == TryLock && !now.workers[w].acquired
    && OnlyOthers(decode, start, Schedule(others, 2 * n), now, w)
    && BlockedBefore(decode, start, others, n)
  }

  class Middleware {
    const decode: Decoder
    var lock: bool
    var record: Option<Record>
    var workers: map<nat, Worker>
    var completions: seq<Completion>

    constructor (decode: Decoder)
      ensures View() == INITIAL && this.decode == decode
    {
      this.decode := decode;
      lock, record, workers, completions := false, None, map[], [];
    }

    function View(): State
      reads this
    {
      State(lock, record, workers, completions)
    }

    /** The other requests, while this one awaits. */
    method Others(events: seq<Event>, w: nat)
      requires Inv(decode, View()) && w in workers && Foreign(events, w)
      modifies this
      ensures View() == Run(decode, old(View()), events)
      ensures Evolves(decode, old(View()), View(), w) && workers[w] == old(workers[w])
    {
      RunKeepsInv(decode, View(), events);
      ForeignLeavesWorker(decode, View(), events, w);
      ghost var before := View();
      var i := 0;
      while i < |events|
        invariant 0 <= i <= |events|
        invariant View() == Run(decode, before, events[..i])
      {
        assert events[..i + 1][..i] == events[..i];
        var next := Step(decode, View(), events[i]);
        lock, record, workers, completions := next.lock, next.record, next.workers, next.completions;
        i := i + 1;
      }
      assert events[..|events|] == events;
    }

    /** SET lock NX */
    method AcquireLock(w: nat) returns (acquired: bool)
      requires Inv(decode, View()) && At(View(), w, TryLock)
      modifies this`lock, this`workers
      ensures View() == Step(decode, old(View()), Poll(w))
      ensures acquired == !old(lock) && lock
      ensures workers == old(workers)[w := Worker(old(workers[w].payloadHash), acquired || old(workers[w].acquired),
                                                  if acquired then CheckRecord else ReadHeld)]
      ensures Evolves(decode, old(View()), View(), w)
    {
      StepEvolves(decode, View(), Poll(w), w);
      if lock {
        workers := workers[w := workers[w].(pc := ReadHeld)];
        return false;
      }
      lock := true;
      workers := workers[w := Worker(workers[w].payloadHash, true, CheckRecord)];
      return true;
    }

    /** GET record inside the wait loop; `late` is the MAX_WAIT_TIME test. */
    method ReadRecordBehindLock(w: nat, late: bool) returns (completed: bool)
      requires Inv(decode, View()) && At(View(), w, ReadHeld)
      modifies this`workers
      ensures View() == Step(decode, old(View()), ReadBehindLock(w, late))
      ensures completed == IsCompleted(record)
      ensures workers[w].pc == if completed then CheckRecord else if late then Done(TimedOut) else TryLock
      ensures Evolves(decode, old(View()), View(), w)
    {
      StepEvolves(decode, View(), ReadBehindLock(w, late), w);
      match record {
        case Some(Completed(_, _, _)) =>
          completed := true;
          workers := workers[w := workers[w].(pc := CheckRecord)];
        case _ =>
          completed := false;
          workers := workers[w := workers[w].(pc := if late then Done(TimedOut) else TryLock)];
      }
    }

    /** GET record inside `try`: mismatch, replay, or go ahead. */
    method CheckState(w: nat) returns (decided: Option<Result>)
      requires Inv(decode, View()) && At(View(), w, CheckRecord)
      modifies this`workers
      ensures View() == Step(decode, old(View()), ReadRecord(w))
      ensures workers[w].pc == if decided.Some? then Release(decided.value) else MarkStarted
      ensures decided == (if record.Some? && record.value.payloadHash != old(workers[w].payloadHash) then Some(Mismatch)
                          else if IsCompleted(record) then Some(Replayed(record.value.status, record.value.text))
                          else None)
      ensures Evolves(decode, old(View()), View(), w)
    {
      StepEvolves(decode, View(), ReadRecord(w), w);
      decided := None;
      if record.Some? {
        if record.value.payloadHash != workers[w].payloadHash {
          decided := Some(Mismatch);
        } else if record.value.Completed? {
          decided := Some(Replayed(record.value.status, record.value.text));
        }
      }
      workers := workers[w := workers[w].(pc := if decided.Some? then Release(decided.value) else MarkStarted)];
    }

    method RecordStarted(w: nat)
      requires Inv(decode, View()) && At(View(), w, MarkStarted)
      modifies this`record, this`workers
      ensures View() == Step(decode, old(View()), WriteStarted(w))
      ensures workers[w].pc == Execute && record == Some(Started(old(workers[w].payloadHash)))
      ensures Evolves(decode, old(View()), View(), w)
    {
      StepEvolves(decode, View(), WriteStarted(w), w);
      record := Some(Started(workers[w].payloadHash));
      workers := workers[w := workers[w].(pc := Execute)];
    }

    /** `call_next`: the endpoint answers, or raises. */
    method CallNext(w: nat, answer: Option<(nat, seq<Bytes>)>)
      requires Inv(decode, View()) && At(View(), w, Execute)
      modifies this`workers
      ensures View() == Step(decode, old(View()),
                if answer.None? then Fail(w, false) else Respond(w, Returned(answer.value)))
      ensures workers[w].pc == if answer.None? then Release(Raised)
                               else if answer.value.0 < 500 then MarkCompleted(Returned(answer.value))
                               else Release(Fresh(Returned(answer.value)))
      ensures Evolves(decode, old(View()), View(), w)
    {
      if answer.None? {
        StepEvolves(decode, View(), Fail(w, false), w);
        workers := workers[w := workers[w].(pc := Release(Raised))];
      } else {
        var body := CollectBody(answer.value.1);
        var response := Response(answer.value.0, body);
        StepEvolves(decode, View(), Respond(w, response), w);
        var next := if response.status < 500 then MarkCompleted(response) else Release(Fresh(response));
        workers := workers[w := workers[w].(pc := next)];
      }
    }

    method RecordCompleted(w: nat)
      requires Inv(decode, View()) && w in workers && workers[w].pc.MarkCompleted?
      modifies this`record, this`workers, this`completions
      ensures View() == Step(decode, old(View()), WriteCompleted(w))
      ensures workers[w].pc == Release(Fresh(old(workers[w].pc.response)))
      ensures var response, hash := old(workers[w].pc.response), old(workers[w].payloadHash);
              && record == Some(Completed(hash, response.status, decode(response.body)))
              && completions == old(completions) + [Completion(w, hash, response)]
      ensures Evolves(decode, old(View()), View(), w)
    {
      StepEvolves(decode, View(), WriteCompleted(w), w);
      var response, hash := workers[w].pc.response, workers[w].payloadHash;
      record := Some(Completed(hash, response.status, decode(response.body)));
      completions := completions + [Completion(w, hash, response)];
      workers := workers[w := workers[w].(pc := Release(Fresh(response)))];
    }

    /** `finally`: DEL lock, whoever holds it. */
    method FinallyDeleteLock(w: nat) returns (result: Result)
      requires Inv(decode, View()) && w in workers && workers[w].pc.Release?
      modifies this`lock, this`workers
      ensures View() == Step(decode, old(View()), DeleteLock(w))
      ensures result == old(workers[w].pc.result) && At(View(), w, Done(result)) && !lock
      ensures Evolves(decode, old(View()), View(), w)
    {
      StepEvolves(decode, View(), DeleteLock(w), w);
      result := workers[w].pc.result;
      lock := false;
      workers := workers[w := workers[w].(pc := Done(result))];
    }

    /** One round's first await: the others act, then SET NX. */
    method AwaitLock(w: nat, during: seq<Event>, ghost start: State, ghost theirs: seq<Event>) returns (acquired: bool)
      requires Inv(decode, View()) && At(View(), w, TryLock) && Foreign(during, w)
      requires OnlyOthers(decode, start, theirs, View(), w)
      modifies this
      ensures Evolves(decode, old(View()), View(), w)
      ensures workers[w].pc == if acquired then CheckRecord else ReadHeld
      ensures acquired == !Run(decode, start, theirs + during).lock && workers[w].acquired == acquired
      ensures if acquired then
                View() == With(Run(decode, start, theirs + during), w, workers[w]).(lock := true)
              else
                OnlyOthers(decode, start, theirs + during, View(), w)
    {
      OthersContinue(decode, start, theirs, View(), during, w);
      Others(during, w);
      label polled:
      acquired := AcquireLock(w);
      EvolvesTransitive(decode, old(View()), old@polled(View()), View(), w);
      if acquired {
        AlikeButFor(Run(decode, start, theirs + during), old@polled(View()), w, workers[w]);
      } else {
        MovesUnnoticed(decode, start, theirs + during, old@polled(View()), w, ReadHeld);
      }
    }

    /** And its second: the others act, then GET record. */
    method AwaitRecord(w: nat, late: bool, during: seq<Event>, ghost start: State, ghost theirs: seq<Event>)
      returns (completed: bool)
      requires Inv(decode, View()) && At(View(), w, ReadHeld) && Foreign(during, w)
      requires OnlyOthers(decode, start, theirs, View(), w)
      modifies this
      ensures Evolves(decode, old(View()), View(), w)
      ensures workers[w].pc == if completed then CheckRecord else if late then Done(TimedOut) else TryLock
      ensures completed == IsCompleted(Run(decode, start, theirs + during).record)
      ensures workers[w].acquired == old(workers[w].acquired)
      ensures if completed then
                View() == With(Run(decode, start, theirs + during), w, workers[w])
              else
                OnlyOthers(decode, start, theirs + during, View(), w)
    {
      OthersContinue(decode, start, theirs, View(), during, w);
      Others(during, w);
      label read:
      completed := ReadRecordBehindLock(w, late);
      EvolvesTransitive(decode, old(View()), old@read(View()), View(), w);
      if completed {
        AlikeButFor(Run(decode, start, theirs + during), old@read(View()), w, workers[w]);
      } else {
        MovesUnnoticed(decode, start, theirs + during, old@read(View()), w, if late then Done(TimedOut) else TryLock);
      }
    }

    /** One round of the wait loop. */
    method Round(w: nat, late: bool, others: nat -> seq<Event>, k: nat, ghost start: State) returns (left: bool)
      requires Inv(decode, View()) && At(View(), w, TryLock) && !workers[w].acquired
      requires AllForeign(others, w)
      requires OnlyOthers(decode, start, Schedule(others, 2 * k), View(), w)
      modifies this
      ensures Evolves(decode, old(View()), View(), w)
      ensures left <==> !Blocked(decode, start, others, k)
      ensures workers[w].pc == if left then CheckRecord else if late then Done(TimedOut) else TryLock
      ensures workers[w].acquired == FindsLockFree(decode, start, others, k)
      ensures if left then
                View() == LeftIn(decode, start, others, k, w, old(workers[w].payloadHash))
              else
                OnlyOthers(decode, start, Schedule(others, 2 * k + 2), View(), w)
    {
      assert Schedule(others, 2 * k + 1) == Schedule(others, 2 * k) + others(2 * k);
      assert Schedule(others, 2 * k + 2) == Schedule(others, 2 * k + 1) + others(2 * k + 1);
      var acquired := AwaitLock(w, others(2 * k), start, Schedule(others, 2 * k));
      if acquired {
        return true;
      }
      label held:
      left := AwaitRecord(w, late, others(2 * k + 1), start, Schedule(others, 2 * k + 1));
      EvolvesTransitive(decode, old(View()), old@held(View()), View(), w);
    }

    /** One round, as the wait loop sees it. */
    method WaitingRound(w: nat, waited: nat, patience: nat, others: nat -> seq<Event>, ghost start: State)
      returns (left: bool)
      requires Inv(decode, View()) && Waits(decode, start, others, waited, View(), w) && waited <= patience
      requires AllForeign(others, w)
      modifies this
      ensures Evolves(decode, start, View(), w)
      ensures left ==>
        && LeavesIn(decode, start, others, waited) && !BlockedThrough(decode, start, others, patience)
        && View() == LeftIn(decode, start, others, waited, w, old(workers[w].payloadHash))
      ensures !left && waited == patience ==>
        && BlockedThrough(decode, start, others, patience) && workers[w].pc == Done(TimedOut)
        && LeftTo(Run(decode, start, Schedule(others, 2 * patience + 2)), View())
      ensures !left && waited < patience ==> Waits(decode, start, others, waited + 1, View(), w)
    {
      left := Round(w, waited >= patience, others, waited, start);
      EvolvesTransitive(decode, start, old(View()), View(), w);
      OneMoreRound(decode, start, others, waited, patience);
      if !left {
        OthersAlone(decode, start, Schedule(others, 2 * waited + 2), View(), w);
      }
    }

    /** The wait loop.  It times out if and only if it is blocked in every round
        up to `patience`; otherwise it ends in the first round that is not, holding
        the lock if that was free, and having seen COMPLETED if not.  After a
        timeout lock, record and log are what the other requests alone made of
        them in all those rounds. */
    method WaitLoop(w: nat, patience: nat, others: nat -> seq<Event>) returns (timedOut: bool, ghost rounds: nat)
      requires Inv(decode, View()) && At(View(), w, TryLock)
      requires AllForeign(others, w)
      modifies this
      ensures Evolves(decode, old(View()), View(), w)
      ensures workers[w].pc == if timedOut then Done(TimedOut) else CheckRecord
      ensures timedOut <==> BlockedThrough(decode, old(View()), others, patience)
      ensures timedOut ==> LeftTo(Run(decode, old(View()), Schedule(others, 2 * patience + 2)), View())
      ensures !timedOut ==>
        && LeavesIn(decode, old(View()), others, rounds) && rounds <= patience
        && View() == LeftIn(decode, old(View()), others, rounds, w, old(workers[w].payloadHash))
    {
      ghost var start := View();
      var waited := 0;
      while true
        invariant waited <= patience && Waits(decode, start, others, waited, View(), w)
        decreases patience - waited
      {
        var left := WaitingRound(w, waited, patience, others, start);
        if left {
          break;
        }
        if waited >= patience {
          return true, waited;
        }
        waited := waited + 1;
      }
      return false, waited;
    }

    /** The body of `try`. */
    method TryBlock(w: nat, answer: Option<(nat, seq<Bytes>)>, others: nat -> seq<Event>)
      requires Inv(decode, View()) && At(View(), w, CheckRecord)
      requires AllForeign(others, w)
      modifies this
      ensures Evolves(decode, old(View()), View(), w)
      ensures workers[w].pc.Release?
      ensures workers[w].pc.result ==
              Decided(Run(decode, old(View()), others(0)).record, old(workers[w].payloadHash), answer)
      ensures old(IsCompleted(record)) ==> workers[w].pc.result.Replayed? || workers[w].pc.result.Mismatch?
    {
      label start:
      Others(others(0), w);
      label check:
      var decided := CheckState(w);
      EvolvesTransitive(decode, old(View()), old@check(View()), View(), w);
      if decided.Some? {
        return;
      }
      label serve:
      Serve(w, answer, others);
      EvolvesTransitive(decode, old(View()), old@serve(View()), View(), w);
    }

    /** STARTED, endpoint, COMPLETED. */
    method Serve(w: nat, answer: Option<(nat, seq<Bytes>)>, others: nat -> seq<Event>)
      requires Inv(decode, View()) && At(View(), w, MarkStarted)
      requires AllForeign(others, w)
      modifies this
      ensures Evolves(decode, old(View()), View(), w)
      ensures workers[w].pc == Release(if answer.None? then Raised else Fresh(Returned(answer.value)))
    {
      Others(others(1), w);
      label mark:
      RecordStarted(w);
      EvolvesTransitive(decode, old(View()), old@mark(View()), View(), w);
      label call:
      Others(others(2), w);
      EvolvesTransitive(decode, old(View()), old@call(View()), View(), w);
      label answer:
      CallNext(w, answer);
      EvolvesTransitive(decode, old(View()), old@answer(View()), View(), w);
      if workers[w].pc.MarkCompleted? {
        label save:
        Save(w, others(3));
        EvolvesTransitive(decode, old(View()), old@save(View()), View(), w);
      }
    }

    method Save(w: nat, others: seq<Event>)
      requires Inv(decode, View()) && w in workers && workers[w].pc.MarkCompleted?
      requires Foreign(others, w)
      modifies this
      ensures Evolves(decode, old(View()), View(), w)
      ensures workers[w].pc == Release(Fresh(old(workers[w].pc.response)))
    {
      Others(others, w);
      label write:
      RecordCompleted(w);
      EvolvesTransitive(decode, old(View()), old@write(View()), View(), w);
    }

    /** One request, start to finish.  `waiting` and `working` say what other
        requests do during each await, `patience` is the number of polls before
        the timeout, `answer` what the endpoint would answer.  The request times
        out if and only if every round is blocked, and then lock, record and log
        are what the others alone made of them; otherwise its result is decided
        by the record it finds at its check.  The result is justified by the record
        at return: a replay is the cached answer for this payload, a fresh answer
        below 500 is now the cached answer, and it is the endpoint's own. */
    method Dispatch(w: nat, payloadHash: string, patience: nat, answer: Option<(nat, seq<Bytes>)>,
                    waiting: nat -> seq<Event>, working: nat -> seq<Event>)
      returns (result: Result, ghost rounds: nat)
      requires Inv(decode, View()) && w !in workers
      requires AllForeign(waiting, w) && AllForeign(working, w)
      modifies this
      ensures Inv(decode, View()) && At(View(), w, Done(result))
      ensures RecordEvolves(old(record), record) && old(completions) <= completions
      ensures ResultFits(decode, record, payloadHash, result)
      ensures var start := Arrived(old(View()), w, payloadHash);
              if BlockedThrough(decode, start, waiting, patience) then
                result == TimedOut && LeftTo(Run(decode, start, Schedule(waiting, 2 * patience + 2)), View())
              else
                && LeavesIn(decode, start, waiting, rounds) && rounds <= patience
                && result == Decided(Run(decode, LeftIn(decode, start, waiting, rounds, w, payloadHash),
                                         working(0)).record, payloadHash, answer)
      ensures old(IsCompleted(record)) ==>
        && (result.Replayed? || result.Mismatch? || result.TimedOut?)
        && record == old(record) && completions == old(completions)
    {
      Admit(w, payloadHash);
      label arrived:
      var timedOut;
      timedOut, rounds := WaitLoop(w, patience, waiting);
      if timedOut {
        return TimedOut, rounds;
      }
      label work:
      result := TryAndFinally(w, answer, working);
      EvolvesTransitive(decode, old@arrived(View()), old@work(View()), View(), w);
      assert WorkerFits(decode, record, workers[w]);
    }

    /** `try` and `finally`. */
    method TryAndFinally(w: nat, answer: Option<(nat, seq<Bytes>)>, others: nat -> seq<Event>) returns (result: Result)
      requires Inv(decode, View()) && At(View(), w, CheckRecord)
      requires AllForeign(others, w)
      modifies this
      ensures Evolves(decode, old(View()), View(), w)
      ensures workers[w].pc == Done(result)
      ensures result == Decided(Run(decode, old(View()), others(0)).record, old(workers[w].payloadHash), answer)
      ensures old(IsCompleted(record)) ==> result.Replayed? || result.Mismatch?
      ensures old(IsCompleted(record)) ==> completions == old(completions)
    {
      TryBlock(w, answer, others);
      label after:
      result := Finish(w, others(4));
      EvolvesTransitive(decode, old(View()), old@after(View()), View(), w);
    }

    method Admit(w: nat, payloadHash: string)
      requires Inv(decode, View()) && w !in workers
      modifies this`workers
      ensures View() == Arrived(old(View()), w, payloadHash) && Inv(decode, View())
      ensures At(View(), w, TryLock) && workers[w].payloadHash == payloadHash
    {
      StepKeepsInv(decode, View(), Arrive(w, payloadHash));
      workers := workers[w := Worker(payloadHash, false, TryLock)];
    }

    method Finish(w: nat, others: seq<Event>) returns (result: Result)
      requires Inv(decode, View()) && w in workers && workers[w].pc.Release?
      requires Foreign(others, w)
      modifies this
      ensures Evolves(decode, old(View()), View(), w)
      ensures result == old(workers[w].pc.result) && workers[w].pc == Done(result)
    {
      Others(others, w);
      label final:
      result := FinallyDeleteLock(w);
      EvolvesTransitive(decode, old(View()), old@final(View()), View(), w);
    }
  }
}
