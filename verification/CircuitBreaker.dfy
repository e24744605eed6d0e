/** The circuit breaker of security/opa_client.py: requests in flight and
    background trip tasks overlap freely on one event loop. */
module CircuitBreaker {

  const THRESHOLD := 3

  /** A background task: created, or sleeping after it opened the breaker. */
  datatype Trip = Created | Sleeping

  datatype State = State(failureCount: nat, isOpen: bool, inFlight: set<nat>, returned: map<nat, bool>,
                         trips: map<nat, Trip>)

  const INITIAL := State(0, false, {}, map[], map[])

  datatype Event =
    | Call(c: nat)
    | Answer(c: nat, allow: bool)    // OPA answered
    | CommunicationError(c: nat, task: nat)  // `task` names the trip task, if one is created
    | OtherError(c: nat)             // escapes to the caller
    | TripStarts(task: nat)
    | TripEnds(task: nat)

  predicate Enabled(s: State, e: Event) {
    match e
    case Call(c) => c !in s.inFlight && c !in s.returned
    case Answer(c, _) => c in s.inFlight
    case CommunicationError(c, task) => c in s.inFlight && task !in s.trips
    case OtherError(c) => c in s.inFlight
    case TripStarts(task) => task in s.trips && s.trips[task] == Created
    case TripEnds(task) => task in s.trips && s.trips[task] == Sleeping
  }

  function Return(s: State, c: nat, result: bool): State {
    s.(inFlight := s.inFlight - {c}, returned := s.returned[c := result])
  }

  function Step(s: State, e: Event): State {
    if !Enabled(s, e) then s
    else
      match e
      case Call(c) => if s.isOpen then Return(s, c, false) else s.(inFlight := s.inFlight + {c})
      case Answer(c, allow) => Return(s, c, allow).(failureCount := 0)
      case CommunicationError(c, task) =>
        var failed := Return(s, c, false).(failureCount := s.failureCount + 1);
        if failed.failureCount >= THRESHOLD then failed.(trips := s.trips[task := Created]) else failed
      case OtherError(c) => s.(inFlight := s.inFlight - {c})
      case TripStarts(task) => s.(isOpen := true, trips := s.trips[task := Sleeping])
      case TripEnds(task) => s.(isOpen := false, failureCount := 0, trips := s.trips - {task})
  }

  function Run(s: State, events: seq<Event>): State
    decreases |events|
  {
    if events == [] then s else Step(Run(s, events[..|events| - 1]), events[|events| - 1])
  }

  /** Open only while some trip task sleeps; at the threshold only while some
      trip task is unfinished. */
  ghost predicate Inv(s: State) {
    && (s.isOpen ==> exists t :: t in s.trips && s.trips[t] == Sleeping)
    && (s.failureCount >= THRESHOLD ==> exists t :: t in s.trips)
  }

  lemma StepKeepsInv(s: State, e: Event)
    requires Inv(s)
    ensures Inv(Step(s, e))
  {
    var s' := Step(s, e);
    if Enabled(s, e) && e.TripStarts? {
      assert s'.trips[e.task] == Sleeping;
    } else if Enabled(s, e) && e.CommunicationError? && s'.failureCount >= THRESHOLD {
      assert e.task in s'.trips;
      if s.isOpen {
        var t :| t in s.trips && s.trips[t] == Sleeping;
        assert s'.trips[t] == Sleeping;
      }
    }
  }

  lemma {:induction false} RunKeepsInv(s: State, events: seq<Event>)
    requires Inv(s)
    ensures Inv(Run(s, events))
    decreases |events|
  {
    if events != [] {
      RunKeepsInv(s, events[..|events| - 1]);
      StepKeepsInv(Run(s, events[..|events| - 1]), events[|events| - 1]);
    }
  }

  /** The breaker never sticks: with any overlap of requests and trip tasks,
      whenever no trip task is left the breaker is closed, below its threshold,
      and lets the next request through. */
  lemma NeverSticks(events: seq<Event>, c: nat)
    requires var s := Run(INITIAL, events); s.trips == map[] && Enabled(s, Call(c))
    ensures var s := Run(INITIAL, events);
            !s.isOpen && s.failureCount < THRESHOLD && c in Step(s, Call(c)).inFlight
  {
    RunKeepsInv(INITIAL, events);
  }

  /** Communication errors since the last answer or the last end of a trip. */
  function ErrorsSinceReset(events: seq<Event>): nat {
    if events == [] then 0
    else
      var earlier, last := events[..|events| - 1], events[|events| - 1];
      if !Enabled(Run(INITIAL, earlier), last) then ErrorsSinceReset(earlier)
      else
        match last
        case Answer(_, _) => 0
        case TripEnds(_) => 0
        case CommunicationError(_, _) => ErrorsSinceReset(earlier) + 1
        case _ => ErrorsSinceReset(earlier)
  }

  lemma {:induction false} CountIsErrorsSinceReset(events: seq<Event>)
    ensures Run(INITIAL, events).failureCount == ErrorsSinceReset(events)
  {
    if events != [] {
      CountIsErrorsSinceReset(events[..|events| - 1]);
    }
  }

  /** Over every run a communication error creates a trip task exactly if at
      least two others came since the last answer or the last end of a trip. */
  lemma ThirdErrorTrips(events: seq<Event>, c: nat, task: nat)
    requires Enabled(Run(INITIAL, events), CommunicationError(c, task))
    ensures task in Step(Run(INITIAL, events), CommunicationError(c, task)).trips <==> ErrorsSinceReset(events) >= 2
  {
    CountIsErrorsSinceReset(events);
  }

  /** Deny by default: true is returned only if OPA answered true to this very
      request, after it was let through. */
  lemma {:induction false} TrueOnlyFromOpa(events: seq<Event>, c: nat) returns (k: nat)
    requires var s := Run(INITIAL, events); c in s.returned && s.returned[c]
    ensures k < |events| && events[k] == Answer(c, true) && c in Run(INITIAL, events[..k]).inFlight
  {
    var n := |events| - 1;
    var before := Run(INITIAL, events[..n]);
    if c in before.returned && before.returned[c] {
      k := TrueOnlyFromOpa(events[..n], c);
      assert events[..n][..k] == events[..k];
    } else {
      k := n;
    }
  }

  /** Trips overlap, and the first to end closes the breaker for all: once
      open, it stays open exactly until the first sleeping task ends, whatever
      other tasks are still asleep. */
  lemma {:induction false} OpenUntilFirstTripEnds(s: State, events: seq<Event>, last: Event)
    requires s.isOpen && forall i :: 0 <= i < |events| ==> !events[i].TripEnds?
    ensures Run(s, events).isOpen
    ensures Step(Run(s, events), last).isOpen <==> !(last.TripEnds? && Enabled(Run(s, events), last))
    decreases |events|
  {
    if events != [] {
      OpenUntilFirstTripEnds(s, events[..|events| - 1], events[|events| - 1]);
    }
  }

  predicate Asleep(s: State, t: nat) {
    t in s.trips && s.trips[t] == Sleeping
  }

  /** What one would expect of the breaker: open while some trip task sleeps. */
  predicate OpenWhileAsleep(s: State) {
    (exists t :: t in s.trips && Asleep(s, t)) ==> s.isOpen
  }

  predicate AlwaysOpenWhileAsleep(events: seq<Event>) {
    OpenWhileAsleep(Run(INITIAL, events)) && (events == [] || AlwaysOpenWhileAsleep(events[..|events| - 1]))
  }

  /** A trip task ends while another one sleeps. */
  predicate EndsOverAnother(s: State, e: Event) {
    e.TripEnds? && Asleep(s, e.task) && exists t :: t in s.trips && Asleep(s, t) && t != e.task
  }

  predicate TripsEndAlone(events: seq<Event>) {
    events == [] ||
    (TripsEndAlone(events[..|events| - 1]) &&
      !EndsOverAnother(Run(INITIAL, events[..|events| - 1]), events[|events| - 1]))
  }

  lemma OpenWhileAsleepStep(s: State, e: Event)
    requires OpenWhileAsleep(s)
    ensures OpenWhileAsleep(Step(s, e)) <==> !EndsOverAnother(s, e)
  {
    var s' := Step(s, e);
    if EndsOverAnother(s, e) {
      var t :| t in s.trips && Asleep(s, t) && t != e.task;
      assert Asleep(s', t);
    } else if t :| t in s'.trips && Asleep(s', t) {
      assert (Enabled(s, e) && e.TripStarts?) || Asleep(s, t);
    }
  }

  /** Exactly when the breaker is open whenever a trip task sleeps, over a whole
      run: when no trip task ends while another one sleeps. */
  lemma {:induction false} OpenIffTripsEndAlone(events: seq<Event>)
    ensures AlwaysOpenWhileAsleep(events) <==> TripsEndAlone(events)
  {
    if events != [] {
      var earlier, last := events[..|events| - 1], events[|events| - 1];
      OpenIffTripsEndAlone(earlier);
      if AlwaysOpenWhileAsleep(earlier) {
        AlwaysOpenNow(earlier);
        OpenWhileAsleepStep(Run(INITIAL, earlier), last);
      }
    }
  }

  lemma AlwaysOpenNow(events: seq<Event>)
    requires AlwaysOpenWhileAsleep(events)
    ensures OpenWhileAsleep(Run(INITIAL, events))
  {
  }

  lemma RunSnoc(events: seq<Event>, e: Event)
    ensures Run(INITIAL, events + [e]) == Step(Run(INITIAL, events), e)
  {
    assert (events + [e])[..|events|] == events;
  }

  /** Four requests in flight fail: the third and the fourth each create a trip
      task, numbered 3 and 4. */
  function FourFail(): seq<Event> {
    [Call(1)] + [Call(2)] + [Call(3)] + [Call(4)] +
    [CommunicationError(1, 1)] + [CommunicationError(2, 2)] + [CommunicationError(3, 3)] + [CommunicationError(4, 4)]
  }

  lemma FourFailRuns()
    ensures var s := Run(INITIAL, FourFail());
            s.failureCount == 4 && !s.isOpen && s.inFlight == {} && s.trips == map[3 := Created, 4 := Created]
  {
    var called := [Call(1)] + [Call(2)] + [Call(3)] + [Call(4)];
    RunSnoc([], Call(1));
    assert [] + [Call(1)] == [Call(1)];
    RunSnoc([Call(1)], Call(2));
    RunSnoc([Call(1)] + [Call(2)], Call(3));
    RunSnoc([Call(1)] + [Call(2)] + [Call(3)], Call(4));
    assert Run(INITIAL, called) == State(0, false, {1, 2, 3, 4}, map[], map[]);
    RunSnoc(called, CommunicationError(1, 1));
    RunSnoc(called + [CommunicationError(1, 1)], CommunicationError(2, 2));
    RunSnoc(called + [CommunicationError(1, 1)] + [CommunicationError(2, 2)], CommunicationError(3, 3));
    RunSnoc(called + [CommunicationError(1, 1)] + [CommunicationError(2, 2)] + [CommunicationError(3, 3)],
      CommunicationError(4, 4));
  }

  /** Both open the breaker, and the first to end closes it over the other. */
  lemma ClosedOverSleepingTrip()
    ensures var s := Run(INITIAL, FourFail() + [TripStarts(3)] + [TripStarts(4)] + [TripEnds(3)]);
            !s.isOpen && Asleep(s, 4) && !OpenWhileAsleep(s)
  {
    FourFailRuns();
    RunSnoc(FourFail(), TripStarts(3));
    RunSnoc(FourFail() + [TripStarts(3)], TripStarts(4));
    RunSnoc(FourFail() + [TripStarts(3)] + [TripStarts(4)], TripEnds(3));
  }

  class ResilientOpaClient {
    var failureCount: nat
    var isOpen: bool
    var inFlight: set<nat>
    var returned: map<nat, bool>
    var trips: map<nat, Trip>

    constructor ()
      ensures View() == INITIAL
    {
      failureCount, isOpen, inFlight, returned, trips := 0, false, {}, map[], map[];
    }

    function View(): State
      reads this
    {
      State(failureCount, isOpen, inFlight, returned, trips)
    }

    /** Up to the request to OPA: refused at once while the breaker is open. */
    method BeginEvaluate(c: nat) returns (refused: bool)
      requires Enabled(View(), Call(c))
      modifies this
      ensures View() == Step(old(View()), Call(c)) && refused == old(isOpen)
      ensures if refused then c in returned && !returned[c] && inFlight == old(inFlight) else c in inFlight
      ensures old(Inv(View())) ==> Inv(View())
    {
      if Inv(View()) { StepKeepsInv(View(), Call(c)); }
      if isOpen {
        inFlight, returned := inFlight - {c}, returned[c := false];
        return true;
      }
      inFlight := inFlight + {c};
      return false;
    }

    /** OPA's answer. */
    method EndEvaluate(c: nat, allow: bool) returns (result: bool)
      requires Enabled(View(), Answer(c, allow))
      modifies this
      ensures View() == Step(old(View()), Answer(c, allow)) && result == allow
      ensures failureCount == 0 && isOpen == old(isOpen) && trips == old(trips) && returned == old(returned)[c := allow]
      ensures old(Inv(View())) ==> Inv(View())
    {
      if Inv(View()) { StepKeepsInv(View(), Answer(c, allow)); }
      failureCount := 0;
      inFlight, returned := inFlight - {c}, returned[c := allow];
      return allow;
    }

    /** No answer, or an error status. */
    method FailEvaluate(c: nat, task: nat) returns (result: bool)
      requires Enabled(View(), CommunicationError(c, task))
      modifies this
      ensures View() == Step(old(View()), CommunicationError(c, task)) && !result
      ensures failureCount == old(failureCount) + 1 && isOpen == old(isOpen) && returned == old(returned)[c := false]
      ensures trips == if old(failureCount) >= 2 then old(trips)[task := Created] else old(trips)
      ensures old(Inv(View())) ==> Inv(View())
    {
      if Inv(View()) { StepKeepsInv(View(), CommunicationError(c, task)); }
      failureCount := failureCount + 1;
      if failureCount >= THRESHOLD {
        trips := trips[task := Created];
      }
      inFlight, returned := inFlight - {c}, returned[c := false];
      return false;
    }

    method TripBreaker(task: nat)
      requires Enabled(View(), TripStarts(task))
      modifies this
      ensures View() == Step(old(View()), TripStarts(task))
      ensures isOpen && trips == old(trips)[task := Sleeping] && failureCount == old(failureCount)
      ensures old(Inv(View())) ==> Inv(View())
    {
      if Inv(View()) { StepKeepsInv(View(), TripStarts(task)); }
      isOpen := true;
      trips := trips[task := Sleeping];
    }

    method HalfOpen(task: nat)
      requires Enabled(View(), TripEnds(task))
      modifies this
      ensures View() == Step(old(View()), TripEnds(task))
      ensures !isOpen && trips == old(trips) - {task} && failureCount == 0
      ensures old(Inv(View())) ==> Inv(View())
    {
      if Inv(View()) { StepKeepsInv(View(), TripEnds(task)); }
      isOpen := false;
      failureCount := 0;
      trips := trips - {task};
    }
  }
}
