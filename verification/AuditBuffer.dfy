/** The in-memory audit buffer of core/app/stages.py and its two flush paths:
    the threshold in `ForensicAuditStage.process` and the periodic timer. */
module AuditBuffer {

  const MAX_BUFFER_SIZE := 10000
  const FLUSH_THRESHOLD := 5

  /** Event hashes still buffered, and the batches handed to flush tasks, in order. */
  datatype State = State(pending: seq<string>, batches: seq<seq<string>>)

  /** What happens to the buffer while its lock is held once. */
  datatype Event = Arrive(hash: string) | Tick

  const EMPTY := State([], [])

  predicate Full(s: State) {
    |s.pending| >= MAX_BUFFER_SIZE
  }

  function HandOver(s: State): State {
    State([], s.batches + [s.pending])
  }

  function Step(s: State, e: Event): State {
    match e
    case Arrive(hash) =>
      if Full(s) then s  // "Audit buffer full" is raised
      else
        var grown := s.(pending := s.pending + [hash]);
        if |grown.pending| >= FLUSH_THRESHOLD then HandOver(grown) else grown
    case Tick =>
      if s.pending != [] then HandOver(s) else s
  }

  function Run(events: seq<Event>): State {
    if events == [] then EMPTY
    else Step(Run(events[..|events| - 1]), events[|events| - 1])
  }

  /** Event hashes in order of arrival. */
  function Arrivals(events: seq<Event>): seq<string> {
    if events == [] then []
    else
      Arrivals(events[..|events| - 1]) +
      match events[|events| - 1] { case Arrive(hash) => [hash] case Tick => [] }
  }

  function Flatten(batches: seq<seq<string>>): seq<string> {
    if batches == [] then []
    else Flatten(batches[..|batches| - 1]) + batches[|batches| - 1]
  }

  predicate Sound(s: State) {
    && |s.pending| < FLUSH_THRESHOLD
    && forall i :: 0 <= i < |s.batches| ==> 1 <= |s.batches[i]| <= FLUSH_THRESHOLD
  }

  /** One event moves hashes from the buffer to the batches, and adds at most
      the one that arrives. */
  lemma StepConserves(s: State, e: Event)
    requires Sound(s)
    ensures Sound(Step(s, e))
    ensures var s' := Step(s, e);
            Flatten(s'.batches) + s'.pending ==
            Flatten(s.batches) + s.pending + match e { case Arrive(hash) => [hash] case Tick => [] }
  {
  }

  /** Conservation.  After any mixture of arrivals and timer ticks, the batches
      handed over followed by the buffer are exactly the hashes that arrived,
      in order: nothing is lost, duplicated or refused. */
  lemma {:induction false} NothingLost(events: seq<Event>)
    ensures Sound(Run(events)) && !Full(Run(events))
    ensures |Run(events).pending| < 5
    ensures forall i :: 0 <= i < |Run(events).batches| ==> 1 <= |Run(events).batches[i]| <= 5
    ensures Flatten(Run(events).batches) + Run(events).pending == Arrivals(events)
  {
    if events != [] {
      NothingLost(events[..|events| - 1]);
      StepConserves(Run(events[..|events| - 1]), events[|events| - 1]);
    }
  }

  /** The module-level list and the flush tasks it feeds. */
  class Buffer {
    var pending: seq<string>
    var handed: seq<seq<string>>

    constructor ()
      ensures View() == EMPTY
    {
      pending, handed := [], [];
    }

    function View(): State
      reads this
    {
      State(pending, handed)
    }

    /** The fifth hash hands all five over.  (More than five can only be there if
        the buffer did not start empty, and ten thousand are refused.) */
    method Process(eventHash: string) returns (refused: bool)
      modifies this
      ensures View() == Step(old(View()), Arrive(eventHash))
      ensures refused <==> old(Full(View()))
      ensures var grown := old(pending) + [eventHash];
              if |old(pending)| >= 10000 then pending == old(pending) && handed == old(handed)
              else if |grown| >= 5 then pending == [] && handed == old(handed) + [grown]
              else pending == grown && handed == old(handed)
      ensures refused <==> |old(pending)| >= 10000
      ensures old(Sound(View())) ==> Sound(View()) && !refused
    {
      if |pending| >= MAX_BUFFER_SIZE {
        return true;
      }
      pending := pending + [eventHash];
      if |pending| >= FLUSH_THRESHOLD {
        var batch := pending;
        pending := [];
        handed := handed + [batch];
      }
      return false;
    }

    method PeriodicFlush()
      modifies this
      ensures View() == Step(old(View()), Tick)
      ensures pending == []
      ensures handed == if old(pending) == [] then old(handed) else old(handed) + [old(pending)]
      ensures Flatten(handed) == old(Flatten(handed) + pending)
    {
      if pending != [] {
        var batch := pending;
        pending := [];
        assert (handed + [batch])[..|handed|] == handed;
        handed := handed + [batch];
      }
    }
  }
}
