/** Flush tasks that overlap.  `create_task(flush_batch(batch))` of
    core/app/stages.py starts a task per batch; each reads `prev_root` before
    its POST and writes `prev_root` when an answer comes, and `retry_worker`
    writes it when the WAL line of a lost POST is answered later; so whatever
    was written in between is lost. */
module FlushTasks {
  import opened Hashing
  import opened Gateway
  import AuditBuffer
  import Merkle

  /** A task whose POST, or the WAL line of whose lost POST, may still be
      answered.  `base` is the head it read; `history` and `since` say which
      batches that head stands for and how many answers had come by then. */
  datatype Task = Task(batch: seq<string>, base: string, history: seq<seq<string>>, since: nat, lost: bool)

  /** `begun` lists the batches of all tasks, a task's number being its place;
      `answered` the numbers of those answered, in order of their answers;
      `lineage` the batches that the head stands for. */
  datatype State = State(prevRoot: string, waiting: map<nat, Task>, begun: seq<seq<string>>,
                         answered: seq<nat>, lineage: seq<seq<string>>)

  const INITIAL := State(ZERO, map[], [], [], [])

  datatype Event =
    | Begin(batch: seq<string>)   // up to the POST
    | Answer(task: nat)           // the POST, or a retry of its WAL line, is answered
    | Lose(task: nat)             // the POST raises: a line goes to the WAL
    | Drop(task: nat)             // no more answer: the task died, or the WAL was rewritten without the line

  function Step(h: Hash, s: State, e: Event): State {
    match e
    case Begin(batch) =>
      var task := Task(batch, s.prevRoot, s.lineage, |s.answered|, false);
      s.(waiting := s.waiting[|s.begun| := task], begun := s.begun + [batch])
    case Answer(t) =>
      if t !in s.waiting then s
      else
        var task := s.waiting[t];
        s.(prevRoot := h(task.base + Merkle.Root(h, task.batch)),
           waiting := if task.lost then s.waiting else s.waiting - {t},
           answered := s.answered + [t], lineage := task.history + [task.batch])
    case Lose(t) => if t in s.waiting then s.(waiting := s.waiting[t := s.waiting[t].(lost := true)]) else s
    case Drop(t) => s.(waiting := s.waiting - {t})
  }

  function Run(h: Hash, events: seq<Event>): State {
    if events == [] then INITIAL
    else Step(h, Run(h, events[..|events| - 1]), events[|events| - 1])
  }

  /** The batches of the tasks answered, in order of their answers. */
  function Answered(s: State): (batches: seq<seq<string>>)
    requires forall i :: 0 <= i < |s.answered| ==> s.answered[i] < |s.begun|
    ensures |batches| == |s.answered|
  {
    seq(|s.answered|, i requires 0 <= i < |s.answered| => s.begun[s.answered[i]])
  }

  /** No answer came while a task that is answered later was waiting. */
  predicate Orderly(h: Hash, events: seq<Event>) {
    events == [] ||
    (var before, last := Run(h, events[..|events| - 1]), events[|events| - 1];
     && Orderly(h, events[..|events| - 1])
     && (last.Answer? && last.task in before.waiting ==> before.waiting[last.task].since == |before.answered|))
  }

  /** `part` arises from `whole` by leaving batches out. */
  predicate IsPart(part: seq<seq<string>>, whole: seq<seq<string>>) {
    if part == [] then true
    else if whole == [] then false
    else
      || (part[|part| - 1] == whole[|whole| - 1] && IsPart(part[..|part| - 1], whole[..|whole| - 1]))
      || IsPart(part, whole[..|whole| - 1])
  }

  lemma PartSnoc(part: seq<seq<string>>, whole: seq<seq<string>>, batch: seq<string>)
    requires IsPart(part, whole)
    ensures IsPart(part, whole + [batch]) && IsPart(part + [batch], whole + [batch])
  {
    assert (whole + [batch])[..|whole|] == whole && (part + [batch])[..|part|] == part;
  }

  // ---------------------------------------------------------------- invariant

  predicate TaskFits(h: Hash, s: State, t: nat, task: Task)
    requires forall i :: 0 <= i < |s.answered| ==> s.answered[i] < |s.begun|
  {
    && t < |s.begun| && s.begun[t] == task.batch
    && task.base == HeadAfter(h, task.history)
    && |task.history| <= task.since <= |s.answered|
    && (task.since == |s.answered| ==> task.history == s.lineage)
    && IsPart(task.history, Answered(s))
  }

  predicate Inv(h: Hash, s: State) {
    && (forall i :: 0 <= i < |s.answered| ==> s.answered[i] < |s.begun|)
    && s.prevRoot == HeadAfter(h, s.lineage)
    && |s.lineage| <= |s.answered|
    && IsPart(s.lineage, Answered(s))
    && forall t :: t in s.waiting ==> TaskFits(h, s, t, s.waiting[t])
  }

  /** What orderly runs keep besides. */
  predicate InOrder(s: State)
    requires forall i :: 0 <= i < |s.answered| ==> s.answered[i] < |s.begun|
  {
    && s.lineage == Answered(s)
    && (forall i, j :: 0 <= i < j < |s.answered| ==> s.answered[i] < s.answered[j])
    && forall t, i :: t in s.waiting && s.waiting[t].since == |s.answered| && 0 <= i < |s.answered| ==>
      s.answered[i] < t
  }

  lemma AnsweredSnoc(h: Hash, s: State, t: nat)
    requires Inv(h, s) && t in s.waiting
    ensures forall i :: 0 <= i < |s.answered| + 1 ==> (s.answered + [t])[i] < |s.begun|
    ensures Answered(s.(answered := s.answered + [t])) == Answered(s) + [s.waiting[t].batch]
  {
    assert TaskFits(h, s, t, s.waiting[t]);
  }

  lemma BeginKeepsInv(h: Hash, s: State, batch: seq<string>)
    requires Inv(h, s)
    ensures Inv(h, Step(h, s, Begin(batch))) && Answered(Step(h, s, Begin(batch))) == Answered(s)
  {
    var s' := Step(h, s, Begin(batch));
    assert Answered(s') == Answered(s);
    forall t | t in s'.waiting ensures TaskFits(h, s', t, s'.waiting[t]) {
      if t != |s.begun| { assert TaskFits(h, s, t, s.waiting[t]); }
    }
  }

  lemma AnswerKeepsInv(h: Hash, s: State, t: nat)
    requires Inv(h, s) && t in s.waiting
    ensures Inv(h, Step(h, s, Answer(t)))
    ensures Answered(Step(h, s, Answer(t))) == Answered(s) + [s.waiting[t].batch]
  {
    var s', task := Step(h, s, Answer(t)), s.waiting[t];
    AnsweredSnoc(h, s, t);
    assert Answered(s') == Answered(s.(answered := s.answered + [t]));
    assert TaskFits(h, s, t, task);
    HeadSnoc(h, task.history, task.batch);
    PartSnoc(task.history, Answered(s), task.batch);
    forall u | u in s'.waiting ensures TaskFits(h, s', u, s'.waiting[u]) {
      assert TaskFits(h, s, u, s.waiting[u]);
      PartSnoc(s.waiting[u].history, Answered(s), task.batch);
    }
  }

  /** Steps that only change which tasks wait, or mark one lost. */
  lemma WaitingKeepsInv(h: Hash, s: State, s': State)
    requires Inv(h, s) && s' == s.(waiting := s'.waiting)
    requires forall t :: t in s'.waiting ==> t in s.waiting && s'.waiting[t].(lost := s.waiting[t].lost) == s.waiting[t]
    ensures Inv(h, s') && Answered(s') == Answered(s)
  {
    assert Answered(s') == Answered(s);
    forall t | t in s'.waiting ensures TaskFits(h, s', t, s'.waiting[t]) {
      assert TaskFits(h, s, t, s.waiting[t]);
    }
  }

  lemma StepKeepsInv(h: Hash, s: State, e: Event)
    requires Inv(h, s)
    ensures Inv(h, Step(h, s, e))
  {
    match e {
      case Begin(batch) => BeginKeepsInv(h, s, batch);
      case Answer(t) => if t in s.waiting { AnswerKeepsInv(h, s, t); }
      case Lose(t) => WaitingKeepsInv(h, s, Step(h, s, e));
      case Drop(t) => WaitingKeepsInv(h, s, Step(h, s, e));
    }
  }

  lemma {:induction false} RunKeepsInv(h: Hash, events: seq<Event>)
    ensures Inv(h, Run(h, events))
  {
    if events != [] {
      RunKeepsInv(h, events[..|events| - 1]);
      StepKeepsInv(h, Run(h, events[..|events| - 1]), events[|events| - 1]);
    }
  }

  /** Nobody who waits began after the latest answer. */
  lemma AllBegunBefore(h: Hash, s: State, t: nat)
    requires Inv(h, s) && t in s.waiting
    ensures forall u :: u in Step(h, s, Answer(t)).waiting ==>
      Step(h, s, Answer(t)).waiting[u].since < |Step(h, s, Answer(t)).answered|
  {
    var s' := Step(h, s, Answer(t));
    forall u | u in s'.waiting ensures s'.waiting[u].since < |s'.answered| {
      assert TaskFits(h, s, u, s.waiting[u]);
    }
  }

  lemma Increasing(answered: seq<nat>, t: nat)
    requires forall i, j :: 0 <= i < j < |answered| ==> answered[i] < answered[j]
    requires forall i :: 0 <= i < |answered| ==> answered[i] < t
    ensures forall i, j :: 0 <= i < j < |answered + [t]| ==> (answered + [t])[i] < (answered + [t])[j]
  {
  }

  lemma OrderlyAnswer(h: Hash, s: State, t: nat)
    requires Inv(h, s) && InOrder(s) && t in s.waiting && s.waiting[t].since == |s.answered|
    ensures Inv(h, Step(h, s, Answer(t))) && InOrder(Step(h, s, Answer(t)))
  {
    AnswerKeepsInv(h, s, t);
    assert TaskFits(h, s, t, s.waiting[t]);
    AllBegunBefore(h, s, t);
    Increasing(s.answered, t);
  }

  lemma OrderlyStep(h: Hash, s: State, e: Event)
    requires Inv(h, s) && InOrder(s)
    requires e.Answer? && e.task in s.waiting ==> s.waiting[e.task].since == |s.answered|
    ensures Inv(h, Step(h, s, e)) && InOrder(Step(h, s, e))
  {
    StepKeepsInv(h, s, e);
    match e {
      case Begin(batch) => BeginKeepsInv(h, s, batch);
      case Answer(t) => if t in s.waiting { OrderlyAnswer(h, s, t); }
      case Lose(t) => WaitingKeepsInv(h, s, Step(h, s, e));
      case Drop(t) => WaitingKeepsInv(h, s, Step(h, s, e));
    }
  }

  /** An answer that comes too late leaves a lineage shorter than what was answered. */
  lemma LengthStep(h: Hash, s: State, e: Event)
    requires Inv(h, s)
    ensures var s' := Step(h, s, e);
            if !e.Answer? || e.task !in s.waiting then
              s'.answered == s.answered && s'.lineage == s.lineage
            else if s.waiting[e.task].since == |s.answered| then
              |s'.answered| - |s'.lineage| == |s.answered| - |s.lineage|
            else
              |s'.lineage| < |s'.answered|
  {
    if e.Answer? && e.task in s.waiting { assert TaskFits(h, s, e.task, s.waiting[e.task]); }
  }

  lemma {:induction false} OrderlyInOrder(h: Hash, events: seq<Event>)
    ensures Inv(h, Run(h, events))
    ensures Orderly(h, events) ==> InOrder(Run(h, events))
    ensures !Orderly(h, events) ==> |Run(h, events).lineage| < |Run(h, events).answered|
  {
    RunKeepsInv(h, events);
    if events != [] {
      var before, last := Run(h, events[..|events| - 1]), events[|events| - 1];
      OrderlyInOrder(h, events[..|events| - 1]);
      LengthStep(h, before, last);
      if Orderly(h, events) { OrderlyStep(h, before, last); }
    }
  }

  // ----------------------------------------------------------------- theorems

  /** Whatever overlaps, the head stands for a tracked list of answered batches
      in order of their answers: for all of them if the run is orderly, and for
      strictly fewer otherwise. */
  lemma HeadIsTracked(h: Hash, events: seq<Event>)
    ensures var s := Run(h, events);
            && Inv(h, s)
            && s.prevRoot == HeadAfter(h, s.lineage)
            && IsPart(s.lineage, Answered(s))
            && (Orderly(h, events) <==> s.lineage == Answered(s))
            && (!Orderly(h, events) <==> |s.lineage| < |Answered(s)|)
  {
    OrderlyInOrder(h, events);
  }

  /** An answer extends the head by its batch if and only if the head that its
      task read is still the current one; otherwise the two texts collide. */
  lemma AnswerExtendsHead(h: Hash, events: seq<Event>, t: nat)
    requires t in Run(h, events).waiting
    ensures var s := Run(h, events);
            var task := s.waiting[t];
            var root := Merkle.Root(h, task.batch);
            var extended := HeadAfter(h, s.lineage + [task.batch]);
            var e := Collision(task.base + root, s.prevRoot + root);
            && (task.base == s.prevRoot ==> Step(h, s, Answer(t)).prevRoot == extended)
            && (Step(h, s, Answer(t)).prevRoot == extended && task.base != s.prevRoot ==> Genuine(h, e))
  {
    RunKeepsInv(h, events);
    var s := Run(h, events);
    HeadSnoc(h, s.lineage, s.waiting[t].batch);
    if s.waiting[t].base != s.prevRoot {
      AppendedDiffers(s.waiting[t].base, s.prevRoot, Merkle.Root(h, s.waiting[t].batch));
    }
  }

  lemma AppendedDiffers(x: string, y: string, tail: string)
    ensures x + tail == y + tail ==> x == y
  {
    if x + tail == y + tail {
      assert x == (x + tail)[..|x|] && y == (y + tail)[..|y|];
    }
  }

  /** The head covers all answered batches in order if and only if no answer
      came while a task answered later was waiting; the alternative is a
      collision or a preimage of the initial value. */
  lemma HeadCoversAnswered(h: Hash, events: seq<Event>)
    requires Wide(h)
    ensures var s := Run(h, events);
            && Inv(h, s)
            && (Orderly(h, events) ==> s.prevRoot == HeadAfter(h, Answered(s)))
            && (s.prevRoot == HeadAfter(h, Answered(s)) && !Orderly(h, events) ==>
                  Genuine(h, CompareHeads(h, s.lineage, Answered(s))) &&
                    !CompareHeads(h, s.lineage, Answered(s)).NoEvidence?)
  {
    OrderlyInOrder(h, events);
    var s := Run(h, events);
    if s.prevRoot == HeadAfter(h, Answered(s)) {
      SameHeadSameRoots(h, s.lineage, Answered(s));
    }
  }

  lemma {:induction false} IncreasingIsIdentity(order: seq<nat>, n: nat)
    requires |order| == n && forall i :: 0 <= i < n ==> order[i] < n
    requires forall i, j :: 0 <= i < j < n ==> order[i] < order[j]
    ensures forall i :: 0 <= i < n ==> order[i] == i
  {
    if n > 0 {
      assert forall i :: 0 <= i < n - 1 ==> order[i] < order[n - 1];
      IncreasingIsIdentity(order[..n - 1], n - 1);
      assert forall i :: 0 <= i < n - 1 ==> order[i] == order[..n - 1][i] == i;
      assert order[n - 1] < n && (n > 1 ==> order[n - 2] < order[n - 1]);
    }
  }

  lemma AllAnswered(h: Hash, events: seq<Event>)
    requires Orderly(h, events) && |Run(h, events).answered| == |Run(h, events).begun|
    ensures Inv(h, Run(h, events)) && Answered(Run(h, events)) == Run(h, events).begun
  {
    OrderlyInOrder(h, events);
    var s := Run(h, events);
    IncreasingIsIdentity(s.answered, |s.begun|);
  }

  /** In an orderly run in which every task is answered, the head covers every
      batch in the order in which the tasks began. */
  lemma OrderlyAnswersInTurn(h: Hash, events: seq<Event>)
    requires Orderly(h, events) && |Run(h, events).answered| == |Run(h, events).begun|
    ensures Run(h, events).prevRoot == HeadAfter(h, Run(h, events).begun)
  {
    AllAnswered(h, events);
    OrderlyInOrder(h, events);
  }

  /** A flush that nothing interrupts does what `FlushBatch` does with an answer. */
  lemma UninterruptedFlush(h: Hash, sign: Signer, now: string, events: seq<Event>, batch: seq<string>)
    ensures var s := Run(h, events);
            var after := Run(h, events + [Begin(batch)] + [Answer(|s.begun|)]);
            && after.prevRoot == Payload(h, sign, now, s.prevRoot, batch).rootHash
            && after.prevRoot == HeadAfter(h, s.lineage + [batch])
            && (Orderly(h, events) ==> Orderly(h, events + [Begin(batch)] + [Answer(|s.begun|)]))
  {
    RunKeepsInv(h, events);
    var s := Run(h, events);
    var first := events + [Begin(batch)];
    var second := first + [Answer(|s.begun|)];
    assert first[..|events|] == events && second[..|first|] == first;
    HeadSnoc(h, s.lineage, batch);
  }

  /** Two tasks begun one after the other, and one of them answered. */
  lemma TwoBegunOneAnswered(h: Hash, a: seq<string>, b: seq<string>, t: nat)
    requires t < 2
    ensures var s := Run(h, [Begin(a), Begin(b), Answer(t)]);
            s.waiting == map[1 - t := Task(if t == 0 then b else a, ZERO, [], 0, false)]
  {
    var one, two := [Begin(a)], [Begin(a), Begin(b)];
    assert one[..0] == [] && two[..1] == one && [Begin(a), Begin(b), Answer(t)][..2] == two;
    assert Run(h, one).waiting == map[0 := Task(a, ZERO, [], 0, false)];
    assert Run(h, two).waiting == map[0 := Task(a, ZERO, [], 0, false), 1 := Task(b, ZERO, [], 0, false)];
  }

  /** Two overlapping tasks: whichever is answered first is forgotten. */
  lemma OverlapForgets(h: Hash, a: seq<string>, b: seq<string>, first: nat)
    requires first < 2
    ensures Run(h, [Begin(a), Begin(b), Answer(first), Answer(1 - first)]).prevRoot ==
            HeadAfter(h, [if first == 0 then b else a])
  {
    var events := [Begin(a), Begin(b), Answer(first), Answer(1 - first)];
    TwoBegunOneAnswered(h, a, b, first);
    assert events[..3] == [Begin(a), Begin(b), Answer(first)];
    HeadSnoc(h, [], if first == 0 then b else a);
    assert [] + [if first == 0 then b else a] == [if first == 0 then b else a];
  }

  // ---------------------------------------------------- from arrivals to the head

  predicate HashesArrive(events: seq<AuditBuffer.Event>) {
    forall i :: 0 <= i < |events| && events[i].Arrive? ==> |events[i].hash| == DIGEST_LENGTH
  }

  lemma {:induction false} BufferedDigests(events: seq<AuditBuffer.Event>)
    requires HashesArrive(events)
    ensures Batches(AuditBuffer.Run(events).batches) && Merkle.Digests(AuditBuffer.Run(events).pending)
  {
    if events != [] {
      BufferedDigests(events[..|events| - 1]);
    }
  }

  /** A run of the audit stage and of its flush tasks: the tasks begin in the
      order in which the batches were handed over. */
  predicate Flushes(h: Hash, arrivals: seq<AuditBuffer.Event>, flushes: seq<Event>) {
    HashesArrive(arrivals) && Run(h, flushes).begun == AuditBuffer.Run(arrivals).batches
  }

  lemma AnsweredDigests(h: Hash, arrivals: seq<AuditBuffer.Event>, flushes: seq<Event>)
    requires Flushes(h, arrivals, flushes)
    ensures Inv(h, Run(h, flushes)) && Batches(Answered(Run(h, flushes)))
  {
    RunKeepsInv(h, flushes);
    BufferedDigests(arrivals);
    var s := Run(h, flushes);
    forall i | 0 <= i < |s.answered| ensures Merkle.Digests(Answered(s)[i]) {
      assert Merkle.Digests(s.begun[s.answered[i]]);
    }
  }

  /** End to end.  Two gateways, with any arrivals and timer ticks and any
      orderly flush tasks, lost ones included, that end in the same head: if
      the batches answered had the same sizes, they held the same event hashes
      in the same order, or a collision is exhibited; and where every task was
      answered these are all arrivals up to what is still buffered. */
  lemma SameHeadSameAuditTrail(h: Hash, x: seq<AuditBuffer.Event>, f: seq<Event>, y: seq<AuditBuffer.Event>,
                               g: seq<Event>)
    requires Wide(h) && Flushes(h, x, f) && Flushes(h, y, g) && Orderly(h, f) && Orderly(h, g)
    requires Run(h, f).prevRoot == Run(h, g).prevRoot
    ensures var s, t := Run(h, f), Run(h, g);
            && Inv(h, s) && Inv(h, t)
            && (SameSizes(Answered(s), Answered(t)) ==>
                  && Genuine(h, Compare(h, Answered(s), Answered(t)))
                  && (Compare(h, Answered(s), Answered(t)).NoEvidence? ==> Answered(s) == Answered(t)))
            && (|s.answered| == |s.begun| ==>
                  AuditBuffer.Arrivals(x) == AuditBuffer.Flatten(Answered(s)) + AuditBuffer.Run(x).pending)
  {
    AnsweredDigests(h, x, f);
    AnsweredDigests(h, y, g);
    HeadIsTracked(h, f);
    HeadIsTracked(h, g);
    var s, t := Run(h, f), Run(h, g);
    if SameSizes(Answered(s), Answered(t)) {
      SameHeadSameHistory(h, Answered(s), Answered(t));
    }
    AuditBuffer.NothingLost(x);
    if |s.answered| == |s.begun| {
      AllAnswered(h, f);
    }
  }

  /** The same for events, and with nothing known about sizes: if two gateways
      end in the same head after orderly flushes, they audited the same events
      up to the repetition of an odd last event, and the very same events where
      no batch repeats one; or evidence is exhibited. */
  lemma SameHeadSameEventsAudited(h: Hash, f: seq<Event>, x: seq<seq<string>>, g: seq<Event>, y: seq<seq<string>>)
    requires Wide(h) && Orderly(h, f) && Orderly(h, g) && Inv(h, Run(h, f)) && Inv(h, Run(h, g))
    requires AllEvents(h, x) && Answered(Run(h, f)) == Hashed(h, x)
    requires AllEvents(h, y) && Answered(Run(h, g)) == Hashed(h, y)
    requires Run(h, f).prevRoot == Run(h, g).prevRoot
    ensures Genuine(h, CompareEvents(h, x, y))
    ensures CompareEvents(h, x, y).NoEvidence? ==>
      SameShapes(x, y) && (AllDistinct(x) && AllDistinct(y) ==> x == y)
  {
    HeadIsTracked(h, f);
    HeadIsTracked(h, g);
    SameHeadIffSameShapes(h, x, y);
    if AllDistinct(x) && AllDistinct(y) { SameHeadSameEvents(h, x, y); }
  }
}
