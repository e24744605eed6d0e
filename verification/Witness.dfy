/** Gateway and SIEM together, with the WAL between them: which heads they hold
    after any sequence of flushes and retries whose POSTs may be lost, answered,
    or processed without an answer, and of restarts of the gateway. */
module Witness {
  import opened Hashing
  import opened Gateway
  import Merkle
  import Siem

  /** The batches a head stands for, oldest first. */
  type History = seq<seq<string>>

  /** The digest, the gateway's key and the SIEM's check of signatures. */
  datatype Crypto = Crypto(h: Hash, sign: Signer, verify: Siem.Verifier)

  /** A submission, and the history its root stands for. */
  datatype Line = Line(sub: Siem.Submission, history: History)

  /** `lineage` is the history that the gateway's head stands for and `rows` are
      those of the roots that the SIEM stored; `adopted` are all histories the
      gateway's head ever stood for. */
  datatype State = State(world: World, wal: seq<Line>, lineage: History, rows: seq<History>, adopted: set<History>)

  const START := State(World(ZERO, []), [], [], [], {[]})

  datatype Event =
    | FlushBatch(x: Exchange)
    | RetryLine(k: nat, post: Post, dbError: bool)  // one line of a pass of `retry_worker`
    | RewriteWal(kept: seq<nat>)                    // the file afterwards: any of its lines
    | Restart                                       // `prev_root` is zeros again, the file stays

  function NextLine(c: Crypto, s: State, x: Exchange): Line {
    Line(Payload(c.h, c.sign, x.now, s.world.prevRoot, x.batch), s.lineage + [x.batch])
  }

  predicate Accepts(c: Crypto, s: State, sub: Siem.Submission, dbError: bool) {
    Siem.Judge(c.verify, s.world.table, sub, dbError) == Siem.Accepted
  }

  /** One POST of a line. */
  function Send(c: Crypto, s: State, line: Line, post: Post, dbError: bool): State {
    var lineage := if post == Answered then line.history else s.lineage;
    State(
      Deliver(c.verify, s.world, line.sub, post, dbError), s.wal, lineage,
      if post != NeverArrived && Accepts(c, s, line.sub, dbError) then s.rows + [line.history] else s.rows,
      s.adopted + {lineage})
  }

  function Keep(wal: seq<Line>, kept: seq<nat>): seq<Line> {
    if kept == [] then []
    else
      var k := kept[|kept| - 1];
      Keep(wal, kept[..|kept| - 1]) + if k < |wal| then [wal[k]] else []
  }

  function Step(c: Crypto, s: State, e: Event): State {
    match e
    case FlushBatch(x) =>
      var line := NextLine(c, s, x);
      var sent := Send(c, s, line, x.post, x.dbError);
      if x.post == Answered then sent else sent.(wal := s.wal + [line])
    case RetryLine(k, post, dbError) =>
      if k < |s.wal| then Send(c, s, s.wal[k], post, dbError) else s
    case RewriteWal(kept) => s.(wal := Keep(s.wal, kept))
    case Restart => s.(world := s.world.(prevRoot := ZERO), lineage := [], adopted := s.adopted + {[]})
  }

  function Run(c: Crypto, s: State, events: seq<Event>): State
    decreases |events|
  {
    if events == [] then s else Step(c, Run(c, s, events[..|events| - 1]), events[|events| - 1])
  }

  /** The history that the SIEM's latest root stands for. */
  function Tip(rows: seq<History>): History {
    if rows == [] then [] else rows[|rows| - 1]
  }

  predicate Agree(w: World) {
    w.prevRoot == Siem.LatestRoot(w.table)
  }

  // ---------------------------------------------------------------- invariant

  /** The history without its last batch. */
  function Before(history: History): History {
    if history == [] then [] else history[..|history| - 1]
  }

  predicate Fits(h: Hash, history: History, sub: Siem.Submission) {
    history != [] && sub.rootHash == HeadAfter(h, history) && sub.prevHash == HeadAfter(h, Before(history))
  }

  ghost predicate TableFits(h: Hash, v: Siem.Verifier, rows: seq<History>, table: seq<Siem.Submission>) {
    && |rows| == |table|
    && (forall i :: 0 <= i < |table| ==> Fits(h, rows[i], table[i]))
    && Siem.Linked(v, table)
  }

  ghost predicate Inv(c: Crypto, s: State) {
    && s.world.prevRoot == HeadAfter(c.h, s.lineage)
    && s.lineage in s.adopted
    && TableFits(c.h, c.verify, s.rows, s.world.table)
    && (forall i :: 0 <= i < |s.rows| ==> Before(s.rows[i]) in s.adopted)
    && (forall k :: 0 <= k < |s.wal| ==>
      Fits(c.h, s.wal[k].history, s.wal[k].sub) && Before(s.wal[k].history) in s.adopted)
  }

  lemma SendKeepsInv(c: Crypto, s: State, line: Line, post: Post, dbError: bool)
    requires Inv(c, s) && Fits(c.h, line.history, line.sub) && Before(line.history) in s.adopted
    ensures Inv(c, Send(c, s, line, post, dbError))
  {
    Siem.AcceptanceKeepsLinked(c.verify, s.world.table, line.sub, dbError);
  }

  lemma NextLineFits(c: Crypto, s: State, x: Exchange)
    requires Inv(c, s)
    ensures Fits(c.h, NextLine(c, s, x).history, NextLine(c, s, x).sub) &&
      Before(NextLine(c, s, x).history) == s.lineage
  {
    HeadSnoc(c.h, s.lineage, x.batch);
  }

  lemma {:induction false} KeptLines(wal: seq<Line>, kept: seq<nat>)
    ensures forall k :: 0 <= k < |Keep(wal, kept)| ==> Keep(wal, kept)[k] in wal
  {
    if kept != [] { KeptLines(wal, kept[..|kept| - 1]); }
  }

  lemma StepKeepsInv(c: Crypto, s: State, e: Event)
    requires Inv(c, s)
    ensures Inv(c, Step(c, s, e))
  {
    match e {
      case FlushBatch(x) =>
        NextLineFits(c, s, x);
        SendKeepsInv(c, s, NextLine(c, s, x), x.post, x.dbError);
      case RetryLine(k, post, dbError) =>
        if k < |s.wal| { SendKeepsInv(c, s, s.wal[k], post, dbError); }
      case RewriteWal(kept) => KeptLines(s.wal, kept);
      case Restart =>
    }
  }

  lemma LatestIsTip(h: Hash, v: Siem.Verifier, rows: seq<History>, table: seq<Siem.Submission>)
    requires TableFits(h, v, rows, table)
    ensures Siem.LatestRoot(table) == HeadAfter(h, Tip(rows))
    ensures table == [] <==> Tip(rows) == []
  {
    if rows != [] { assert Fits(h, rows[|rows| - 1], table[|rows| - 1]); }
  }

  // ------------------------------------------------------------------ evidence

  function EvidenceIf(found: bool, e: Evidence): Evidence {
    if found then e else NoEvidence
  }

  /** What a state exhibits: an all-zero latest root, or equal heads of
      different histories. */
  function Finding(h: Hash, s: State): Evidence {
    var tip := Tip(s.rows);
    OrElse(EvidenceIf(HeadAfter(h, tip) == ZERO, CompareHeads(h, tip, [])),
           EvidenceIf(HeadAfter(h, s.lineage) == HeadAfter(h, tip), CompareHeads(h, s.lineage, tip)))
  }

  /** The first finding of a run. */
  function RunEvidence(c: Crypto, s: State, events: seq<Event>): Evidence
    decreases |events|
  {
    if events == [] then Finding(c.h, s)
    else OrElse(RunEvidence(c, s, events[..|events| - 1]), Finding(c.h, Run(c, s, events)))
  }

  /** Heads agree exactly if the histories they stand for have equal roots. */
  predicate Clear(h: Hash, s: State) {
    && (Agree(s.world) <==> SameRoots(h, s.lineage, Tip(s.rows)))
    && (Siem.LatestRoot(s.world.table) == ZERO <==> s.world.table == [])
  }

  lemma FindingSound(c: Crypto, s: State)
    requires Wide(c.h) && Inv(c, s)
    ensures Genuine(c.h, Finding(c.h, s))
    ensures Finding(c.h, s).NoEvidence? ==> Clear(c.h, s)
  {
    var tip := Tip(s.rows);
    LatestIsTip(c.h, c.verify, s.rows, s.world.table);
    if HeadAfter(c.h, tip) == ZERO { SameHeadSameRoots(c.h, tip, []); }
    if HeadAfter(c.h, s.lineage) == HeadAfter(c.h, tip) { SameHeadSameRoots(c.h, s.lineage, tip); }
    if SameRoots(c.h, s.lineage, tip) { SameRootsSameHead(c.h, s.lineage, tip); }
  }

  lemma {:induction false} RunKeepsInv(c: Crypto, s: State, events: seq<Event>)
    requires Wide(c.h) && Inv(c, s)
    ensures Inv(c, Run(c, s, events))
    ensures Genuine(c.h, RunEvidence(c, s, events))
    ensures RunEvidence(c, s, events).NoEvidence? ==> Clear(c.h, Run(c, s, events)) && Clear(c.h, s)
    decreases |events|
  {
    if events == [] {
      FindingSound(c, s);
    } else {
      RunKeepsInv(c, s, events[..|events| - 1]);
      StepKeepsInv(c, Run(c, s, events[..|events| - 1]), events[|events| - 1]);
      FindingSound(c, Run(c, s, events));
    }
  }

  // --------------------------------------------- when the heads agree all along

  /** The SIEM stores the submission if it arrives: the root is new, signed,
      inserted without error, and continues the table. */
  predicate Recordable(c: Crypto, table: seq<Siem.Submission>, sub: Siem.Submission, dbError: bool) {
    && !Siem.Stored(table, sub.rootHash)
    && c.verify(sub.rootHash, sub.signature) == Siem.ValidSignature
    && !dbError
    && (Siem.LatestRoot(table) == ZERO || sub.prevHash == Siem.LatestRoot(table))
  }

  lemma RecordableIsAccepted(c: Crypto, s: State, sub: Siem.Submission, dbError: bool)
    ensures Accepts(c, s, sub, dbError) <==> Recordable(c, s.world.table, sub, dbError)
  {
  }

  /** A flush must be answered exactly when there is something to record, unless
      it never arrives.  A retried line may also be answered when its root is
      the latest one already.  A restart needs an empty table. */
  predicate Harmless(c: Crypto, s: State, e: Event) {
    match e
    case FlushBatch(x) =>
      x.post == NeverArrived ||
      (x.post == Answered <==> Recordable(c, s.world.table, NextLine(c, s, x).sub, x.dbError))
    case RetryLine(k, post, dbError) =>
      k >= |s.wal| || post == NeverArrived ||
      (var sub := s.wal[k].sub;
       if Recordable(c, s.world.table, sub, dbError) then post == Answered
       else post == Answered ==> sub.rootHash == Siem.LatestRoot(s.world.table))
    case RewriteWal(_) => true
    case Restart => s.world.table == []
  }

  predicate AlwaysHarmless(c: Crypto, events: seq<Event>) {
    events == [] ||
    (AlwaysHarmless(c, events[..|events| - 1]) &&
      Harmless(c, Run(c, START, events[..|events| - 1]), events[|events| - 1]))
  }

  predicate AlwaysAgree(c: Crypto, events: seq<Event>) {
    Agree(Run(c, START, events).world) && (events == [] || AlwaysAgree(c, events[..|events| - 1]))
  }

  /** One POST from agreement. */
  lemma PostFromAgreement(c: Crypto, s: State, line: Line, post: Post, dbError: bool)
    requires Agree(s.world)
    ensures var s' := Send(c, s, line, post, dbError);
            var stored, latest := Recordable(c, s.world.table, line.sub, dbError), Siem.LatestRoot(s.world.table);
            Agree(s'.world) <==>
            match post
            case NeverArrived => true
            case Answered => stored || line.sub.rootHash == latest
            case AnswerLost => !stored || line.sub.rootHash == latest
  {
    RecordableIsAccepted(c, s, line.sub, dbError);
  }

  /** A new root is not the latest one, or the latest one is all zeros. */
  lemma RecordedIsNew(c: Crypto, s: State, line: Line, post: Post, dbError: bool)
    requires post == AnswerLost && Recordable(c, s.world.table, line.sub, dbError)
    requires line.sub.rootHash == Siem.LatestRoot(s.world.table)
    ensures !Clear(c.h, Send(c, s, line, post, dbError))
  {
    RecordableIsAccepted(c, s, line.sub, dbError);
    assert s.world.table == [];
    assert Send(c, s, line, post, dbError).world.table == [line.sub];
  }

  lemma FlushFromAgreement(c: Crypto, s: State, x: Exchange)
    requires Inv(c, s) && Agree(s.world) && Clear(c.h, s)
    requires Clear(c.h, Step(c, s, FlushBatch(x)))
    ensures Agree(Step(c, s, FlushBatch(x)).world) <==> Harmless(c, s, FlushBatch(x))
  {
    var line := NextLine(c, s, x);
    var s' := Step(c, s, FlushBatch(x));
    PostFromAgreement(c, s, line, x.post, x.dbError);
    RecordableIsAccepted(c, s, line.sub, x.dbError);
    if x.post == Answered && !Recordable(c, s.world.table, line.sub, x.dbError) {
      assert |s'.lineage| == |s.lineage| + 1 && s'.rows == s.rows;
    }
    if x.post == AnswerLost && Recordable(c, s.world.table, line.sub, x.dbError) {
      if line.sub.rootHash == Siem.LatestRoot(s.world.table) { RecordedIsNew(c, s, line, x.post, x.dbError); }
    }
  }

  lemma RetryFromAgreement(c: Crypto, s: State, k: nat, post: Post, dbError: bool)
    requires Agree(s.world) && Clear(c.h, Step(c, s, RetryLine(k, post, dbError)))
    ensures Agree(Step(c, s, RetryLine(k, post, dbError)).world) <==> Harmless(c, s, RetryLine(k, post, dbError))
  {
    if k < |s.wal| {
      var line := s.wal[k];
      PostFromAgreement(c, s, line, post, dbError);
      if post == AnswerLost && Recordable(c, s.world.table, line.sub, dbError) {
        if line.sub.rootHash == Siem.LatestRoot(s.world.table) { RecordedIsNew(c, s, line, post, dbError); }
      }
    }
  }

  lemma HarmlessStep(c: Crypto, s: State, e: Event)
    requires Agree(s.world) && Harmless(c, s, e)
    ensures Agree(Step(c, s, e).world)
  {
    match e {
      case FlushBatch(x) => PostFromAgreement(c, s, NextLine(c, s, x), x.post, x.dbError);
      case RetryLine(k, post, dbError) =>
        if k < |s.wal| { PostFromAgreement(c, s, s.wal[k], post, dbError); }
      case RewriteWal(_) =>
      case Restart =>
    }
  }

  lemma HarmfulStep(c: Crypto, s: State, e: Event)
    requires Inv(c, s) && Agree(s.world) && Clear(c.h, s) && Clear(c.h, Step(c, s, e)) && !Harmless(c, s, e)
    ensures !Agree(Step(c, s, e).world)
  {
    match e {
      case FlushBatch(x) => FlushFromAgreement(c, s, x);
      case RetryLine(k, post, dbError) => RetryFromAgreement(c, s, k, post, dbError);
      case Restart =>
    }
  }

  /** Gateway and SIEM agree on the head after every event if and only if every
      flush, every retry and every restart meets the condition, which mentions
      only the request and the state before it; the alternative is an exhibited
      collision or zero preimage. */
  lemma {:induction false} AgreeIffHarmless(c: Crypto, events: seq<Event>)
    requires Wide(c.h)
    ensures Genuine(c.h, RunEvidence(c, START, events))
    ensures AlwaysHarmless(c, events) ==> AlwaysAgree(c, events)
    ensures RunEvidence(c, START, events).NoEvidence? ==> (AlwaysHarmless(c, events) <==> AlwaysAgree(c, events))
  {
    RunKeepsInv(c, START, events);
    if events != [] {
      var earlier, last := events[..|events| - 1], events[|events| - 1];
      var s := Run(c, START, earlier);
      RunKeepsInv(c, START, earlier);
      AgreeIffHarmless(c, earlier);
      if Agree(s.world) {
        if Harmless(c, s, last) {
          HarmlessStep(c, s, last);
        } else if RunEvidence(c, START, events).NoEvidence? {
          HarmfulStep(c, s, last);
        }
      }
    }
  }

  // -------------------------------------------- when they agree again, event by event

  /** The event that ends a disagreement over a non-empty table: an answered
      POST of the latest root; an answered retry of a line that the SIEM records;
      or a retry recorded without an answer while the gateway stands at its root. */
  predicate Heals(c: Crypto, s: State, e: Event) {
    var latest := Siem.LatestRoot(s.world.table);
    match e
    case FlushBatch(x) => x.post == Answered && NextLine(c, s, x).sub.rootHash == latest
    case RetryLine(k, post, dbError) =>
      && k < |s.wal|
      && var sub := s.wal[k].sub;
         || (post == Answered && (sub.rootHash == latest || Recordable(c, s.world.table, sub, dbError)))
         || (post == AnswerLost && Recordable(c, s.world.table, sub, dbError) && sub.rootHash == s.world.prevRoot)
    case RewriteWal(_) => false
    case Restart => false
  }

  lemma FlushNotStored(c: Crypto, s: State, x: Exchange)
    requires Inv(c, s) && !Agree(s.world) && Clear(c.h, s) && s.rows != []
    ensures !Accepts(c, s, NextLine(c, s, x).sub, x.dbError)
  {
    RecordableIsAccepted(c, s, NextLine(c, s, x).sub, x.dbError);
  }

  lemma HealingStep(c: Crypto, s: State, e: Event)
    requires Inv(c, s) && !Agree(s.world) && Clear(c.h, s) && s.rows != []
    ensures Agree(Step(c, s, e).world) <==> Heals(c, s, e)
  {
    match e {
      case FlushBatch(x) => FlushNotStored(c, s, x);
      case RetryLine(k, post, dbError) =>
        if k < |s.wal| { RecordableIsAccepted(c, s, s.wal[k].sub, dbError); }
      case RewriteWal(_) =>
      case Restart =>
    }
  }

  predicate EverAgrees(c: Crypto, s: State, events: seq<Event>)
    decreases |events|
  {
    Agree(Run(c, s, events).world) || (events != [] && EverAgrees(c, s, events[..|events| - 1]))
  }

  predicate EverHeals(c: Crypto, s: State, events: seq<Event>)
    decreases |events|
  {
    events != [] &&
    (EverHeals(c, s, events[..|events| - 1]) || Heals(c, Run(c, s, events[..|events| - 1]), events[|events| - 1]))
  }

  lemma {:induction false} RowsGrow(c: Crypto, s: State, events: seq<Event>)
    ensures s.rows <= Run(c, s, events).rows
    decreases |events|
  {
    if events != [] { RowsGrow(c, s, events[..|events| - 1]); }
  }

  /** After a split over a non-empty table the heads agree again at some time of
      a run if and only if a healing event happens in it; or evidence is
      exhibited. */
  lemma {:induction false} AgreesAgainIffHealed(c: Crypto, s: State, events: seq<Event>)
    requires Wide(c.h) && Inv(c, s) && !Agree(s.world) && s.rows != []
    ensures Genuine(c.h, RunEvidence(c, s, events))
    ensures RunEvidence(c, s, events).NoEvidence? ==> (EverAgrees(c, s, events) <==> EverHeals(c, s, events))
    decreases |events|
  {
    RunKeepsInv(c, s, events);
    if events != [] {
      var earlier, last := events[..|events| - 1], events[|events| - 1];
      RunKeepsInv(c, s, earlier);
      RowsGrow(c, s, earlier);
      AgreesAgainIffHealed(c, s, earlier);
      if RunEvidence(c, s, events).NoEvidence? && !EverAgrees(c, s, earlier) {
        HealingStep(c, Run(c, s, earlier), last);
      }
    }
  }

  // ------------------------------------------------- when they can agree again at all

  /** `a` has the roots of the first batches of `b`. */
  predicate RootPrefix(h: Hash, a: History, b: History) {
    |a| <= |b| && forall i :: 0 <= i < |a| ==> Merkle.Root(h, a[i]) == Merkle.Root(h, b[i])
  }

  /** The SIEM would record the line, if its insert works. */
  predicate Resumable(c: Crypto, s: State, line: Line) {
    Recordable(c, s.world.table, line.sub, false)
  }

  /** The gateway stands, or can be put by a WAL line, on the way to the SIEM's
      latest root; or the WAL holds a line that continues from it. */
  predicate Recoverable(c: Crypto, s: State) {
    || RootPrefix(c.h, s.lineage, Tip(s.rows))
    || exists k :: 0 <= k < |s.wal| && (RootPrefix(c.h, s.wal[k].history, Tip(s.rows)) || Resumable(c, s, s.wal[k]))
  }

  predicate NoRestart(events: seq<Event>) {
    forall i :: 0 <= i < |events| ==> !events[i].Restart?
  }

  lemma UnrecoverableDisagrees(c: Crypto, s: State)
    requires Clear(c.h, s) && !Recoverable(c, s)
    ensures !Agree(s.world)
  {
  }

  lemma PrefixShrinks(h: Hash, a: History, batch: seq<string>, b: History)
    ensures RootPrefix(h, a + [batch], b) ==> RootPrefix(h, a, b)
  {
    assert forall i :: 0 <= i < |a| ==> (a + [batch])[i] == a[i];
  }

  lemma UnrecoverableFlush(c: Crypto, s: State, x: Exchange)
    requires Inv(c, s) && Clear(c.h, s) && s.rows != [] && !Recoverable(c, s)
    ensures var s' := Step(c, s, FlushBatch(x));
            s'.world.table == s.world.table && s'.rows == s.rows && !Recoverable(c, s')
  {
    UnrecoverableDisagrees(c, s);
    FlushNotStored(c, s, x);
    var s', line := Step(c, s, FlushBatch(x)), NextLine(c, s, x);
    PrefixShrinks(c.h, s.lineage, x.batch, Tip(s.rows));
    assert !Resumable(c, s, line);
    forall k | 0 <= k < |s'.wal|
      ensures !RootPrefix(c.h, s'.wal[k].history, Tip(s'.rows)) && !Resumable(c, s', s'.wal[k])
    {
      assert k < |s.wal| ==> s'.wal[k] == s.wal[k];
    }
  }

  lemma UnrecoverableStep(c: Crypto, s: State, e: Event)
    requires Inv(c, s) && Clear(c.h, s) && s.rows != [] && !Recoverable(c, s) && !e.Restart?
    ensures var s' := Step(c, s, e);
            s'.world.table == s.world.table && s'.rows == s.rows && !Recoverable(c, s')
  {
    match e {
      case FlushBatch(x) => UnrecoverableFlush(c, s, x);
      case RetryLine(k, post, dbError) =>
        if k < |s.wal| { RecordableIsAccepted(c, s, s.wal[k].sub, dbError); }
      case RewriteWal(kept) => KeptLines(s.wal, kept);
    }
  }

  /** In an unrecoverable state gateway and SIEM never agree again and the SIEM
      stores nothing more, whatever is flushed and retried, until the gateway is
      restarted; or evidence is exhibited. */
  lemma {:induction false} UnrecoverableForEver(c: Crypto, s: State, events: seq<Event>)
    requires Wide(c.h) && Inv(c, s) && s.rows != [] && !Recoverable(c, s) && NoRestart(events)
    ensures Genuine(c.h, RunEvidence(c, s, events))
    ensures RunEvidence(c, s, events).NoEvidence? ==>
      var s' := Run(c, s, events);
      !Recoverable(c, s') && !Agree(s'.world) && s'.world.table == s.world.table && s'.rows == s.rows
    decreases |events|
  {
    RunKeepsInv(c, s, events);
    if RunEvidence(c, s, events).NoEvidence? {
      if events != [] {
        UnrecoverableForEver(c, s, events[..|events| - 1]);
        RunKeepsInv(c, s, events[..|events| - 1]);
        UnrecoverableStep(c, Run(c, s, events[..|events| - 1]), events[|events| - 1]);
      }
      UnrecoverableDisagrees(c, Run(c, s, events));
    }
  }

  ghost predicate CanAgree(c: Crypto, s: State) {
    exists events :: NoRestart(events) && Agree(Run(c, s, events).world)
  }

  lemma {:induction false} RunAppend(c: Crypto, s: State, first: seq<Event>, second: seq<Event>)
    ensures Run(c, s, first + second) == Run(c, Run(c, s, first), second)
    decreases |second|
  {
    if second == [] {
      assert first + second == first;
    } else {
      var n := |second| - 1;
      RunAppend(c, s, first, second[..n]);
      assert (first + second)[..|first + second| - 1] == first + second[..n];
    }
  }

  lemma AgreesNow(c: Crypto, s: State)
    requires Agree(s.world)
    ensures CanAgree(c, s)
  {
    assert NoRestart([]) && Agree(Run(c, s, []).world);
  }

  lemma AgreesAfter(c: Crypto, s: State, e: Event)
    requires !e.Restart? && CanAgree(c, Step(c, s, e))
    ensures CanAgree(c, s)
  {
    var events :| NoRestart(events) && Agree(Run(c, Step(c, s, e), events).world);
    RunAppend(c, s, [e], events);
    assert [e][..0] == [] && Run(c, s, [e]) == Step(c, s, e);
    assert NoRestart([e] + events) && Agree(Run(c, s, [e] + events).world);
  }

  /** An answered POST that is stored makes the heads agree. */
  lemma StoredAgrees(c: Crypto, s: State, line: Line, dbError: bool)
    ensures var s' := Send(c, s, line, Answered, dbError);
            if Accepts(c, s, line.sub, dbError) then Agree(s'.world)
            else s'.rows == s.rows && s'.world.table == s.world.table && s'.lineage == line.history
  {
  }

  lemma PrefixGrows(h: Hash, a: History, b: History)
    requires RootPrefix(h, a, b) && |a| < |b|
    ensures RootPrefix(h, a + [b[|a|]], b)
  {
  }

  /** From a prefix of the tip, flushing the missing roots again leads to it. */
  lemma {:induction false} PrefixCanAgree(c: Crypto, s: State)
    requires Inv(c, s) && RootPrefix(c.h, s.lineage, Tip(s.rows))
    ensures CanAgree(c, s)
    decreases |Tip(s.rows)| - |s.lineage|
  {
    var tip, n := Tip(s.rows), |s.lineage|;
    LatestIsTip(c.h, c.verify, s.rows, s.world.table);
    if n == |tip| {
      SameRootsSameHead(c.h, s.lineage, tip);
      AgreesNow(c, s);
    } else {
      var x := Exchange(tip[n], "", Answered, false);
      var s' := Step(c, s, FlushBatch(x));
      StoredAgrees(c, s, NextLine(c, s, x), false);
      StepKeepsInv(c, s, FlushBatch(x));
      PrefixGrows(c.h, s.lineage, tip);
      if Agree(s'.world) { AgreesNow(c, s'); } else { PrefixCanAgree(c, s'); }
      AgreesAfter(c, s, FlushBatch(x));
    }
  }

  lemma LineCanAgree(c: Crypto, s: State, k: nat)
    requires Inv(c, s) && k < |s.wal|
    requires RootPrefix(c.h, s.wal[k].history, Tip(s.rows)) || Resumable(c, s, s.wal[k])
    ensures CanAgree(c, s)
  {
    var retry := RetryLine(k, Answered, false);
    var s' := Step(c, s, retry);
    StoredAgrees(c, s, s.wal[k], false);
    RecordableIsAccepted(c, s, s.wal[k].sub, false);
    StepKeepsInv(c, s, retry);
    if Agree(s'.world) { AgreesNow(c, s'); } else { PrefixCanAgree(c, s'); }
    AgreesAfter(c, s, retry);
  }

  /** Exactly when gateway and SIEM can agree again before a restart, from any
      state with a non-empty table: when the state is recoverable.  A run that
      leads to agreement from any other state exhibits evidence. */
  lemma CanAgreeIffRecoverable(c: Crypto, s: State)
    requires Wide(c.h) && Inv(c, s) && s.rows != []
    ensures Recoverable(c, s) ==> CanAgree(c, s)
    ensures !Recoverable(c, s) ==>
      forall events :: NoRestart(events) && Agree(Run(c, s, events).world) ==>
        Genuine(c.h, RunEvidence(c, s, events)) && !RunEvidence(c, s, events).NoEvidence?
  {
    if Recoverable(c, s) {
      if RootPrefix(c.h, s.lineage, Tip(s.rows)) {
        PrefixCanAgree(c, s);
      } else {
        var k :| 0 <= k < |s.wal| && (RootPrefix(c.h, s.wal[k].history, Tip(s.rows)) || Resumable(c, s, s.wal[k]));
        LineCanAgree(c, s, k);
      }
    } else {
      forall events | NoRestart(events) && Agree(Run(c, s, events).world)
        ensures Genuine(c.h, RunEvidence(c, s, events)) && !RunEvidence(c, s, events).NoEvidence?
      {
        UnrecoverableForEver(c, s, events);
      }
    }
  }

  /** Over an empty table the heads agree after an answered flush exactly if it
      is recorded. */
  lemma EmptyTableHeals(c: Crypto, s: State, x: Exchange)
    requires Wide(c.h) && Inv(c, s) && s.world.table == [] && x.post == Answered
    ensures var s', stored := Step(c, s, FlushBatch(x)), Recordable(c, [], NextLine(c, s, x).sub, x.dbError);
            && Genuine(c.h, Finding(c.h, s'))
            && (stored ==> Agree(s'.world))
            && (Finding(c.h, s').NoEvidence? ==> (Agree(s'.world) <==> stored))
  {
    var s', line := Step(c, s, FlushBatch(x)), NextLine(c, s, x);
    StepKeepsInv(c, s, FlushBatch(x));
    FindingSound(c, s');
    StoredAgrees(c, s, line, x.dbError);
    RecordableIsAccepted(c, s, line.sub, x.dbError);
  }

  // ------------------------------------------------------------- two concrete runs

  predicate SignsValidly(c: Crypto, root: string) {
    c.verify(root, c.sign(root)) == Siem.ValidSignature
  }

  /** An answer is lost, another batch is answered and refused: the heads have
      split.  The retry of the lost line then heals the split and stores nothing. */
  lemma LostAnswerHealsByRetry(c: Crypto, lost: seq<string>, next: seq<string>, now: string, dbError: bool)
    requires Wide(c.h) && SignsValidly(c, HeadAfter(c.h, [lost])) && HeadAfter(c.h, [lost]) != ZERO
    requires HeadAfter(c.h, [next]) != HeadAfter(c.h, [lost])
    ensures var first := Step(c, START, FlushBatch(Exchange(lost, now, AnswerLost, false)));
            var split := Step(c, first, FlushBatch(Exchange(next, now, Answered, false)));
            var healed := Step(c, split, RetryLine(0, Answered, dbError));
            && !Agree(first.world) && !Agree(split.world) && Agree(healed.world)
            && healed.world.table == split.world.table == first.world.table && |first.world.table| == 1
  {
    var x, y := Exchange(lost, now, AnswerLost, false), Exchange(next, now, Answered, false);
    var first := Step(c, START, FlushBatch(x));
    HeadSnoc(c.h, [], lost);
    HeadSnoc(c.h, [], next);
    assert [] + [lost] == [lost] && [] + [next] == [next];
    RecordableIsAccepted(c, START, NextLine(c, START, x).sub, false);
    assert first.world.table == [NextLine(c, START, x).sub] && first.wal == [NextLine(c, START, x)];
    RecordableIsAccepted(c, first, NextLine(c, first, y).sub, false);
    var split := Step(c, first, FlushBatch(y));
    assert split.wal[0] == NextLine(c, START, x) && split.world.table == first.world.table;
    assert Siem.Stored(split.world.table, split.wal[0].sub.rootHash) by {
      assert split.world.table[0] == split.wal[0].sub;
    }
    RecordableIsAccepted(c, split, split.wal[0].sub, dbError);
  }

  /** A POST that never arrives, then a flush that is answered and stored. */
  lemma LostThenStored(c: Crypto, lost: seq<string>, next: seq<string>, now: string)
    requires SignsValidly(c, HeadAfter(c.h, [next]))
    ensures var x, y := Exchange(lost, now, NeverArrived, false), Exchange(next, now, Answered, false);
            var first := Step(c, START, FlushBatch(x));
            var before := Step(c, first, FlushBatch(y));
            && Harmless(c, START, FlushBatch(x)) && Harmless(c, first, FlushBatch(y))
            && Agree(first.world) && Agree(before.world) && Inv(c, before)
            && before.rows == [[next]] && before.wal == [NextLine(c, START, x)]
            && before.wal[0].history == [lost] && before.wal[0].sub.prevHash == ZERO
            && Siem.LatestRoot(before.world.table) == HeadAfter(c.h, [next])
  {
    var x, y := Exchange(lost, now, NeverArrived, false), Exchange(next, now, Answered, false);
    var first := Step(c, START, FlushBatch(x));
    HeadSnoc(c.h, [], next);
    assert [] + [lost] == [lost] && [] + [next] == [next];
    assert first.world == START.world && first.lineage == [] && first.wal == [NextLine(c, START, x)];
    RecordableIsAccepted(c, first, NextLine(c, first, y).sub, false);
    StepKeepsInv(c, START, FlushBatch(x));
    StepKeepsInv(c, first, FlushBatch(y));
  }

  /** The retry of a line that no longer continues the table rewinds the gateway. */
  lemma RetryRewinds(c: Crypto, s: State, dbError: bool)
    requires Inv(c, s) && |s.rows| == 1 && |s.rows[0]| == 1 && |s.wal| == 1 && |s.wal[0].history| == 1
    requires Siem.LatestRoot(s.world.table) != ZERO && s.wal[0].sub.prevHash == ZERO
    requires Merkle.Root(c.h, s.wal[0].history[0]) != Merkle.Root(c.h, s.rows[0][0])
    ensures var after := Step(c, s, RetryLine(0, Answered, dbError));
            Inv(c, after) && after.rows == s.rows && after.world.table == s.world.table && !Recoverable(c, after)
  {
    StepKeepsInv(c, s, RetryLine(0, Answered, dbError));
    RecordableIsAccepted(c, s, s.wal[0].sub, dbError);
  }

  /** A POST never arrives, the next flush is answered and stored, all harmless.
      Then the retry of the lost line is answered (and refused): it puts the
      gateway's head back, and until a restart gateway and SIEM never agree again
      and the SIEM stores nothing more. */
  lemma LostPostSplitsForEver(c: Crypto, lost: seq<string>, next: seq<string>, now: string, dbError: bool,
                              events: seq<Event>)
    requires Wide(c.h) && SignsValidly(c, HeadAfter(c.h, [next])) && HeadAfter(c.h, [next]) != ZERO
    requires Merkle.Root(c.h, lost) != Merkle.Root(c.h, next) && NoRestart(events)
    ensures var x, y := Exchange(lost, now, NeverArrived, false), Exchange(next, now, Answered, false);
            var before := Run(c, START, [FlushBatch(x), FlushBatch(y)]);
            var after := Step(c, before, RetryLine(0, Answered, dbError));
            && AlwaysHarmless(c, [FlushBatch(x), FlushBatch(y)]) && AlwaysAgree(c, [FlushBatch(x), FlushBatch(y)])
            && Genuine(c.h, RunEvidence(c, after, events))
            && (RunEvidence(c, after, events).NoEvidence? ==>
                  !Agree(Run(c, after, events).world) && Run(c, after, events).world.table == before.world.table)
  {
    var x, y := Exchange(lost, now, NeverArrived, false), Exchange(next, now, Answered, false);
    TwoSteps(c, FlushBatch(x), FlushBatch(y));
    LostThenStored(c, lost, next, now);
    var before := Run(c, START, [FlushBatch(x), FlushBatch(y)]);
    RetryRewinds(c, before, dbError);
    UnrecoverableForEver(c, Step(c, before, RetryLine(0, Answered, dbError)), events);
  }

  lemma TwoSteps(c: Crypto, e: Event, f: Event)
    ensures Run(c, START, [e, f]) == Step(c, Step(c, START, e), f)
    ensures AlwaysHarmless(c, [e, f]) <==> Harmless(c, START, e) && Harmless(c, Step(c, START, e), f)
    ensures AlwaysAgree(c, [e, f]) <==>
      Agree(START.world) && Agree(Step(c, START, e).world) && Agree(Step(c, Step(c, START, e), f).world)
  {
    assert [e, f][..1] == [e] && [e][..0] == [];
    assert Run(c, START, [e]) == Step(c, START, e);
    assert AlwaysHarmless(c, [e]) <==> Harmless(c, START, e);
    assert AlwaysAgree(c, [e]) <==> Agree(START.world) && Agree(Step(c, START, e).world);
  }

  // -------------------------------------------- what the witness holds, always

  /** A row continues from the root of the row before it. */
  function LinkEvidence(h: Hash, before: History, row: History): Evidence {
    if HeadAfter(h, before) == ZERO then CompareHeads(h, before, [])
    else CompareHeads(h, Before(row), before)
  }

  function MirrorEvidence(h: Hash, rows: seq<History>): Evidence {
    if |rows| <= 1 then NoEvidence
    else
      var n := |rows| - 1;
      OrElse(MirrorEvidence(h, rows[..n]), LinkEvidence(h, rows[n - 1], rows[n]))
  }

  function HeadAt(h: Hash, history: History, n: nat): string {
    if n <= |history| then HeadAfter(h, history[..n]) else ZERO
  }

  /** The table is the end of the sequence of heads of one history. */
  ghost predicate IsWindow(h: Hash, tip: History, table: seq<Siem.Submission>) {
    && |table| <= |tip|
    && forall i :: 0 <= i < |table| ==>
      && table[i].prevHash == HeadAt(h, tip, |tip| - |table| + i)
      && table[i].rootHash == HeadAt(h, tip, |tip| - |table| + i + 1)
  }

  lemma LinkSound(h: Hash, v: Siem.Verifier, rows: seq<History>, table: seq<Siem.Submission>, i: nat)
    requires Wide(h) && TableFits(h, v, rows, table) && 0 < i < |rows|
    ensures Genuine(h, LinkEvidence(h, rows[i - 1], rows[i]))
    ensures LinkEvidence(h, rows[i - 1], rows[i]).NoEvidence? ==> SameRoots(h, Before(rows[i]), rows[i - 1])
  {
    assert Fits(h, rows[i - 1], table[i - 1]) && Fits(h, rows[i], table[i]);
    if HeadAfter(h, rows[i - 1]) == ZERO {
      SameHeadSameRoots(h, rows[i - 1], []);
    } else {
      SameHeadSameRoots(h, Before(rows[i]), rows[i - 1]);
    }
  }

  lemma SameHeadAt(h: Hash, a: History, b: History, n: nat)
    requires SameRoots(h, a, b)
    ensures HeadAt(h, a, n) == HeadAt(h, b, n)
  {
    if n <= |a| { SameRootsSameHead(h, a[..n], b[..n]); }
  }

  lemma ShorterHeads(h: Hash, tip: History, old': History, n: nat)
    requires tip != [] && SameRoots(h, Before(tip), old') && n <= |old'|
    ensures HeadAt(h, tip, n) == HeadAt(h, old', n)
  {
    SameHeadAt(h, Before(tip), old', n);
    assert Before(tip)[..n] == tip[..n];
  }

  lemma WindowGrows(h: Hash, tip: History, old': History, table: seq<Siem.Submission>, last: Siem.Submission)
    requires Fits(h, tip, last) && IsWindow(h, old', table) && SameRoots(h, Before(tip), old')
    ensures IsWindow(h, tip, table + [last])
  {
    forall i | 0 <= i < |table|
      ensures table[i].prevHash == HeadAt(h, tip, |old'| - |table| + i)
      ensures table[i].rootHash == HeadAt(h, tip, |old'| - |table| + i + 1)
    {
      ShorterHeads(h, tip, old', |old'| - |table| + i);
      ShorterHeads(h, tip, old', |old'| - |table| + i + 1);
    }
    assert tip[..|tip|] == tip && |tip| == |old'| + 1;
  }

  lemma FitsPrefix(h: Hash, v: Siem.Verifier, rows: seq<History>, table: seq<Siem.Submission>)
    requires TableFits(h, v, rows, table) && rows != []
    ensures var n := |rows| - 1;
            TableFits(h, v, rows[..n], table[..n]) && Fits(h, rows[n], table[n]) && table == table[..n] + [table[n]]
  {
    var n := |rows| - 1;
    assert forall i :: 0 <= i < n ==> table[..n][i] == table[i] && rows[..n][i] == rows[i];
  }

  lemma OneRowIsWindow(h: Hash, tip: History, row: Siem.Submission)
    requires Fits(h, tip, row)
    ensures IsWindow(h, tip, [row])
  {
    assert tip[..|tip|] == tip;
  }

  lemma {:induction false} FittingTableIsWindow(h: Hash, v: Siem.Verifier, rows: seq<History>,
                                                table: seq<Siem.Submission>)
    requires Wide(h) && TableFits(h, v, rows, table)
    ensures Genuine(h, MirrorEvidence(h, rows))
    ensures MirrorEvidence(h, rows).NoEvidence? ==> IsWindow(h, Tip(rows), table)
  {
    if rows != [] {
      var n := |rows| - 1;
      FitsPrefix(h, v, rows, table);
      if n == 0 {
        OneRowIsWindow(h, rows[0], table[0]);
        assert table == [table[0]];
      } else {
        FittingTableIsWindow(h, v, rows[..n], table[..n]);
        LinkSound(h, v, rows, table, n);
        assert Tip(rows[..n]) == rows[n - 1];
        if MirrorEvidence(h, rows).NoEvidence? { WindowGrows(h, rows[n], rows[n - 1], table[..n], table[n]); }
      }
    }
  }

  function Requests(deliveries: seq<(Line, bool)>): seq<(Siem.Submission, bool)> {
    seq(|deliveries|, i requires 0 <= i < |deliveries| => (deliveries[i].0.sub, deliveries[i].1))
  }

  /** The histories of the deliveries that are accepted. */
  function AcceptedRows(v: Siem.Verifier, deliveries: seq<(Line, bool)>): seq<History> {
    if deliveries == [] then []
    else
      var earlier, last := deliveries[..|deliveries| - 1], deliveries[|deliveries| - 1];
      var table := Siem.IngestAll(v, [], Requests(earlier));
      AcceptedRows(v, earlier) +
      if Siem.Judge(v, table, last.0.sub, last.1) == Siem.Accepted then [last.0.history] else []
  }

  lemma DeliveryFits(h: Hash, v: Siem.Verifier, line: Line, dbError: bool, rows: seq<History>,
                     table: seq<Siem.Submission>)
    requires Fits(h, line.history, line.sub) && TableFits(h, v, rows, table)
    ensures var stored := Siem.Judge(v, table, line.sub, dbError) == Siem.Accepted;
            TableFits(h, v, rows + if stored then [line.history] else [], Siem.Ingest(v, table, line.sub, dbError))
  {
    Siem.AcceptanceKeepsLinked(v, table, line.sub, dbError);
  }

  lemma {:induction false} DeliveriesFit(h: Hash, v: Siem.Verifier, deliveries: seq<(Line, bool)>)
    requires forall i :: 0 <= i < |deliveries| ==> Fits(h, deliveries[i].0.history, deliveries[i].0.sub)
    ensures TableFits(h, v, AcceptedRows(v, deliveries), Siem.IngestAll(v, [], Requests(deliveries)))
  {
    if deliveries != [] {
      var earlier, last := deliveries[..|deliveries| - 1], deliveries[|deliveries| - 1];
      var all := Requests(deliveries);
      DeliveriesFit(h, v, earlier);
      assert all[..|all| - 1] == Requests(earlier) && all[|all| - 1] == (last.0.sub, last.1);
      DeliveryFits(h, v, last.0, last.1, AcceptedRows(v, earlier), Siem.IngestAll(v, [], Requests(earlier)));
    }
  }

  /** The witness mirrors one history.  Whatever submissions gateways make of
      whatever histories (after losses, retries, rewinds, restarts, and in
      overlapping tasks), and however late, often or out of order these reach the
      SIEM, and whichever inserts fail: the table is the end of the sequence of
      heads of the one history that its latest root stands for.  The alternative
      is an exhibited collision or zero preimage. */
  lemma {:induction false} SiemMirrorsGateway(h: Hash, v: Siem.Verifier, deliveries: seq<(Line, bool)>)
    requires Wide(h) && forall i :: 0 <= i < |deliveries| ==> Fits(h, deliveries[i].0.history, deliveries[i].0.sub)
    ensures var rows := AcceptedRows(v, deliveries);
            && Genuine(h, MirrorEvidence(h, rows))
            && (MirrorEvidence(h, rows).NoEvidence? ==>
                  IsWindow(h, Tip(rows), Siem.IngestAll(v, [], Requests(deliveries))))
  {
    DeliveriesFit(h, v, deliveries);
    FittingTableIsWindow(h, v, AcceptedRows(v, deliveries), Siem.IngestAll(v, [], Requests(deliveries)));
  }

  /** In the runs of one gateway, every stored root moreover continues from a
      head that the gateway had. */
  lemma {:induction false} RunMirrors(c: Crypto, events: seq<Event>)
    requires Wide(c.h)
    ensures var s := Run(c, START, events);
            && Genuine(c.h, MirrorEvidence(c.h, s.rows))
            && (MirrorEvidence(c.h, s.rows).NoEvidence? ==> IsWindow(c.h, Tip(s.rows), s.world.table))
            && |s.rows| == |s.world.table|
            && forall i :: 0 <= i < |s.rows| ==>
                 Before(s.rows[i]) in s.adopted && s.world.table[i].prevHash == HeadAfter(c.h, Before(s.rows[i]))
  {
    RunKeepsInv(c, START, events);
    var s := Run(c, START, events);
    FittingTableIsWindow(c.h, c.verify, s.rows, s.world.table);
    forall i | 0 <= i < |s.rows| ensures s.world.table[i].prevHash == HeadAfter(c.h, Before(s.rows[i])) {
      assert Fits(c.h, s.rows[i], s.world.table[i]);
    }
  }

  // --------------------------------------------------- harmless runs lose nothing

  /** The first root stored is that of a first batch. */
  predicate FromTheFirst(s: State) {
    if s.rows == [] then s.lineage == [] && forall k :: 0 <= k < |s.wal| ==> |s.wal[k].history| == 1
    else |s.rows[0]| == 1
  }

  lemma FromTheFirstStep(c: Crypto, s: State, e: Event)
    requires Inv(c, s) && FromTheFirst(s) && Agree(Step(c, s, e).world) && Clear(c.h, Step(c, s, e))
    ensures FromTheFirst(Step(c, s, e))
  {
    if e.RewriteWal? { KeptLines(s.wal, e.kept); }
    StepKeepsInv(c, s, e);
    if Step(c, s, e).rows == [] {
      assert SameRoots(c.h, Step(c, s, e).lineage, []);
    }
  }

  lemma {:induction false} HarmlessFromTheFirst(c: Crypto, events: seq<Event>)
    requires Wide(c.h) && AlwaysHarmless(c, events) && RunEvidence(c, START, events).NoEvidence?
    ensures FromTheFirst(Run(c, START, events)) && Agree(Run(c, START, events).world)
  {
    AgreeIffHarmless(c, events);
    RunKeepsInv(c, START, events);
    if events != [] {
      var earlier, last := events[..|events| - 1], events[|events| - 1];
      HarmlessFromTheFirst(c, earlier);
      RunKeepsInv(c, START, earlier);
      FromTheFirstStep(c, Run(c, START, earlier), last);
    }
  }

  lemma {:induction false} TipLength(h: Hash, v: Siem.Verifier, rows: seq<History>, table: seq<Siem.Submission>)
    requires Wide(h) && TableFits(h, v, rows, table) && rows != [] && MirrorEvidence(h, rows).NoEvidence?
    ensures |Tip(rows)| == |rows[0]| + |rows| - 1
  {
    if |rows| > 1 {
      var n := |rows| - 1;
      FitsPrefix(h, v, rows, table);
      TipLength(h, v, rows[..n], table[..n]);
      LinkSound(h, v, rows, table, n);
    }
  }

  /** One row for each batch of the history, with the head up to it. */
  ghost predicate HoldsAllHeads(h: Hash, history: History, table: seq<Siem.Submission>) {
    |table| == |history| && forall i :: 0 <= i < |table| ==> table[i].rootHash == HeadAt(h, history, i + 1)
  }

  lemma WholeWindow(h: Hash, lineage: History, tip: History, table: seq<Siem.Submission>)
    requires SameRoots(h, lineage, tip) && IsWindow(h, tip, table) && |table| == |tip|
    ensures HoldsAllHeads(h, lineage, table)
  {
    forall i | 0 <= i < |table| ensures table[i].rootHash == HeadAt(h, lineage, i + 1) {
      SameHeadAt(h, lineage, tip, i + 1);
    }
  }

  lemma AgreeingHoldsAll(c: Crypto, s: State)
    requires Wide(c.h) && Inv(c, s) && Agree(s.world) && Clear(c.h, s) && FromTheFirst(s)
    requires MirrorEvidence(c.h, s.rows).NoEvidence?
    ensures HoldsAllHeads(c.h, s.lineage, s.world.table)
  {
    FittingTableIsWindow(c.h, c.verify, s.rows, s.world.table);
    if s.rows != [] { TipLength(c.h, c.verify, s.rows, s.world.table); }
    WholeWindow(c.h, s.lineage, Tip(s.rows), s.world.table);
  }

  /** After harmless events only, however many POSTs were lost and retried, the
      SIEM holds exactly the heads of the gateway's history, one row per batch;
      or evidence is exhibited. */
  lemma HarmlessHoldsAllHeads(c: Crypto, events: seq<Event>)
    requires Wide(c.h) && AlwaysHarmless(c, events)
    ensures var s := Run(c, START, events);
            var e := OrElse(RunEvidence(c, START, events), MirrorEvidence(c.h, s.rows));
            Genuine(c.h, e) && (e.NoEvidence? ==> HoldsAllHeads(c.h, s.lineage, s.world.table))
  {
    RunKeepsInv(c, START, events);
    var s := Run(c, START, events);
    FittingTableIsWindow(c.h, c.verify, s.rows, s.world.table);
    if RunEvidence(c, START, events).NoEvidence? && MirrorEvidence(c.h, s.rows).NoEvidence? {
      HarmlessFromTheFirst(c, events);
      AgreeingHoldsAll(c, s);
    }
  }

  // ----------------------------------------------- agreement with `retry_worker`

  /** A pass over the first n lines, line by line. */
  function PassEvents(n: nat, outcomes: nat -> Outcome): seq<Event> {
    if n == 0 then []
    else PassEvents(n - 1, outcomes) + [RetryLine(n - 1, outcomes(n - 1).post, outcomes(n - 1).dbError)]
  }

  function Submissions(wal: seq<Line>): seq<Siem.Submission> {
    seq(|wal|, i requires 0 <= i < |wal| => wal[i].sub)
  }

  lemma RetryAllSnoc(v: Siem.Verifier, w: World, lines: seq<Siem.Submission>, n: nat, outcomes: nat -> Outcome)
    requires n < |lines|
    ensures RetryAll(v, w, lines[..n + 1], outcomes) ==
            Deliver(v, RetryAll(v, w, lines[..n], outcomes), lines[n], outcomes(n).post, outcomes(n).dbError)
  {
    assert lines[..n + 1][..n] == lines[..n];
  }

  lemma RunSnoc(c: Crypto, s: State, events: seq<Event>, e: Event)
    ensures Run(c, s, events + [e]) == Step(c, Run(c, s, events), e)
  {
    assert (events + [e])[..|events|] == events;
  }

  /** The file afterwards holds exactly the kept lines. */
  lemma {:induction false} KeptExactly(wal: seq<Line>, kept: seq<nat>)
    requires forall i :: 0 <= i < |kept| ==> kept[i] < |wal|
    ensures |Keep(wal, kept)| == |kept|
    ensures forall i :: 0 <= i < |kept| ==> Keep(wal, kept)[i] == wal[kept[i]]
  {
    if kept != [] { KeptExactly(wal, kept[..|kept| - 1]); }
  }

  /** The first n lines, retried one by one, do what `RetryPass` does with them. */
  lemma {:induction false} RetriesAreRun(c: Crypto, s: State, n: nat, outcomes: nat -> Outcome)
    requires n <= |s.wal|
    ensures Run(c, s, PassEvents(n, outcomes)).wal == s.wal
    ensures Run(c, s, PassEvents(n, outcomes)).world == RetryAll(c.verify, s.world, Submissions(s.wal)[..n], outcomes)
  {
    if n > 0 {
      RetriesAreRun(c, s, n - 1, outcomes);
      RetryAllSnoc(c.verify, s.world, Submissions(s.wal), n - 1, outcomes);
      RunSnoc(c, s, PassEvents(n - 1, outcomes), RetryLine(n - 1, outcomes(n - 1).post, outcomes(n - 1).dbError));
    }
  }

  /** The lines, retried one by one, do what `RetryPass` does, and the rewrite at
      the end leaves the lines that `RetryPass` keeps. */
  lemma PassIsRun(c: Crypto, s: State, outcomes: nat -> Outcome, kept: seq<nat>)
    requires forall i :: 0 <= i < |kept| ==> kept[i] < |s.wal|
    ensures var after := Run(c, s, PassEvents(|s.wal|, outcomes) + [RewriteWal(kept)]);
            && after.world == RetryAll(c.verify, s.world, Submissions(s.wal), outcomes)
            && |after.wal| == |kept|
            && forall i :: 0 <= i < |kept| ==> Submissions(after.wal)[i] == Submissions(s.wal)[kept[i]]
  {
    RetriesAreRun(c, s, |s.wal|, outcomes);
    assert Submissions(s.wal)[..|s.wal|] == Submissions(s.wal);
    RunSnoc(c, s, PassEvents(|s.wal|, outcomes), RewriteWal(kept));
    KeptExactly(s.wal, kept);
  }
}
