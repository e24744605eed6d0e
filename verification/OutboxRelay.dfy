/** The outbox relay of core/relay.py as one worker without failures: poll,
    publish, mark, commit. */
module OutboxRelay {
  import opened Hashing
  import opened Options
  import opened PaymentTables
  import opened PaymentProtocol

  /** The first `limit` pending ids in table order. */
  function SelectFirst(outbox: seq<OutboxEvent>, limit: nat): (ids: seq<string>)
    ensures |ids| <= limit
  {
    if outbox == [] then []
    else
      var ids := SelectFirst(outbox[..|outbox| - 1], limit);
      var last := outbox[|outbox| - 1];
      if |ids| < limit && !last.published then ids + [last.id] else ids
  }

  function Min(a: nat, b: nat): nat {
    if a <= b then a else b
  }

  lemma {:induction false} SelectFirstSelects(outbox: seq<OutboxEvent>, limit: nat)
    requires DistinctIds(outbox)
    ensures var ids := SelectFirst(outbox, limit);
            && |ids| == Min(PendingCount(outbox), limit)
            && (forall i :: 0 <= i < |ids| ==> IsPending(outbox, ids[i]))
            && (forall i, j :: 0 <= i < j < |ids| ==> ids[i] != ids[j])
  {
    if outbox != [] {
      var n := |outbox| - 1;
      var ids := SelectFirst(outbox[..n], limit);
      SelectFirstSelects(outbox[..n], limit);
      forall i | 0 <= i < |ids| ensures IsPending(outbox, ids[i]) && ids[i] != outbox[n].id {
        var k :| 0 <= k < n && outbox[..n][k].id == ids[i] && !outbox[..n][k].published;
        assert outbox[k].id == ids[i] && !outbox[k].published;
      }
    }
  }

  /** The pending count is zero exactly if every event is published. */
  lemma {:induction false} NonePending(outbox: seq<OutboxEvent>)
    ensures PendingCount(outbox) == 0 <==> forall i :: 0 <= i < |outbox| ==> outbox[i].published
  {
    if outbox != [] {
      NonePending(outbox[..|outbox| - 1]);
    }
  }

  /** Publishing one pending event takes one from the pending count. */
  lemma {:induction false} PublishedCounts(outbox: seq<OutboxEvent>, id: string)
    requires DistinctIds(outbox)
    ensures PendingCount(Published(outbox, id)) == PendingCount(outbox) - if IsPending(outbox, id) then 1 else 0
  {
    if outbox != [] {
      var n := |outbox| - 1;
      PublishedCounts(outbox[..n], id);
      assert Published(outbox, id)[..n] == Published(outbox[..n], id);
      if outbox[n].id == id {
        NotPendingBefore(outbox, id);
      } else {
        PendingInPrefix(outbox, id);
      }
    }
  }

  lemma NotPendingBefore(outbox: seq<OutboxEvent>, id: string)
    requires DistinctIds(outbox) && outbox != [] && outbox[|outbox| - 1].id == id
    ensures !IsPending(outbox[..|outbox| - 1], id)
    ensures IsPending(outbox, id) <==> !outbox[|outbox| - 1].published
  {
  }

  lemma PendingInPrefix(outbox: seq<OutboxEvent>, id: string)
    requires outbox != [] && outbox[|outbox| - 1].id != id
    ensures IsPending(outbox, id) <==> IsPending(outbox[..|outbox| - 1], id)
  {
  }

  function PublishAll(outbox: seq<OutboxEvent>, ids: seq<string>): seq<OutboxEvent>
    decreases |ids|
  {
    if ids == [] then outbox
    else Published(PublishAll(outbox, ids[..|ids| - 1]), ids[|ids| - 1])
  }

  lemma PublishAllSnoc(outbox: seq<OutboxEvent>, ids: seq<string>, id: string)
    ensures PublishAll(outbox, ids + [id]) == Published(PublishAll(outbox, ids), id)
  {
  }

  /** Nothing but the status of the listed events changes. */
  lemma {:induction false} PublishAllRow(outbox: seq<OutboxEvent>, ids: seq<string>, i: nat)
    requires i < |outbox|
    ensures |PublishAll(outbox, ids)| == |outbox|
    ensures PublishAll(outbox, ids)[i] == if outbox[i].id in ids then outbox[i].(published := true) else outbox[i]
    decreases |ids|
  {
    if ids != [] {
      var initial, last := ids[..|ids| - 1], ids[|ids| - 1];
      PublishAllRow(outbox, initial, i);
      PublishedRow(PublishAll(outbox, initial), last, i);
      assert ids == initial + [last];
    }
  }

  lemma PublishAllKeepsIds(outbox: seq<OutboxEvent>, ids: seq<string>)
    requires DistinctIds(outbox)
    ensures |PublishAll(outbox, ids)| == |outbox| && DistinctIds(PublishAll(outbox, ids))
  {
    if outbox == [] {
      PublishAllEmpty(ids);
    } else {
      PublishAllRow(outbox, ids, 0);
    }
    forall i | 0 <= i < |outbox| ensures PublishAll(outbox, ids)[i].id == outbox[i].id {
      PublishAllRow(outbox, ids, i);
    }
  }

  lemma {:induction false} PublishAllEmpty(ids: seq<string>)
    ensures PublishAll([], ids) == []
    decreases |ids|
  {
    if ids != [] { PublishAllEmpty(ids[..|ids| - 1]); }
  }

  lemma PublishAllKeepsPending(outbox: seq<OutboxEvent>, ids: seq<string>, id: string)
    requires DistinctIds(outbox) && IsPending(outbox, id) && id !in ids
    ensures IsPending(PublishAll(outbox, ids), id)
  {
    var k :| 0 <= k < |outbox| && outbox[k].id == id && !outbox[k].published;
    PublishAllRow(outbox, ids, k);
    assert PublishAll(outbox, ids)[k] == outbox[k];
  }

  /** Publishing distinct pending events takes exactly that many from the
      pending count. */
  lemma {:induction false} PublishAllCounts(outbox: seq<OutboxEvent>, ids: seq<string>)
    requires DistinctIds(outbox)
    requires forall i :: 0 <= i < |ids| ==> IsPending(outbox, ids[i])
    requires forall i, j :: 0 <= i < j < |ids| ==> ids[i] != ids[j]
    ensures PendingCount(PublishAll(outbox, ids)) == PendingCount(outbox) - |ids|
    decreases |ids|
  {
    if ids != [] {
      var initial, last := ids[..|ids| - 1], ids[|ids| - 1];
      PublishAllCounts(outbox, initial);
      PublishAllKeepsIds(outbox, initial);
      PublishAllKeepsPending(outbox, initial, last);
      PublishedCounts(PublishAll(outbox, initial), last);
    }
  }

  class RelayWorker {
    var outbox: seq<OutboxEvent>
    var sent: seq<string>

    constructor (outbox: seq<OutboxEvent>)
      ensures this.outbox == outbox && sent == []
    {
      this.outbox, sent := outbox, [];
    }

    /** One poll: ten pending events, or all if there are fewer, are sent, each
        once and in order, and marked, and no other row changes; their number is
        exactly what the pending count loses. */
    method Poll() returns (selected: seq<string>)
      requires DistinctIds(outbox)
      modifies this
      ensures selected == SelectFirst(old(outbox), BATCH) && IsSelection(old(outbox), selected)
      ensures sent == old(sent) + selected
      ensures |selected| == if PendingCount(old(outbox)) <= 10 then PendingCount(old(outbox)) else 10
      ensures PendingCount(outbox) == PendingCount(old(outbox)) - |selected|
      ensures outbox == PublishAll(old(outbox), selected)
      ensures |outbox| == |old(outbox)| && DistinctIds(outbox)
      ensures forall i :: 0 <= i < |outbox| ==>
                outbox[i] == if old(outbox)[i].id in selected then old(outbox)[i].(published := true)
                  else old(outbox)[i]
    {
      SelectFirstSelects(outbox, BATCH);
      selected := SelectFirst(outbox, BATCH);
      PublishAllCounts(outbox, selected);
      PublishAllKeepsIds(outbox, selected);
      forall i: nat | i < |outbox|
        ensures PublishAll(outbox, selected)[i] ==
                if outbox[i].id in selected then outbox[i].(published := true) else outbox[i]
      {
        PublishAllRow(outbox, selected, i);
      }
      PublishEach(selected);
    }

    method PublishEach(events: seq<string>)
      modifies this
      ensures sent == old(sent) + events
      ensures outbox == PublishAll(old(outbox), events)
    {
      ghost var before := outbox;
      var k := 0;
      while k < |events|
        invariant 0 <= k <= |events|
        invariant sent == old(sent) + events[..k]
        invariant outbox == PublishAll(before, events[..k])
      {
        PublishAllSnoc(before, events[..k], events[k]);
        assert events[..k + 1] == events[..k] + [events[k]];
        sent := sent + [events[k]];
        outbox := Published(outbox, events[k]);
        k := k + 1;
      }
      assert events[..|events|] == events;
    }

    /** With no new events, n pending events are drained in ceil(n / 10) polls,
        and not in fewer. */
    method PollRepeatedly(polls: nat)
      requires DistinctIds(outbox)
      modifies this
      ensures var n := PendingCount(old(outbox));
              PendingCount(outbox) == if n <= 10 * polls then 0 else n - 10 * polls
      ensures PendingCount(outbox) == 0 <==> polls >= (PendingCount(old(outbox)) + 9) / 10
      ensures (forall i :: 0 <= i < |outbox| ==> outbox[i].published) <==> PendingCount(outbox) == 0
      ensures |sent| == |old(sent)| + PendingCount(old(outbox)) - PendingCount(outbox)
      ensures DistinctIds(outbox)
    {
      var i := 0;
      ghost var n := PendingCount(outbox);
      while i < polls
        invariant 0 <= i <= polls && DistinctIds(outbox)
        invariant PendingCount(outbox) == if n <= BATCH * i then 0 else n - BATCH * i
        invariant |sent| == |old(sent)| + n - PendingCount(outbox)
      {
        var _ := Poll();
        i := i + 1;
      }
      NonePending(outbox);
    }
  }

  // ------------------------------------------------ agreement with the protocol

  /** Send and mark the next n selected events, without interruption. */
  function SendAll(enc: Encoding, s: State, c: nat, n: nat): State
    decreases n
  {
    if n == 0 then s else SendAll(enc, Step(enc, Step(enc, s, Send(c)), MarkPublished(c)), c, n - 1)
  }

  lemma {:induction false} PublishAllCons(outbox: seq<OutboxEvent>, id: string, ids: seq<string>)
    ensures PublishAll(outbox, [id] + ids) == PublishAll(Published(outbox, id), ids)
    decreases |ids|
  {
    if ids == [] {
      PublishAllSnoc(outbox, [], id);
      assert [id] + ids == [] + [id];
      assert PublishAll(outbox, []) == outbox;
    } else {
      var initial, last := ids[..|ids| - 1], ids[|ids| - 1];
      PublishAllCons(outbox, id, initial);
      PublishAllSnoc(outbox, [id] + initial, last);
      assert [id] + ids == ([id] + initial) + [last];
    }
  }

  /** The state once the first selected event is sent and marked. */
  function Sent(s: State, c: nat, todo: seq<string>): State
    requires todo != []
  {
    var view := ViewOf(s, c);
    State(s.db, view.(outbox := Published(view.outbox, todo[0])), Some(c),
          s.conns[c := Relay(if |todo| == 1 then CommitMarks else Publish(todo[1..]))], s.sent + [todo[0]])
  }

  /** The state once all of them are. */
  function AllSent(s: State, c: nat, todo: seq<string>): State {
    var view := ViewOf(s, c);
    State(s.db, view.(outbox := PublishAll(view.outbox, todo)), Some(c),
          s.conns[c := Relay(CommitMarks)], s.sent + todo)
  }

  lemma SendOne(enc: Encoding, s: State, c: nat, todo: seq<string>)
    requires RelayAt(s, c) && s.conns[c].rpc == Publish(todo) && todo != [] && MayWrite(s, c)
    ensures Step(enc, Step(enc, s, Send(c)), MarkPublished(c)) == Sent(s, c, todo)
  {
  }

  lemma AllSentCons(s: State, c: nat, todo: seq<string>)
    requires todo != []
    ensures |todo| > 1 ==> AllSent(Sent(s, c, todo), c, todo[1..]) == AllSent(s, c, todo)
    ensures |todo| == 1 ==> Sent(s, c, todo) == AllSent(s, c, todo)
  {
    var view := ViewOf(s, c);
    assert todo == [todo[0]] + todo[1..];
    PublishAllCons(view.outbox, todo[0], todo[1..]);
    assert s.sent + [todo[0]] + todo[1..] == s.sent + todo;
    if |todo| == 1 { assert todo[1..] == []; }
  }

  lemma {:induction false} SendAllPublishes(enc: Encoding, s: State, c: nat, todo: seq<string>)
    requires RelayAt(s, c) && s.conns[c].rpc == Publish(todo) && todo != [] && MayWrite(s, c)
    ensures SendAll(enc, s, c, |todo|) == AllSent(s, c, todo)
    decreases |todo|
  {
    SendOne(enc, s, c, todo);
    AllSentCons(s, c, todo);
    if |todo| > 1 {
      SendAllPublishes(enc, Sent(s, c, todo), c, todo[1..]);
    }
  }

  lemma MarksCommitted(enc: Encoding, s: State, c: nat, ids: seq<string>)
    requires RelayAt(s, c)
    ensures var view := ViewOf(s, c);
            var published := view.(outbox := PublishAll(view.outbox, ids));
            Step(enc, AllSent(s, c, ids), CommitRelay(c)) ==
            State(published, published, None, s.conns[c := Relay(Idle)], s.sent + ids)
  {
  }

  /** A poll that the concurrent protocol runs without interruption sends and
      publishes exactly the selection, as `RelayWorker.Poll` does, and frees
      the writer lock.  This includes the poll after a failed COMMIT, as long as
      it still finds something to select: it commits the earlier marks too. */
  lemma UninterruptedPoll(enc: Encoding, s: State, c: nat, ids: seq<string>)
    requires RelayAt(s, c) && s.conns[c] == Relay(Idle) && MayWrite(s, c)
    requires IsSelection(ViewOf(s, c).outbox, ids) && ids != []
    ensures var view := ViewOf(s, c);
            var published := view.(outbox := PublishAll(view.outbox, ids));
            Step(enc, SendAll(enc, Step(enc, s, SelectPending(c, ids)), c, |ids|), CommitRelay(c)) ==
            State(published, published, None, s.conns, s.sent + ids)
  {
    var selected := Put(s, c, Relay(Publish(ids)));
    assert Step(enc, s, SelectPending(c, ids)) == selected;
    SendAllPublishes(enc, selected, c, ids);
    MarksCommitted(enc, selected, c, ids);
    assert selected.conns[c := Relay(Idle)] == s.conns;
  }
}
