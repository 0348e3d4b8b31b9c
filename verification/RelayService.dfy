/** `OutboxRelayService.publishBatch`: claim, publish each event, book the outcome. */
module RelayService {
  import opened Wrappers
  import opened Sets
  import opened Sequences
  import opened Outbox
  import opened Kafka

  /** What the broker and the database answer while one event is handled. `now` and `error`
      are the clock reading and the error text of that iteration. */
  datatype Fate = Fate(
    connects: bool,
    send: Send,
    mark: Write,
    increment: Write,
    note: Write,
    now: Time,
    error: string)

  /** A batch in progress. Once `threw` is set the promise is rejected and nothing more happens. */
  datatype Progress = Progress(rows: Table, logs: Logs, connected: bool, published: nat, threw: bool)

  /** What the iteration does to the table once the publish call has ended. */
  datatype Booking = Booking(rows: Table, published: bool, threw: bool)

  function Book(rows: Table, event: OutboxEvent, acknowledged: bool, fate: Fate): Booking {
    var marked := if acknowledged && fate.mark.Applied() then MarkPublished(rows, event, fate.now) else rows;
    if acknowledged && fate.mark.Written? then Booking(marked, true, false)
    else
      var counted := if fate.increment.Applied() then IncrementAttempts(marked, event.id) else marked;
      if !fate.increment.Written? then Booking(counted, false, true)
      else
        var noted := if fate.note.Applied() then NoteError(counted, event.id, fate.error) else counted;
        Booking(noted, false, !fate.note.Written?)
  }

  function HandleEvent(cluster: Cluster, st: Progress, event: OutboxEvent, fate: Fate): Progress {
    var send := EffectiveSend(st.connected, fate.connects, fate.send);
    var booking := Book(st.rows, event, send.Acknowledged?, fate);
    Progress(booking.rows,
             AfterSend(cluster, st.logs, event, send),
             st.connected || fate.connects,
             st.published + if booking.published then 1 else 0,
             booking.threw)
  }

  /** The batch after its first `n` events. */
  function After(cluster: Cluster, start: Progress, events: seq<OutboxEvent>, fates: seq<Fate>, n: nat): Progress
    requires n <= |events| <= |fates|
  {
    if n == 0 then start
    else
      var st := After(cluster, start, events, fates, n - 1);
      if st.threw then st else HandleEvent(cluster, st, events[n - 1], fates[n - 1])
  }

  class OutboxRelayService {
    const repository: OutboxRepository
    const publisher: KafkaOutboxPublisher

    constructor (repository: OutboxRepository, publisher: KafkaOutboxPublisher)
      ensures this.repository == repository && this.publisher == publisher
    {
      this.repository := repository;
      this.publisher := publisher;
    }

    ghost function Here(published: nat, threw: bool): Progress
      reads repository, publisher
    {
      Progress(repository.rows, publisher.logs, publisher.connected, published, threw)
    }

    /** The body of the loop, a try block and its catch block; `threw` if the catch block throws. */
    method PublishEvent(event: OutboxEvent, fate: Fate, published: nat) returns (total: nat, threw: bool)
      modifies repository, publisher
      ensures Here(total, threw) == HandleEvent(publisher.cluster, old(Here(published, false)), event, fate)
    {
      total, threw := published, false;
      var ok := publisher.Publish(event, fate.connects, fate.send);
      if ok {
        ok := repository.UpdatePublished(event, fate.now, fate.mark);
      }
      if ok {
        total := total + 1;
      } else {
        var counted := repository.Increment(event.id, fate.increment);
        if !counted {
          return total, true;
        }
        var noted := repository.UpdateLastError(event.id, fate.error, fate.note);
        threw := !noted;
      }
    }

    /** `claim` is what the claim transaction returned, absent if it failed. The result is absent
        when the promise is rejected: by the claim, or by the bookkeeping of a failed event. */
    method PublishBatch(claim: Option<seq<OutboxEvent>>, fates: seq<Fate>) returns (result: Option<nat>)
      requires KeyedById(repository.rows)
      requires claim.Some? ==> IsClaim(repository.rows, {}, claim.value) && |claim.value| <= |fates|
      modifies repository, publisher
      ensures claim.None? ==> result.None? && Here(0, false) == old(Here(0, false))
      ensures claim.Some? ==>
                var end := After(publisher.cluster, old(Here(0, false)), claim.value, fates, |claim.value|);
                && Here(end.published, end.threw) == end
                && result == (if end.threw then None else Some(end.published))
    {
      if claim.None? {
        return None;
      }
      var events := claim.value;
      ghost var start := Here(0, false);
      var published := 0;
      for i := 0 to |events|
        invariant Here(published, false) == After(publisher.cluster, start, events, fates, i)
      {
        var threw;
        published, threw := PublishEvent(events[i], fates[i], published);
        if threw {
          StaysRejected(publisher.cluster, start, events, fates, i + 1);
          return None;
        }
      }
      result := Some(published);
    }
  }

  lemma {:induction false} StaysRejected(cluster: Cluster, start: Progress, events: seq<OutboxEvent>, fates: seq<Fate>,
                                         n: nat)
    requires n <= |events| <= |fates| && After(cluster, start, events, fates, n).threw
    ensures After(cluster, start, events, fates, |events|) == After(cluster, start, events, fates, n)
    decreases |events| - n
  {
    if n < |events| {
      StaysRejected(cluster, start, events, fates, n + 1);
    }
  }

  // ---- Conservation ----

  /** Among the first `n` events: those whose success write took effect. */
  function Marked(cluster: Cluster, start: Progress, events: seq<OutboxEvent>, fates: seq<Fate>, n: nat): seq<string>
    requires n <= |events| <= |fates|
  {
    if n == 0 then []
    else
      var before := After(cluster, start, events, fates, n - 1);
      var rest := Marked(cluster, start, events, fates, n - 1);
      if !before.threw && MarkApplies(before.connected, fates[n - 1]) then rest + [events[n - 1].id] else rest
  }

  predicate MarkApplies(connected: bool, fate: Fate) {
    EffectiveSend(connected, fate.connects, fate.send).Acknowledged? && fate.mark.Applied()
  }

  /** Success writes that took effect although the database reported a failure. */
  function LostReplies(cluster: Cluster, start: Progress, events: seq<OutboxEvent>, fates: seq<Fate>, n: nat): nat
    requires n <= |events| <= |fates|
  {
    if n == 0 then 0
    else
      var before := After(cluster, start, events, fates, n - 1);
      LostReplies(cluster, start, events, fates, n - 1)
      + (if !before.threw && MarkApplies(before.connected, fates[n - 1]) && fates[n - 1].mark.WrittenButFailed?
         then 1 else 0)
  }

  /** Booking an outcome changes only the bookkeeping of its own row. */
  lemma BookFrame(rows: Table, event: OutboxEvent, acknowledged: bool, fate: Fate)
    ensures OnlyBooks(rows, Book(rows, event, acknowledged, fate).rows, event.id)
  {
    var marked := if acknowledged && fate.mark.Applied() then MarkPublished(rows, event, fate.now) else rows;
    var counted := if fate.increment.Applied() then IncrementAttempts(marked, event.id) else marked;
    WritesOnlyBook(rows, event, fate.now, fate.error);
    if !(acknowledged && fate.mark.Written?) {
      WritesOnlyBook(marked, event, fate.now, fate.error);
      OnlyBooksTwice(rows, marked, counted, event.id);
      if fate.increment.Written? && fate.note.Applied() {
        WritesOnlyBook(counted, event, fate.now, fate.error);
        OnlyBooksTwice(rows, counted, NoteError(counted, event.id, fate.error), event.id);
      }
    }
  }

  /** The row leaves the backlog exactly if the success write took effect. */
  lemma BookBacklog(rows: Table, event: OutboxEvent, acknowledged: bool, fate: Fate)
    ensures Unpublished(Book(rows, event, acknowledged, fate).rows)
         == Unpublished(rows) - if acknowledged && fate.mark.Applied() then {event.id} else {}
  {
    var marked := if acknowledged && fate.mark.Applied() then MarkPublished(rows, event, fate.now) else rows;
    var counted := if fate.increment.Applied() then IncrementAttempts(marked, event.id) else marked;
    WritesAndBacklog(rows, event, fate.now, fate.error);
    if !(acknowledged && fate.mark.Written?) {
      WritesAndBacklog(marked, event, fate.now, fate.error);
      WritesAndBacklog(counted, event, fate.now, fate.error);
    }
  }

  lemma HandleEventFrame(cluster: Cluster, st: Progress, event: OutboxEvent, fate: Fate)
    ensures var next := HandleEvent(cluster, st, event, fate);
            && OnlyBooks(st.rows, next.rows, event.id)
            && Unpublished(next.rows)
               == Unpublished(st.rows) - (if MarkApplies(st.connected, fate) then {event.id} else {})
  {
    var acknowledged := EffectiveSend(st.connected, fate.connects, fate.send).Acknowledged?;
    BookFrame(st.rows, event, acknowledged, fate);
    BookBacklog(st.rows, event, acknowledged, fate);
  }

  lemma IdsAppend(events: seq<OutboxEvent>, n: nat)
    requires n < |events|
    ensures Ids(events[..n + 1]) == Ids(events[..n]) + {events[n].id}
  {
    assert events[..n + 1] == events[..n] + [events[n]];
    IdsGrow(events[..n], events[n]);
  }

  /** After `n` events, the rows of all other events are untouched and no row's enqueued part has changed. */
  lemma {:induction false} BatchFrame(cluster: Cluster, start: Progress, events: seq<OutboxEvent>, fates: seq<Fate>,
                                      n: nat, id: string)
    requires n <= |events| <= |fates|
    ensures var rows := After(cluster, start, events, fates, n).rows;
            && (id in rows <==> id in start.rows)
            && (id in rows ==> AsEnqueued(rows[id]) == AsEnqueued(start.rows[id]))
            && (id in rows && id !in Ids(events[..n]) ==> rows[id] == start.rows[id])
  {
    if n > 0 {
      BatchFrame(cluster, start, events, fates, n - 1, id);
      IdsAppend(events, n - 1);
      HandleEventFrame(cluster, After(cluster, start, events, fates, n - 1), events[n - 1], fates[n - 1]);
    }
  }

  /** The marked rows are an in-order part of the events handled so far. */
  lemma {:induction false} MarkedInOrder(cluster: Cluster, start: Progress, events: seq<OutboxEvent>, fates: seq<Fate>,
                                         n: nat)
    requires n <= |events| <= |fates|
    ensures InOrderPart(Marked(cluster, start, events, fates, n), events[..n])
  {
    if n > 0 {
      MarkedInOrder(cluster, start, events, fates, n - 1);
      var marked := Marked(cluster, start, events, fates, n - 1);
      assert events[..n][..n - 1] == events[..n - 1];
      assert (marked + [events[n - 1].id])[..|marked|] == marked;
    }
  }

  lemma MarkedStep(cluster: Cluster, start: Progress, events: seq<OutboxEvent>, fates: seq<Fate>, n: nat)
    requires n < |events| <= |fates|
    ensures var before, after := Marked(cluster, start, events, fates, n), Marked(cluster, start, events, fates, n + 1);
            after == before || after == before + [events[n].id]
  {
  }

  /** No event is marked twice. */
  lemma {:induction false} MarkedOnce(cluster: Cluster, start: Progress, events: seq<OutboxEvent>, fates: seq<Fate>,
                                      n: nat)
    requires n <= |events| <= |fates| && DistinctIds(events)
    ensures Members(Marked(cluster, start, events, fates, n)) <= Ids(events[..n])
    ensures |Members(Marked(cluster, start, events, fates, n))| == |Marked(cluster, start, events, fates, n)|
  {
    if n > 0 {
      MarkedOnce(cluster, start, events, fates, n - 1);
      MarkedStep(cluster, start, events, fates, n - 1);
      OneMore(Marked(cluster, start, events, fates, n - 1), Marked(cluster, start, events, fates, n), events, n - 1);
    }
  }

  lemma OneMore(marked: seq<string>, marked': seq<string>, events: seq<OutboxEvent>, n: nat)
    requires n < |events| && DistinctIds(events)
    requires Members(marked) <= Ids(events[..n]) && |Members(marked)| == |marked|
    requires marked' == marked || marked' == marked + [events[n].id]
    ensures Members(marked') <= Ids(events[..n + 1]) && |Members(marked')| == |marked'|
  {
    IdsAppend(events, n);
    MembersAppend(marked, events[n].id);
    assert events[n].id !in Ids(events[..n]);
  }

  /** The batch takes exactly the marked rows out of the backlog. */
  lemma {:induction false} BatchBacklog(cluster: Cluster, start: Progress, events: seq<OutboxEvent>, fates: seq<Fate>,
                                        n: nat)
    requires n <= |events| <= |fates|
    ensures Unpublished(After(cluster, start, events, fates, n).rows)
         == Unpublished(start.rows) - Members(Marked(cluster, start, events, fates, n))
  {
    if n > 0 {
      BatchBacklog(cluster, start, events, fates, n - 1);
      var before := After(cluster, start, events, fates, n - 1);
      HandleEventFrame(cluster, before, events[n - 1], fates[n - 1]);
      var marked := Marked(cluster, start, events, fates, n - 1);
      assert Members(marked + [events[n - 1].id]) == Members(marked) + {events[n - 1].id};
    }
  }

  /** `ids` lists the keys of some of the events, in the order of the events. */
  ghost predicate InOrderPart(ids: seq<string>, events: seq<OutboxEvent>)
    decreases |events|
  {
    if events == [] then ids == []
    else
      var front := events[..|events| - 1];
      || InOrderPart(ids, front)
      || (ids != [] && ids[|ids| - 1] == events[|events| - 1].id && InOrderPart(ids[..|ids| - 1], front))
  }

  /** No reply of the database is lost: what is reported failed has had no effect. */
  predicate RepliesArrive(fates: seq<Fate>) {
    forall i :: 0 <= i < |fates| ==>
      !fates[i].mark.WrittenButFailed? && !fates[i].increment.WrittenButFailed? && !fates[i].note.WrittenButFailed?
  }

  /** A row after its event has been handled: one more attempt, and either published at the time
      read then, without an error, or still unpublished, with the error of the failure. */
  ghost predicate HandledOnce(row: OutboxEvent, claimed: OutboxEvent, fate: Fate) {
    && AsEnqueued(row) == AsEnqueued(claimed)
    && row.attempts == claimed.attempts + 1
    && (|| (row.publishedAt == Some(fate.now) && row.lastError.None?)
        || (row.publishedAt.None? && row.lastError == Some(fate.error)))
  }

  lemma BookHandles(rows: Table, event: OutboxEvent, acknowledged: bool, fate: Fate)
    requires event.id in rows && rows[event.id] == event && event.publishedAt.None?
    requires RepliesArrive([fate]) && !Book(rows, event, acknowledged, fate).threw
    ensures HandledOnce(Book(rows, event, acknowledged, fate).rows[event.id], event, fate)
    ensures Book(rows, event, acknowledged, fate).rows[event.id].publishedAt.Some? <==>
              acknowledged && fate.mark.Written?
  {
    assert [fate][0] == fate;
  }

  /** The row of an event that has been handled is not touched again. */
  lemma LaterEvents(cluster: Cluster, start: Progress, events: seq<OutboxEvent>, fates: seq<Fate>, n: nat, k: nat)
    requires k < n - 1 && n <= |events| <= |fates| && DistinctIds(events)
    requires !After(cluster, start, events, fates, n).threw
    ensures var before, after := After(cluster, start, events, fates, n - 1), After(cluster, start, events, fates, n);
            && !before.threw && (events[k].id in after.rows <==> events[k].id in before.rows)
            && (events[k].id in before.rows ==> after.rows[events[k].id] == before.rows[events[k].id])
  {
    HandleEventFrame(cluster, After(cluster, start, events, fates, n - 1), events[n - 1], fates[n - 1]);
    assert events[k].id != events[n - 1].id;
  }

  /** An event comes to its turn with its row as it was claimed. */
  lemma OwnEvent(cluster: Cluster, start: Progress, events: seq<OutboxEvent>, fates: seq<Fate>, n: nat)
    requires n < |events| <= |fates| && KeyedById(start.rows) && IsClaim(start.rows, {}, events)
    ensures var rows := After(cluster, start, events, fates, n).rows;
            events[n].id in rows && rows[events[n].id] == events[n] && events[n].publishedAt.None?
  {
    assert events[n].id !in Ids(events[..n]);
    BatchFrame(cluster, start, events, fates, n, events[n].id);
  }

  /** What a batch that runs through does to each claimed row, with no other writer. */
  lemma {:induction false} BatchHandles(cluster: Cluster, start: Progress, events: seq<OutboxEvent>, fates: seq<Fate>,
                                        n: nat, k: nat)
    requires k < n <= |events| <= |fates| && KeyedById(start.rows) && IsClaim(start.rows, {}, events)
    requires RepliesArrive(fates) && !After(cluster, start, events, fates, n).threw
    ensures var rows := After(cluster, start, events, fates, n).rows;
            events[k].id in rows && HandledOnce(rows[events[k].id], events[k], fates[k])
  {
    if k < n - 1 {
      LaterEvents(cluster, start, events, fates, n, k);
      BatchHandles(cluster, start, events, fates, n - 1, k);
    } else {
      LastHandled(cluster, start, events, fates, k);
    }
  }

  lemma LastHandled(cluster: Cluster, start: Progress, events: seq<OutboxEvent>, fates: seq<Fate>, k: nat)
    requires k < |events| <= |fates| && KeyedById(start.rows) && IsClaim(start.rows, {}, events)
    requires RepliesArrive(fates) && !After(cluster, start, events, fates, k + 1).threw
    ensures var rows := After(cluster, start, events, fates, k + 1).rows;
            events[k].id in rows && HandledOnce(rows[events[k].id], events[k], fates[k])
  {
    var before := After(cluster, start, events, fates, k);
    OwnEvent(cluster, start, events, fates, k);
    BookHandles(before.rows, events[k],
                EffectiveSend(before.connected, fates[k].connects, fates[k].send).Acknowledged?, fates[k]);
  }

  lemma {:induction false} PublishedCount(cluster: Cluster, start: Progress, events: seq<OutboxEvent>, fates: seq<Fate>,
                                          n: nat)
    requires n <= |events| <= |fates|
    ensures |Marked(cluster, start, events, fates, n)|
         == After(cluster, start, events, fates, n).published - start.published
            + LostReplies(cluster, start, events, fates, n)
  {
    if n > 0 {
      PublishedCount(cluster, start, events, fates, n - 1);
    }
  }

  /** Batch result conservation: with no other writer, the rows that leave the backlog are as many
      as the number reported plus the success writes whose reply was lost; so the number is exact
      if and only if no such reply was lost. The published rows are an in-order part of the claim,
      which is all of the backlog up to the batch size. */
  lemma BatchConservation(cluster: Cluster, start: Progress, events: seq<OutboxEvent>, fates: seq<Fate>)
    requires |events| <= |fates| && KeyedById(start.rows) && IsClaim(start.rows, {}, events)
    requires start.published == 0 && !start.threw
    ensures var end := After(cluster, start, events, fates, |events|);
            var lost := LostReplies(cluster, start, events, fates, |events|);
            && |Unpublished(start.rows)| - |Unpublished(end.rows)| == end.published + lost
            && (|Unpublished(start.rows)| - |Unpublished(end.rows)| == end.published <==> lost == 0)
            && Unpublished(end.rows) <= Unpublished(start.rows)
    ensures InOrderPart(Marked(cluster, start, events, fates, |events|), events)
    ensures |events| == if |Unpublished(start.rows)| < BATCH_SIZE then |Unpublished(start.rows)| else BATCH_SIZE
  {
    assert events[..|events|] == events;
    BatchBacklog(cluster, start, events, fates, |events|);
    MarkedInOrder(cluster, start, events, fates, |events|);
    MarkedOnce(cluster, start, events, fates, |events|);
    SubsetSize(Members(Marked(cluster, start, events, fates, |events|)), Unpublished(start.rows));
    PublishedCount(cluster, start, events, fates, |events|);
    ClaimSize(start.rows, {}, events);
    assert Eligible(start.rows, {}) == Unpublished(start.rows);
  }
}
