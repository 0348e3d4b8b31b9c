/** Nothing enqueued is lost and nothing is marked before it was sent, in every run of any number
    of relays, whatever publish calls and row writes fail and whichever process crashes. */
module RelaySafety {
  import opened Wrappers
  import opened Sequences
  import opened Outbox
  import opened Kafka
  import opened RelaySystem

  /** How the table may develop: rows stay, their enqueued part stays, published stays published. */
  ghost predicate Grows(rows: Table, rows': Table) {
    forall id :: id in rows ==>
      && id in rows'
      && AsEnqueued(rows'[id]) == AsEnqueued(rows[id])
      && (rows[id].publishedAt.Some? ==> rows'[id].publishedAt.Some?)
  }

  ghost predicate Recorded(history: seq<Attempt>, id: string) {
    exists i :: 0 <= i < |history| && history[i].id == id && history[i].send.Appended()
  }

  /** The keys of the records in partition `p`, read off the publish calls. */
  function AppendedIds(cluster: Cluster, rows: Table, history: seq<Attempt>, p: Partition): seq<string> {
    if history == [] then []
    else
      var last := history[|history| - 1];
      AppendedIds(cluster, rows, history[..|history| - 1], p)
      + if last.send.Appended() && last.id in rows && Route(cluster, rows[last.id]) == p then [last.id] else []
  }

  ghost predicate LogMatches(rows: Table, log: seq<Record>, ids: seq<string>) {
    && |log| == |ids|
    && forall k :: 0 <= k < |log| ==> ids[k] in rows && log[k] == RecordFor(rows[ids[k]])
  }

  // ---- The invariant, part by part ----

  ghost predicate LogsMatch(cluster: Cluster, s: State) {
    forall p :: LogMatches(s.rows, LogOf(s.logs, p), AppendedIds(cluster, s.rows, s.history, p))
  }

  ghost predicate AttemptsKnown(s: State) {
    forall i :: 0 <= i < |s.history| ==> s.history[i].id in s.rows
  }

  ghost predicate BatchKnown(rows: Table, batch: seq<OutboxEvent>) {
    forall k :: 0 <= k < |batch| ==> batch[k].id in rows && AsEnqueued(batch[k]) == AsEnqueued(rows[batch[k].id])
  }

  ghost predicate RelaysKnown(s: State) {
    forall r :: r in s.relays && !s.relays[r].Idle? ==> BatchKnown(s.rows, s.relays[r].batch)
  }

  ghost predicate PublishedRecorded(s: State) {
    && (forall id :: id in s.rows && s.rows[id].publishedAt.Some? ==> Recorded(s.history, id))
    && (forall r :: r in s.relays && s.relays[r].Marking? && Busy(s.relays[r]) ==>
          Recorded(s.history, Current(s.relays[r]).id))
  }

  ghost predicate ClaimsDisjoint(s: State) {
    forall r, q :: r in s.relays && q in s.relays && r != q && s.relays[r].Claiming? && s.relays[q].Claiming? ==>
      Ids(s.relays[r].batch) !! Ids(s.relays[q].batch)
  }

  ghost predicate Inv(cluster: Cluster, s: State) {
    && KeyedById(s.rows)
    && AttemptsKnown(s)
    && RelaysKnown(s)
    && PublishedRecorded(s)
    && LogsMatch(cluster, s)
    && ClaimsDisjoint(s)
  }

  // ---- Every step keeps it ----

  lemma BookedGrows(rows: Table, event: OutboxEvent, now: Time, message: string)
    ensures Grows(rows, MarkPublished(rows, event, now))
    ensures Grows(rows, IncrementAttempts(rows, event.id))
    ensures Grows(rows, NoteError(rows, event.id, message))
  {
  }

  lemma StepGrows(cluster: Cluster, s: State, a: Action)
    requires Enabled(s, a)
    ensures Grows(s.rows, Next(cluster, s, a).rows)
  {
    match a
    case Mark(r, _, now, error) => BookedGrows(s.rows, Current(s.relays[r]), now, error);
    case Increment(r, _) => BookedGrows(s.rows, Current(s.relays[r]), 0, "");
    case Note(r, _) => BookedGrows(s.rows, Current(s.relays[r]), 0, s.relays[r].message);
    case _ =>
  }

  lemma StepKeyed(cluster: Cluster, s: State, a: Action)
    requires Enabled(s, a) && KeyedById(s.rows) && RelaysKnown(s)
    ensures KeyedById(Next(cluster, s, a).rows)
  {
  }

  /** A relay's batch changes only when it opens a claim. */
  lemma BatchStep(cluster: Cluster, s: State, a: Action, r: nat)
    requires Enabled(s, a) && r in Next(cluster, s, a).relays && !Next(cluster, s, a).relays[r].Idle?
    ensures var relay := Next(cluster, s, a).relays[r];
            || (a == Open(r, relay.batch))
            || (r in s.relays && !s.relays[r].Idle? && relay.batch == s.relays[r].batch)
  {
  }

  lemma BatchStaysKnown(rows: Table, rows': Table, batch: seq<OutboxEvent>)
    requires BatchKnown(rows, batch) && Grows(rows, rows')
    ensures BatchKnown(rows', batch)
  {
  }

  lemma StepRelays(cluster: Cluster, s: State, a: Action)
    requires Enabled(s, a) && KeyedById(s.rows) && RelaysKnown(s)
    ensures RelaysKnown(Next(cluster, s, a))
  {
    var s' := Next(cluster, s, a);
    StepGrows(cluster, s, a);
    forall r | r in s'.relays && !s'.relays[r].Idle? ensures BatchKnown(s'.rows, s'.relays[r].batch) {
      BatchStep(cluster, s, a, r);
      BatchStaysKnown(s.rows, s'.rows, s'.relays[r].batch);
    }
  }

  lemma StepAttempts(cluster: Cluster, s: State, a: Action)
    requires Enabled(s, a) && RelaysKnown(s) && AttemptsKnown(s)
    ensures AttemptsKnown(Next(cluster, s, a))
  {
    StepGrows(cluster, s, a);
  }

  lemma RecordedStays(history: seq<Attempt>, last: Attempt, id: string)
    ensures Recorded(history, id) ==> Recorded(history + [last], id)
    ensures last.id == id && last.send.Appended() ==> Recorded(history + [last], id)
  {
    var longer := history + [last];
    assert longer[|history|] == last;
    if Recorded(history, id) {
      var i :| 0 <= i < |history| && history[i].id == id && history[i].send.Appended();
      assert longer[i] == history[i];
    }
  }

  lemma HistoryStep(cluster: Cluster, s: State, a: Action, id: string)
    requires Enabled(s, a)
    ensures Recorded(s.history, id) ==> Recorded(Next(cluster, s, a).history, id)
    ensures a.Publish? && a.send.Acknowledged? && Current(s.relays[a.relay]).id == id ==>
              Recorded(Next(cluster, s, a).history, id)
  {
    if a.Publish? {
      RecordedStays(s.history, Attempt(Current(s.relays[a.relay]).id, a.send), id);
    }
  }

  /** A row becomes published only by the success write of a relay whose publish call was acknowledged. */
  lemma PublishedStep(cluster: Cluster, s: State, a: Action, id: string)
    requires Enabled(s, a) && id in Next(cluster, s, a).rows && Next(cluster, s, a).rows[id].publishedAt.Some?
    ensures (id in s.rows && s.rows[id].publishedAt.Some?) || (a.Mark? && Current(s.relays[a.relay]).id == id)
  {
  }

  lemma MarkingStep(cluster: Cluster, s: State, a: Action, r: nat)
    requires Enabled(s, a) && r in Next(cluster, s, a).relays && Next(cluster, s, a).relays[r].Marking?
    ensures var s' := Next(cluster, s, a);
            || (r in s.relays && s'.relays[r] == s.relays[r])
            || (a.Publish? && a.relay == r && a.send.Acknowledged? && Busy(s'.relays[r])
                && Current(s'.relays[r]) == Current(s.relays[r]))
  {
  }

  lemma StepPublished(cluster: Cluster, s: State, a: Action)
    requires Enabled(s, a) && PublishedRecorded(s)
    ensures PublishedRecorded(Next(cluster, s, a))
  {
    var s' := Next(cluster, s, a);
    forall id | id in s'.rows && s'.rows[id].publishedAt.Some? ensures Recorded(s'.history, id) {
      PublishedStep(cluster, s, a, id);
      HistoryStep(cluster, s, a, id);
    }
    forall r | r in s'.relays && s'.relays[r].Marking? && Busy(s'.relays[r])
      ensures Recorded(s'.history, Current(s'.relays[r]).id)
    {
      MarkingStep(cluster, s, a, r);
      HistoryStep(cluster, s, a, Current(s'.relays[r]).id);
    }
  }

  lemma StepClaims(cluster: Cluster, s: State, a: Action)
    requires Enabled(s, a) && ClaimsDisjoint(s)
    ensures ClaimsDisjoint(Next(cluster, s, a))
  {
    var s' := Next(cluster, s, a);
    if a.Open? {
      forall q | q in s.relays && s.relays[q].Claiming? ensures Ids(a.claim) !! Ids(s.relays[q].batch) {
        ClaimSize(s.rows, Locked(s), a.claim);
        assert Ids(s.relays[q].batch) <= Locked(s);
      }
    }
  }

  /** Bookkeeping and new rows leave the projection of the publish calls alone. */
  lemma {:induction false} AppendedIdsFrame(cluster: Cluster, rows: Table, rows': Table, history: seq<Attempt>,
                                            p: Partition)
    requires Grows(rows, rows')
    requires forall i :: 0 <= i < |history| ==> history[i].id in rows
    ensures AppendedIds(cluster, rows', history, p) == AppendedIds(cluster, rows, history, p)
  {
    if history != [] {
      AppendedIdsFrame(cluster, rows, rows', history[..|history| - 1], p);
      var id := history[|history| - 1].id;
      DuplicatesAgree(cluster, rows[id], rows'[id]);
    }
  }

  lemma LogMatchesFrame(cluster: Cluster, rows: Table, rows': Table, log: seq<Record>, ids: seq<string>)
    requires Grows(rows, rows') && LogMatches(rows, log, ids)
    ensures LogMatches(rows', log, ids)
  {
    forall k | 0 <= k < |log| ensures log[k] == RecordFor(rows'[ids[k]]) {
      DuplicatesAgree(cluster, rows[ids[k]], rows'[ids[k]]);
    }
  }

  lemma PublishLogs(cluster: Cluster, s: State, event: OutboxEvent, send: Send, p: Partition)
    requires event.id in s.rows && AsEnqueued(event) == AsEnqueued(s.rows[event.id])
    requires LogMatches(s.rows, LogOf(s.logs, p), AppendedIds(cluster, s.rows, s.history, p))
    ensures LogMatches(s.rows, LogOf(AfterSend(cluster, s.logs, event, send), p),
                       AppendedIds(cluster, s.rows, s.history + [Attempt(event.id, send)], p))
  {
    DuplicatesAgree(cluster, event, s.rows[event.id]);
    var longer := s.history + [Attempt(event.id, send)];
    assert longer[..|longer| - 1] == s.history;
    assert longer[|longer| - 1] == Attempt(event.id, send);
  }

  /** Only a publish call touches the logs and is recorded. */
  lemma OnlyPublishAppends(cluster: Cluster, s: State, a: Action)
    requires Enabled(s, a) && !a.Publish?
    ensures Next(cluster, s, a).logs == s.logs && Next(cluster, s, a).history == s.history
  {
  }

  lemma PublishStep(cluster: Cluster, s: State, a: Action)
    requires Enabled(s, a) && a.Publish?
    ensures var s', event := Next(cluster, s, a), Current(s.relays[a.relay]);
            && s'.rows == s.rows
            && s'.logs == AfterSend(cluster, s.logs, event, a.send)
            && s'.history == s.history + [Attempt(event.id, a.send)]
  {
  }

  lemma StepLogs(cluster: Cluster, s: State, a: Action)
    requires Enabled(s, a) && RelaysKnown(s) && AttemptsKnown(s) && LogsMatch(cluster, s)
    ensures LogsMatch(cluster, Next(cluster, s, a))
  {
    var s' := Next(cluster, s, a);
    if a.Publish? {
      PublishStep(cluster, s, a);
      forall p ensures LogMatches(s'.rows, LogOf(s'.logs, p), AppendedIds(cluster, s'.rows, s'.history, p)) {
        PublishLogs(cluster, s, Current(s.relays[a.relay]), a.send, p);
      }
    } else {
      StepGrows(cluster, s, a);
      OnlyPublishAppends(cluster, s, a);
      forall p ensures LogMatches(s'.rows, LogOf(s'.logs, p), AppendedIds(cluster, s'.rows, s'.history, p)) {
        AppendedIdsFrame(cluster, s.rows, s'.rows, s.history, p);
        LogMatchesFrame(cluster, s.rows, s'.rows, LogOf(s.logs, p), AppendedIds(cluster, s.rows, s.history, p));
      }
    }
  }

  lemma StepKeeps(cluster: Cluster, s: State, a: Action)
    requires Enabled(s, a) && Inv(cluster, s)
    ensures Inv(cluster, Next(cluster, s, a)) && Grows(s.rows, Next(cluster, s, a).rows)
  {
    StepGrows(cluster, s, a);
    StepKeyed(cluster, s, a);
    StepRelays(cluster, s, a);
    StepAttempts(cluster, s, a);
    StepPublished(cluster, s, a);
    StepLogs(cluster, s, a);
    StepClaims(cluster, s, a);
  }

  lemma InitialKeeps(cluster: Cluster)
    ensures Inv(cluster, INITIAL)
  {
  }

  /** Over any run: the invariant holds at the end; no row vanishes, no enqueued part changes and
      no row goes back from published to unpublished on the way. */
  lemma {:induction false} RunKeeps(cluster: Cluster, s: State, actions: seq<Action>)
    requires IsRun(cluster, s, actions) && Inv(cluster, s)
    ensures Inv(cluster, Final(cluster, s, actions)) && Grows(s.rows, Final(cluster, s, actions).rows)
    decreases |actions|
  {
    if actions != [] {
      StepKeeps(cluster, s, actions[0]);
      RunKeeps(cluster, Next(cluster, s, actions[0]), actions[1..]);
    }
  }

  // ---- What it means ----

  lemma {:induction false} RecordedInLog(cluster: Cluster, rows: Table, history: seq<Attempt>, id: string)
    requires id in rows
    ensures Recorded(history, id) <==> id in AppendedIds(cluster, rows, history, Route(cluster, rows[id]))
  {
    if history != [] {
      var front, last := history[..|history| - 1], history[|history| - 1];
      assert history == front + [last];
      RecordedInLog(cluster, rows, front, id);
      RecordedStays(front, last, id);
    }
  }

  /** A record in some log stems from an enqueued row, and it lies in that row's own partition. */
  lemma {:induction false} AppendedIdsRouted(cluster: Cluster, rows: Table, history: seq<Attempt>, p: Partition)
    ensures forall k :: 0 <= k < |AppendedIds(cluster, rows, history, p)| ==>
              var id := AppendedIds(cluster, rows, history, p)[k];
              id in rows && Route(cluster, rows[id]) == p
  {
    if history != [] {
      AppendedIdsRouted(cluster, rows, history[..|history| - 1], p);
    }
  }

  /** A record that carries the row, field by field, lies in the partition of the row. */
  ghost predicate HasRecord(cluster: Cluster, s: State, id: string)
    requires id in s.rows
  {
    exists k :: 0 <= k < |LogOf(s.logs, Route(cluster, s.rows[id]))| &&
      Carries(LogOf(s.logs, Route(cluster, s.rows[id]))[k], s.rows[id])
  }

  lemma RecordedHasRecord(cluster: Cluster, s: State, id: string)
    requires Inv(cluster, s) && id in s.rows && Recorded(s.history, id)
    ensures HasRecord(cluster, s, id)
  {
    var p := Route(cluster, s.rows[id]);
    RecordedInLog(cluster, s.rows, s.history, id);
    var ids := AppendedIds(cluster, s.rows, s.history, p);
    var k :| 0 <= k < |ids| && ids[k] == id;
    assert LogMatches(s.rows, LogOf(s.logs, p), ids);
    assert LogOf(s.logs, p)[k] == RecordFor(s.rows[id]);
    RecordCarries(s.rows[id]);
  }

  /** The record carries an enqueued row routed to partition `p`. */
  ghost predicate FromRow(cluster: Cluster, rows: Table, p: Partition, record: Record) {
    exists id :: id in rows && Route(cluster, rows[id]) == p && Carries(record, rows[id])
  }

  /** A record in the log of partition `p` is that of an enqueued row routed there. */
  lemma RecordHasRow(cluster: Cluster, s: State, p: Partition, k: nat)
    requires Inv(cluster, s) && k < |LogOf(s.logs, p)|
    ensures FromRow(cluster, s.rows, p, LogOf(s.logs, p)[k])
  {
    var ids := AppendedIds(cluster, s.rows, s.history, p);
    AppendedIdsRouted(cluster, s.rows, s.history, p);
    assert LogMatches(s.rows, LogOf(s.logs, p), ids);
    assert ids[k] in s.rows && LogOf(s.logs, p)[k] == RecordFor(s.rows[ids[k]]);
    RecordCarries(s.rows[ids[k]]);
  }

  /** The row is free for the next claim, or a claim that is open right now holds it. */
  ghost predicate Selectable(s: State, id: string) {
    || id in Eligible(s.rows, Locked(s))
    || (exists r :: r in s.relays && s.relays[r].Claiming? && id in Ids(s.relays[r].batch))
  }

  /** No loss and no premature marking. In the final state of every run from the empty system: a
      published row has its record in its own partition, every other row is selectable, every
      record stems from an enqueued row and lies in that row's partition, and claims that are open
      together share no row. That an eligible row with fewer than `BATCH_SIZE` rows ahead of it is
      in every claim is Outbox.ClaimMembership; that rows, their content and their being published
      last is RunKeeps. */
  lemma NoLoss(cluster: Cluster, actions: seq<Action>)
    requires IsRun(cluster, INITIAL, actions)
    ensures var s := Final(cluster, INITIAL, actions);
            forall id :: id in s.rows ==>
              if s.rows[id].publishedAt.Some? then HasRecord(cluster, s, id) else Selectable(s, id)
    ensures var s := Final(cluster, INITIAL, actions);
            forall p, k :: 0 <= k < |LogOf(s.logs, p)| ==> FromRow(cluster, s.rows, p, LogOf(s.logs, p)[k])
    ensures ClaimsDisjoint(Final(cluster, INITIAL, actions))
  {
    var s := Final(cluster, INITIAL, actions);
    InitialKeeps(cluster);
    RunKeeps(cluster, INITIAL, actions);
    forall id | id in s.rows
      ensures if s.rows[id].publishedAt.Some? then HasRecord(cluster, s, id) else Selectable(s, id)
    {
      if s.rows[id].publishedAt.Some? {
        RecordedHasRecord(cluster, s, id);
      } else if id in Locked(s) {
        assert exists r :: r in s.relays && s.relays[r].Claiming? && id in Ids(s.relays[r].batch);
      }
    }
    forall p, k | 0 <= k < |LogOf(s.logs, p)|
      ensures FromRow(cluster, s.rows, p, LogOf(s.logs, p)[k])
    {
      RecordHasRow(cluster, s, p, k);
    }
  }
}
