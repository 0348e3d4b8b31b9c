/** What the `attempts` column counts. */
module RelayAttempts {
  import opened Wrappers
  import opened Sets
  import opened Sequences
  import opened Outbox
  import opened Kafka
  import opened RelaySystem
  import opened RelaySafety

  function Tried(history: seq<Attempt>): seq<string> {
    seq(|history|, i requires 0 <= i < |history| => history[i].id)
  }

  lemma TriedAppend(history: seq<Attempt>, last: Attempt)
    ensures Tried(history + [last]) == Tried(history) + [last.id]
  {
  }

  /** Publish calls made for `id` so far. */
  function Calls(s: State, id: string): nat {
    Count(Tried(s.history), id)
  }

  /** Writes to the counter of `id` that took effect so far. */
  function Bookings(s: State, id: string): nat {
    Count(s.bookings, id)
  }

  /** Relays whose publish call for `id` has ended while its bookkeeping has not. */
  function Pending(s: State, id: string): set<nat> {
    PendingIn(s.relays, id)
  }

  function PendingIn(relays: map<nat, Relay>, id: string): set<nat> {
    set r | r in relays && IsPending(relays[r], id)
  }

  predicate IsPending(relay: Relay, id: string) {
    (relay.Marking? || relay.Recording?) && Busy(relay) && Current(relay).id == id
  }

  // ---- Any number of relays ----

  /** Neither a row's counter nor any snapshot of it is ahead of the writes that took effect. */
  ghost predicate CountersBooked(s: State) {
    && (forall id :: id in s.rows ==> s.rows[id].id == id && s.rows[id].attempts <= Bookings(s, id))
    && (forall r :: r in s.relays && !s.relays[r].Idle? ==> SnapshotsBooked(s, s.relays[r].batch))
  }

  ghost predicate SnapshotsBooked(s: State, batch: seq<OutboxEvent>) {
    forall k :: 0 <= k < |batch| ==> batch[k].attempts <= Bookings(s, batch[k].id)
  }

  lemma BookingsStep(cluster: Cluster, s: State, a: Action, id: string)
    requires Enabled(s, a)
    ensures var s' := Next(cluster, s, a);
            && Bookings(s, id) <= Bookings(s', id)
            && Bookings(s', id) == Bookings(s, id)
                 + (if (a.Mark? || a.Increment?) && a.write.Applied() && Current(s.relays[a.relay]).id == id
                    then 1 else 0)
  {
    if (a.Mark? || a.Increment?) && a.write.Applied() {
      CountAppend(s.bookings, Current(s.relays[a.relay]).id, id);
    }
  }

  /** A counter is set from the snapshot, or incremented, by the current event's bookkeeping only. */
  lemma CounterStep(cluster: Cluster, s: State, a: Action, id: string)
    requires Enabled(s, a) && id in s.rows && s.rows[id].id == id
    ensures id in Next(cluster, s, a).rows
    ensures var row, row' := s.rows[id], Next(cluster, s, a).rows[id];
            var booked := (a.Mark? || a.Increment?) && a.write.Applied() && Current(s.relays[a.relay]).id == id;
            && row'.id == id
            && row'.attempts == (if !booked then row.attempts
                                 else if a.Mark? then Current(s.relays[a.relay]).attempts + 1
                                 else row.attempts + 1)
  {
  }

  lemma RowCounterStep(cluster: Cluster, s: State, a: Action, id: string)
    requires Enabled(s, a) && CountersBooked(s) && id in Next(cluster, s, a).rows
    ensures var s' := Next(cluster, s, a); s'.rows[id].id == id && s'.rows[id].attempts <= Bookings(s', id)
  {
    BookingsStep(cluster, s, a, id);
    if id in s.rows {
      CounterStep(cluster, s, a, id);
      if a.Mark? {
        var relay := s.relays[a.relay];
        assert relay.batch[relay.next].attempts <= Bookings(s, relay.batch[relay.next].id);
      }
    }
  }

  lemma SnapshotStep(cluster: Cluster, s: State, a: Action, batch: seq<OutboxEvent>)
    requires Enabled(s, a) && SnapshotsBooked(s, batch)
    ensures SnapshotsBooked(Next(cluster, s, a), batch)
  {
    forall k | 0 <= k < |batch| ensures batch[k].attempts <= Bookings(Next(cluster, s, a), batch[k].id) {
      BookingsStep(cluster, s, a, batch[k].id);
    }
  }

  lemma StepCounters(cluster: Cluster, s: State, a: Action)
    requires Enabled(s, a) && CountersBooked(s)
    ensures CountersBooked(Next(cluster, s, a))
  {
    var s' := Next(cluster, s, a);
    forall id | id in s'.rows ensures s'.rows[id].id == id && s'.rows[id].attempts <= Bookings(s', id) {
      RowCounterStep(cluster, s, a, id);
    }
    forall r | r in s'.relays && !s'.relays[r].Idle? ensures SnapshotsBooked(s', s'.relays[r].batch) {
      SnapshotStep(cluster, s, a, s'.relays[r].batch);
    }
  }

  /** A success write for `id` takes effect but is reported as failed. */
  predicate LosesMarkReply(s: State, a: Action, id: string) {
    && a.Mark? && a.write.WrittenButFailed?
    && Busy(RelayOf(s, a.relay)) && Current(RelayOf(s, a.relay)).id == id
  }

  ghost function LostMarkReplies(cluster: Cluster, s: State, actions: seq<Action>, id: string): nat
    requires IsRun(cluster, s, actions)
    decreases |actions|
  {
    if actions == [] then 0
    else
      (if LosesMarkReply(s, actions[0], id) then 1 else 0)
      + LostMarkReplies(cluster, Next(cluster, s, actions[0]), actions[1..], id)
  }

  lemma PendingUpdate(relays: map<nat, Relay>, r: nat, relay: Relay, id: string)
    ensures |PendingIn(relays[r := relay], id)| == |PendingIn(relays, id)|
              + (if IsPending(relay, id) then 1 else 0)
              - (if r in relays && IsPending(relays[r], id) then 1 else 0)
  {
    ChangeOne(PendingIn(relays, id), PendingIn(relays[r := relay], id), r);
  }

  /** Only the acting relay can enter or leave the pending ones. */
  lemma PendingStep(cluster: Cluster, s: State, a: Action, id: string)
    requires Enabled(s, a)
    ensures var s' := Next(cluster, s, a);
            |Pending(s', id)| == |Pending(s, id)|
              + (if !a.Enqueue? && IsPending(RelayOf(s', a.relay), id) then 1 else 0)
              - (if !a.Enqueue? && IsPending(RelayOf(s, a.relay), id) then 1 else 0)
  {
    var s' := Next(cluster, s, a);
    if !a.Enqueue? {
      assert s'.relays == s.relays[a.relay := s'.relays[a.relay]];
      PendingUpdate(s.relays, a.relay, s'.relays[a.relay], id);
    }
  }

  lemma CallsStep(cluster: Cluster, s: State, a: Action, id: string)
    requires Enabled(s, a)
    ensures Calls(Next(cluster, s, a), id)
         == Calls(s, id) + if a.Publish? && Current(s.relays[a.relay]).id == id then 1 else 0
  {
    if a.Publish? {
      TriedAppend(s.history, Attempt(Current(s.relays[a.relay]).id, a.send));
      CountAppend(Tried(s.history), Current(s.relays[a.relay]).id, id);
    }
  }

  /** A publish call for `id` will never be counted: the process stops before it has been, or the
      increment has no effect and is given up. */
  predicate DropsCall(s: State, a: Action, id: string) {
    && !a.Enqueue? && IsPending(RelayOf(s, a.relay), id)
    && (a.Crash? || (a.Increment? && !a.write.Applied()))
  }

  ghost function DroppedCalls(cluster: Cluster, s: State, actions: seq<Action>, id: string): nat
    requires IsRun(cluster, s, actions)
    decreases |actions|
  {
    if actions == [] then 0
    else
      (if DropsCall(s, actions[0], id) then 1 else 0)
      + DroppedCalls(cluster, Next(cluster, s, actions[0]), actions[1..], id)
  }

  /** Counter writes made and still to be made, less the publish calls made. */
  function Balance(s: State, id: string): int {
    Bookings(s, id) + |Pending(s, id)| - Calls(s, id)
  }

  /** Only a success write whose reply is lost raises the balance, and only a dropped call lowers it. */
  lemma AccountStep(cluster: Cluster, s: State, a: Action, id: string)
    requires Enabled(s, a)
    ensures Balance(Next(cluster, s, a), id)
         == Balance(s, id) + (if LosesMarkReply(s, a, id) then 1 else 0) - (if DropsCall(s, a, id) then 1 else 0)
  {
    BookingsStep(cluster, s, a, id);
    PendingStep(cluster, s, a, id);
    CallsStep(cluster, s, a, id);
  }

  lemma {:induction false} RunAccount(cluster: Cluster, s: State, actions: seq<Action>, id: string)
    requires IsRun(cluster, s, actions)
    ensures Balance(Final(cluster, s, actions), id)
         == Balance(s, id) + LostMarkReplies(cluster, s, actions, id) - DroppedCalls(cluster, s, actions, id)
    decreases |actions|
  {
    if actions != [] {
      AccountStep(cluster, s, actions[0], id);
      RunAccount(cluster, Next(cluster, s, actions[0]), actions[1..], id);
    }
  }

  /** Every publish call leads to one counter write, or waits for it, or is dropped; and every success
      write whose reply is lost leads to one more. For any number of relays, in every run. */
  lemma CallsAccounted(cluster: Cluster, actions: seq<Action>, id: string)
    requires IsRun(cluster, INITIAL, actions)
    ensures var s := Final(cluster, INITIAL, actions);
            Bookings(s, id) + |Pending(s, id)| + DroppedCalls(cluster, INITIAL, actions, id)
            == Calls(s, id) + LostMarkReplies(cluster, INITIAL, actions, id)
  {
    RunAccount(cluster, INITIAL, actions, id);
  }

  lemma {:induction false} RunCounters(cluster: Cluster, s: State, actions: seq<Action>)
    requires IsRun(cluster, s, actions) && CountersBooked(s)
    ensures CountersBooked(Final(cluster, s, actions))
    decreases |actions|
  {
    if actions != [] {
      StepCounters(cluster, s, actions[0]);
      RunCounters(cluster, Next(cluster, s, actions[0]), actions[1..]);
    }
  }

  /** For any number of relays the counter never exceeds the writes that took effect, stale write-backs
      notwithstanding, nor the publish calls by more than the success writes whose reply was lost. */
  lemma AttemptsBounded(cluster: Cluster, actions: seq<Action>, id: string)
    requires IsRun(cluster, INITIAL, actions) && id in Final(cluster, INITIAL, actions).rows
    ensures var s := Final(cluster, INITIAL, actions);
            && s.rows[id].attempts <= Bookings(s, id)
            && s.rows[id].attempts <= Calls(s, id) + LostMarkReplies(cluster, INITIAL, actions, id)
  {
    RunCounters(cluster, INITIAL, actions);
    CallsAccounted(cluster, actions, id);
  }

  // ---- When the counter is exact ----

  /** A success write for `id` takes effect although the row has been counted up since it was claimed. */
  predicate StaleMark(s: State, a: Action, id: string) {
    && a.Mark? && a.write.Applied()
    && Busy(RelayOf(s, a.relay)) && Current(RelayOf(s, a.relay)).id == id
    && id in s.rows && Current(RelayOf(s, a.relay)).attempts != s.rows[id].attempts
  }

  ghost predicate MarksStale(cluster: Cluster, s: State, actions: seq<Action>, id: string)
    requires IsRun(cluster, s, actions)
    decreases |actions|
  {
    actions != [] &&
    (StaleMark(s, actions[0], id) || MarksStale(cluster, Next(cluster, s, actions[0]), actions[1..], id))
  }

  ghost predicate Exact(s: State, id: string) {
    id in s.rows ==> s.rows[id].attempts == Bookings(s, id)
  }

  /** A snapshot that is up to date with the writes shows that the row is. */
  ghost predicate SnapshotTells(s: State, batch: seq<OutboxEvent>, id: string) {
    forall k :: 0 <= k < |batch| && batch[k].id == id && batch[k].attempts == Bookings(s, id) ==>
      id in s.rows && s.rows[id].attempts == Bookings(s, id)
  }

  ghost predicate CountersTell(s: State, id: string) {
    && CountersBooked(s)
    && RelaysKnown(s)
    && KeyedById(s.rows)
    && (id !in s.rows ==> Bookings(s, id) == 0)
    && (forall r :: r in s.relays && !s.relays[r].Idle? ==> SnapshotTells(s, s.relays[r].batch, id))
  }

  /** A write to the counter leaves every snapshot of the row behind; anything else changes neither. */
  lemma TellsStep(cluster: Cluster, s: State, a: Action, r: nat, id: string)
    requires Enabled(s, a) && CountersTell(s, id)
    requires r in Next(cluster, s, a).relays && !Next(cluster, s, a).relays[r].Idle?
    ensures SnapshotTells(Next(cluster, s, a), Next(cluster, s, a).relays[r].batch, id)
  {
    BatchStep(cluster, s, a, r);
    BookingsStep(cluster, s, a, id);
    if id in s.rows {
      CounterStep(cluster, s, a, id);
    }
    if a != Open(r, Next(cluster, s, a).relays[r].batch) {
      assert SnapshotTells(s, s.relays[r].batch, id) && SnapshotsBooked(s, s.relays[r].batch);
    }
  }

  lemma StepTells(cluster: Cluster, s: State, a: Action, id: string)
    requires Enabled(s, a) && CountersTell(s, id)
    ensures CountersTell(Next(cluster, s, a), id)
  {
    var s' := Next(cluster, s, a);
    StepCounters(cluster, s, a);
    StepRelays(cluster, s, a);
    StepKeyed(cluster, s, a);
    BookedIsKnown(cluster, s, a, id);
    forall r | r in s'.relays && !s'.relays[r].Idle? ensures SnapshotTells(s', s'.relays[r].batch, id) {
      TellsStep(cluster, s, a, r, id);
    }
  }

  lemma BookedIsKnown(cluster: Cluster, s: State, a: Action, id: string)
    requires Enabled(s, a) && RelaysKnown(s) && (id !in s.rows ==> Bookings(s, id) == 0)
    ensures id !in Next(cluster, s, a).rows ==> Bookings(Next(cluster, s, a), id) == 0
  {
    BookingsStep(cluster, s, a, id);
    StepGrows(cluster, s, a);
  }

  /** Exactness is lost by a stale success write, never otherwise, and never regained. */
  lemma ExactStep(cluster: Cluster, s: State, a: Action, id: string)
    requires Enabled(s, a) && CountersTell(s, id)
    ensures Exact(Next(cluster, s, a), id) <==> Exact(s, id) && !StaleMark(s, a, id)
  {
    BookingsStep(cluster, s, a, id);
    if id in s.rows {
      CounterStep(cluster, s, a, id);
      if a.Mark? {
        var relay := s.relays[a.relay];
        assert SnapshotTells(s, relay.batch, id) && SnapshotsBooked(s, relay.batch);
        assert relay.batch[relay.next] == Current(relay);
      }
    } else {
      BookedIsKnown(cluster, s, a, id);
    }
  }

  lemma {:induction false} RunTells(cluster: Cluster, s: State, actions: seq<Action>, id: string)
    requires IsRun(cluster, s, actions) && CountersTell(s, id)
    ensures Exact(Final(cluster, s, actions), id) <==> Exact(s, id) && !MarksStale(cluster, s, actions, id)
    decreases |actions|
  {
    if actions != [] {
      StepTells(cluster, s, actions[0], id);
      ExactStep(cluster, s, actions[0], id);
      RunTells(cluster, Next(cluster, s, actions[0]), actions[1..], id);
    }
  }

  /** Attempts accounting, exactly, for any number of relays: the counter is the number of writes to it
      that took effect if and only if no success write for the row took effect on a stale snapshot. */
  lemma AttemptsExact(cluster: Cluster, actions: seq<Action>, id: string)
    requires IsRun(cluster, INITIAL, actions) && id in Final(cluster, INITIAL, actions).rows
    ensures var s := Final(cluster, INITIAL, actions);
            s.rows[id].attempts == Bookings(s, id) <==> !MarksStale(cluster, INITIAL, actions, id)
  {
    RunTells(cluster, INITIAL, actions, id);
  }

  // ---- What the counter is ----

  /** By how much a success write falls behind counting up what the row holds. */
  function TakesBack(s: State, a: Action, id: string): int {
    if a.Mark? && a.write.Applied() && Busy(RelayOf(s, a.relay)) && Current(RelayOf(s, a.relay)).id == id
        && id in s.rows
    then s.rows[id].attempts - Current(RelayOf(s, a.relay)).attempts
    else 0
  }

  ghost function TakenBack(cluster: Cluster, s: State, actions: seq<Action>, id: string): int
    requires IsRun(cluster, s, actions)
    decreases |actions|
  {
    if actions == [] then 0
    else TakesBack(s, actions[0], id) + TakenBack(cluster, Next(cluster, s, actions[0]), actions[1..], id)
  }

  function CounterOf(s: State, id: string): nat {
    if id in s.rows then s.rows[id].attempts else 0
  }

  lemma CounterAccountStep(cluster: Cluster, s: State, a: Action, id: string)
    requires Enabled(s, a) && KeyedById(s.rows) && RelaysKnown(s)
    ensures var s' := Next(cluster, s, a);
            CounterOf(s', id) - Bookings(s', id) == CounterOf(s, id) - Bookings(s, id) - TakesBack(s, a, id)
  {
    BookingsStep(cluster, s, a, id);
    if id in s.rows {
      CounterStep(cluster, s, a, id);
    }
  }

  lemma {:induction false} RunCounterAccount(cluster: Cluster, s: State, actions: seq<Action>, id: string)
    requires IsRun(cluster, s, actions) && KeyedById(s.rows) && RelaysKnown(s)
    ensures var s' := Final(cluster, s, actions);
            CounterOf(s', id) - Bookings(s', id)
            == CounterOf(s, id) - Bookings(s, id) - TakenBack(cluster, s, actions, id)
    decreases |actions|
  {
    if actions != [] {
      CounterAccountStep(cluster, s, actions[0], id);
      StepKeyed(cluster, s, actions[0]);
      StepRelays(cluster, s, actions[0]);
      RunCounterAccount(cluster, Next(cluster, s, actions[0]), actions[1..], id);
    }
  }

  /** Attempts accounting in full, for any number of relays in every run: the counter is the number of
      publish calls made, plus the success writes whose reply was lost, less the calls dropped, those
      whose counting is still to come, and what stale success writes took back. So it stays within the
      publish calls if and only if the lost replies do not outweigh the rest. */
  lemma AttemptsBalance(cluster: Cluster, actions: seq<Action>, id: string)
    requires IsRun(cluster, INITIAL, actions) && id in Final(cluster, INITIAL, actions).rows
    ensures var s := Final(cluster, INITIAL, actions);
            var lost, dropped := LostMarkReplies(cluster, INITIAL, actions, id), DroppedCalls(cluster, INITIAL, actions,
                                                                                              id);
            var uncounted := dropped + |Pending(s, id)| + TakenBack(cluster, INITIAL, actions, id);
            && s.rows[id].attempts == Calls(s, id) + lost - uncounted
            && (s.rows[id].attempts <= Calls(s, id) <==> lost <= uncounted)
  {
    CallsAccounted(cluster, actions, id);
    RunCounterAccount(cluster, INITIAL, actions, id);
  }

  /** Without a stale success write nothing is taken back. */
  lemma {:induction false} FreshTakesNothing(cluster: Cluster, s: State, actions: seq<Action>, id: string)
    requires IsRun(cluster, s, actions) && !MarksStale(cluster, s, actions, id)
    ensures TakenBack(cluster, s, actions, id) == 0
    decreases |actions|
  {
    if actions != [] {
      FreshTakesNothing(cluster, Next(cluster, s, actions[0]), actions[1..], id);
    }
  }

  // ---- One relay ----

  predicate By(a: Action, r: nat) {
    a.Enqueue? || a.relay == r
  }

  /** All relay actions are those of process `r`. */
  predicate OnlyRelay(actions: seq<Action>, r: nat) {
    forall i :: 0 <= i < |actions| ==> By(actions[i], r)
  }

  ghost predicate OthersIdle(s: State, r: nat) {
    forall q :: q in s.relays && q != r ==> s.relays[q].Idle?
  }

  /** The events whose rows the batch has not yet written. */
  function Untouched(relay: Relay): nat {
    match relay
    case Idle => 0
    case Claiming(_) => 0
    case Publishing(_, next) => next
    case Marking(_, next) => next
    case Recording(_, next, _) => next + 1
    case Noting(_, next, _) => next + 1
  }

  ghost predicate CountersExact(s: State, r: nat) {
    && OthersIdle(s, r)
    && (forall id :: id in s.rows ==> s.rows[id].id == id && s.rows[id].attempts == Bookings(s, id))
    && (forall id :: id !in s.rows ==> Bookings(s, id) == 0)
    && (!RelayOf(s, r).Idle? ==> SnapshotsFresh(s.rows, s.relays[r].batch, Untouched(s.relays[r])))
  }

  ghost predicate SnapshotsFresh(rows: Table, batch: seq<OutboxEvent>, from: nat) {
    && DistinctIds(batch)
    && (forall k :: 0 <= k < |batch| ==> batch[k].id in rows)
    && (forall k :: from <= k < |batch| ==> batch[k].attempts == rows[batch[k].id].attempts)
  }

  lemma RowExactStep(cluster: Cluster, s: State, a: Action, r: nat, id: string)
    requires Enabled(s, a) && By(a, r) && CountersExact(s, r)
    ensures var s' := Next(cluster, s, a);
            && (id in s'.rows ==> s'.rows[id].id == id && s'.rows[id].attempts == Bookings(s', id))
            && (id !in s'.rows ==> Bookings(s', id) == 0)
  {
    BookingsStep(cluster, s, a, id);
    if id in s.rows {
      CounterStep(cluster, s, a, id);
    }
  }

  /** What the batch of relay `r` has not yet written only ever shrinks, by the event just written. */
  lemma UntouchedStep(cluster: Cluster, s: State, a: Action, r: nat)
    requires Enabled(s, a) && By(a, r) && !a.Open? && !RelayOf(Next(cluster, s, a), r).Idle?
    ensures var relay := Next(cluster, s, a).relays[r];
            && !RelayOf(s, r).Idle?
            && relay.batch == s.relays[r].batch
            && Untouched(s.relays[r]) <= Untouched(relay)
            && (a.Mark? || a.Increment? ==>
                  Untouched(relay) == s.relays[r].next + 1 && Current(s.relays[r]) == relay.batch[s.relays[r].next])
  {
  }

  lemma SnapshotsStayFresh(cluster: Cluster, s: State, a: Action, r: nat)
    requires Enabled(s, a) && By(a, r) && CountersExact(s, r) && !RelayOf(Next(cluster, s, a), r).Idle?
    ensures SnapshotsFresh(Next(cluster, s, a).rows, Next(cluster, s, a).relays[r].batch,
                           Untouched(Next(cluster, s, a).relays[r]))
  {
    if !a.Open? {
      UntouchedStep(cluster, s, a, r);
      var batch := s.relays[r].batch;
      forall k | 0 <= k < |batch| ensures batch[k].id in Next(cluster, s, a).rows {
      }
      forall k | Untouched(Next(cluster, s, a).relays[r]) <= k < |batch|
        ensures batch[k].attempts == Next(cluster, s, a).rows[batch[k].id].attempts
      {
        CounterStep(cluster, s, a, batch[k].id);
      }
    }
  }

  lemma StepExact(cluster: Cluster, s: State, a: Action, r: nat)
    requires Enabled(s, a) && By(a, r) && CountersExact(s, r)
    ensures CountersExact(Next(cluster, s, a), r)
  {
    var s' := Next(cluster, s, a);
    forall id
      ensures id in s'.rows ==> s'.rows[id].id == id && s'.rows[id].attempts == Bookings(s', id)
      ensures id !in s'.rows ==> Bookings(s', id) == 0
    {
      RowExactStep(cluster, s, a, r, id);
    }
    if !RelayOf(s', r).Idle? {
      SnapshotsStayFresh(cluster, s, a, r);
    }
  }

  lemma {:induction false} RunExact(cluster: Cluster, s: State, actions: seq<Action>, r: nat)
    requires IsRun(cluster, s, actions) && OnlyRelay(actions, r) && CountersExact(s, r)
    ensures CountersExact(Final(cluster, s, actions), r)
    decreases |actions|
  {
    if actions != [] {
      assert By(actions[0], r);
      StepExact(cluster, s, actions[0], r);
      assert OnlyRelay(actions[1..], r) by {
        forall i | 0 <= i < |actions[1..]| ensures By(actions[1..][i], r) {
          assert By(actions[i + 1], r);
        }
      }
      RunExact(cluster, Next(cluster, s, actions[0]), actions[1..], r);
    }
  }

  /** One relay never writes on a stale snapshot, whatever fails, crashes and restarts; so its counters
      are exact. */
  lemma OneRelayExact(cluster: Cluster, actions: seq<Action>, r: nat, id: string)
    requires IsRun(cluster, INITIAL, actions) && OnlyRelay(actions, r)
    requires id in Final(cluster, INITIAL, actions).rows
    ensures var s := Final(cluster, INITIAL, actions); s.rows[id].attempts == Bookings(s, id)
    ensures !MarksStale(cluster, INITIAL, actions, id) && TakenBack(cluster, INITIAL, actions, id) == 0
  {
    RunExact(cluster, INITIAL, actions, r);
    AttemptsExact(cluster, actions, id);
    FreshTakesNothing(cluster, INITIAL, actions, id);
  }
}
