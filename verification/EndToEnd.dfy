/** Relays and consumers together: from an enqueued row to the handler. */
module EndToEnd {
  import opened Wrappers
  import opened Sequences
  import opened Outbox
  import opened Kafka
  import opened RelaySafety
  import opened RelayOrder
  import opened ConsumerProgress
  import R = RelaySystem
  import C = ConsumerSystem
  import RelayAttempts

  datatype State = State(relay: R.State, consumer: C.State)

  datatype Action = Produce(relay: R.Action) | Consume(consumer: C.Action)

  const INITIAL: State := State(R.INITIAL, C.INITIAL)

  ghost predicate Enabled(s: State, a: Action) {
    match a
    case Produce(b) => R.Enabled(s.relay, b)
    case Consume(b) => C.Enabled(s.relay.logs, s.consumer, b)
  }

  ghost function Next(cluster: Cluster, s: State, a: Action): State
    requires Enabled(s, a)
  {
    match a
    case Produce(b) => s.(relay := R.Next(cluster, s.relay, b))
    case Consume(b) => s.(consumer := C.Next(s.relay.logs, s.consumer, b))
  }

  ghost predicate IsRun(cluster: Cluster, s: State, actions: seq<Action>)
    decreases |actions|
  {
    actions == [] ||
    (Enabled(s, actions[0]) && IsRun(cluster, Next(cluster, s, actions[0]), actions[1..]))
  }

  ghost function Final(cluster: Cluster, s: State, actions: seq<Action>): State
    requires IsRun(cluster, s, actions)
    decreases |actions|
  {
    if actions == [] then s else Final(cluster, Next(cluster, s, actions[0]), actions[1..])
  }

  // ---- What the relay guarantees about the logs ----

  /** The consumer reads each record as the event with the given key, or refuses it. */
  ghost predicate ReadsAs(log: seq<Record>, ids: seq<string>) {
    |log| == |ids| &&
    forall k :: 0 <= k < |log| ==>
      Read(log[k].value).Reject? || (Read(log[k].value).Accept? && Read(log[k].value).id == ids[k])
  }

  lemma LogReads(rows: Table, log: seq<Record>, ids: seq<string>)
    requires KeyedById(rows) && LogMatches(rows, log, ids)
    ensures ReadsAs(log, ids)
  {
    forall k | 0 <= k < |log|
      ensures Read(log[k].value).Reject? || (Read(log[k].value).Accept? && Read(log[k].value).id == ids[k])
    {
      EnvelopeAccepted(rows[ids[k]]);
    }
  }

  /** Up to the first record that is refused, the accepted ids are the published rows' keys. */
  lemma {:induction false} AcceptedAreAppended(log: seq<Record>, ids: seq<string>, n: nat)
    requires ReadsAs(log, ids) && n <= |log|
    ensures forall id :: id in C.AcceptedIds(log[..n]) ==> id in ids[..n]
    ensures (forall k :: 0 <= k < n ==> !Read(log[k].value).Reject?) ==> C.AcceptedIds(log[..n]) == ids[..n]
  {
    if n > 0 {
      AcceptedAreAppended(log, ids, n - 1);
      C.LogStep(log, n - 1);
      assert ids[..n] == ids[..n - 1] + [ids[n - 1]];
    }
  }

  /** Each row is published to one partition only. */
  lemma LogsHomed(cluster: Cluster, s: R.State)
    requires Inv(cluster, s)
    ensures C.Homed(s.logs)
  {
    forall p, q, id | id in C.AcceptedIds(LogOf(s.logs, p)) && id in C.AcceptedIds(LogOf(s.logs, q)) ensures p == q {
      AcceptedRouted(cluster, s, p, id);
      AcceptedRouted(cluster, s, q, id);
    }
  }

  lemma AcceptedRouted(cluster: Cluster, s: R.State, p: Partition, id: string)
    requires Inv(cluster, s) && id in C.AcceptedIds(LogOf(s.logs, p))
    ensures id in s.rows && Route(cluster, s.rows[id]) == p
  {
    var log, ids := LogOf(s.logs, p), AppendedIds(cluster, s.rows, s.history, p);
    assert LogMatches(s.rows, log, ids);
    LogReads(s.rows, log, ids);
    AcceptedAreAppended(log, ids, |log|);
    assert log[..|log|] == log && ids[..|log|] == ids;
    AppendedIdsRouted(cluster, s.rows, s.history, p);
  }

  // ---- The combined invariant ----

  ghost predicate SystemInv(cluster: Cluster, s: State) {
    Inv(cluster, s.relay) && ConsumerInv(s.relay.logs, s.consumer)
  }

  ghost predicate ConsumerInv(logs: Logs, s: C.State) {
    && C.Inv(logs, s)
    && C.NotYetEntered(s)
    && (forall id :: C.Accounted(s, id))
    && (s.gaps == [] ==> forall p :: C.OnceOn(logs, s, p))
  }

  lemma ConsumerGrowth(logs: Logs, logs': Logs, s: C.State)
    requires ConsumerInv(logs, s) && Extends(logs, logs')
    ensures ConsumerInv(logs', s)
  {
    C.GrowthKeeps(logs, logs', s);
    forall p | s.gaps == [] ensures C.OnceOn(logs', s, p) {
      C.GrowthOnce(logs, logs', s, p);
    }
  }

  lemma GapsStay(logs: Logs, s: C.State, b: C.Action)
    requires C.Enabled(logs, s, b)
    ensures s.gaps <= C.Next(logs, s, b).gaps
  {
  }

  lemma ConsumerStep(logs: Logs, s: C.State, b: C.Action)
    requires ConsumerInv(logs, s) && C.Homed(logs) && C.Enabled(logs, s, b)
    ensures ConsumerInv(logs, C.Next(logs, s, b))
  {
    C.StepKeeps(logs, s, b);
    C.StepNotYetEntered(logs, s, b);
    forall id ensures C.Accounted(C.Next(logs, s, b), id) {
      C.StepAccounted(logs, s, b, id);
    }
    GapsStay(logs, s, b);
    if C.Next(logs, s, b).gaps == [] {
      forall p ensures C.OnceOn(logs, C.Next(logs, s, b), p) {
        C.StepOnce(logs, s, b, p);
      }
    }
  }

  lemma LogsExtend(cluster: Cluster, s: R.State, b: R.Action)
    requires R.Enabled(s, b)
    ensures Extends(s.logs, R.Next(cluster, s, b).logs)
  {
  }

  lemma InitialKeeps(cluster: Cluster)
    ensures SystemInv(cluster, INITIAL)
  {
    forall p ensures C.OnceOn(map[], C.INITIAL, p) {
    }
  }

  lemma StepKeepsSystem(cluster: Cluster, s: State, a: Action)
    requires Enabled(s, a) && SystemInv(cluster, s)
    ensures SystemInv(cluster, Next(cluster, s, a))
  {
    match a
    case Produce(b) =>
      StepKeeps(cluster, s.relay, b);
      LogsExtend(cluster, s.relay, b);
      ConsumerGrowth(s.relay.logs, R.Next(cluster, s.relay, b).logs, s.consumer);
    case Consume(b) =>
      LogsHomed(cluster, s.relay);
      ConsumerStep(s.relay.logs, s.consumer, b);
  }

  lemma {:induction false} RunKeeps(cluster: Cluster, s: State, actions: seq<Action>)
    requires IsRun(cluster, s, actions) && SystemInv(cluster, s)
    ensures SystemInv(cluster, Final(cluster, s, actions))
    decreases |actions|
  {
    if actions != [] {
      StepKeepsSystem(cluster, s, actions[0]);
      RunKeeps(cluster, Next(cluster, s, actions[0]), actions[1..]);
    }
  }

  lemma Reachable(cluster: Cluster, actions: seq<Action>)
    requires IsRun(cluster, INITIAL, actions)
    ensures SystemInv(cluster, Final(cluster, INITIAL, actions))
  {
    InitialKeeps(cluster);
    RunKeeps(cluster, INITIAL, actions);
  }

  // ---- Main results ----

  /** Between two messages, partition `p` is settled to its end. */
  predicate Drained(s: State, p: Partition) {
    var c := C.CursorOf(s.consumer, p);
    c.phase.Ready? && c.settled == |LogOf(s.relay.logs, p)|
  }

  /** Handled exactly once. However many duplicate records any number of relays append and however
      the partitions interleave, crash and are redelivered: if no failure falls between a handler
      call and its ledger entry, the completed handler calls on a partition are the keys of its
      settled records with every repetition removed, plus the call whose entry is under way. */
  lemma HandledExactlyOnce(cluster: Cluster, actions: seq<Action>, p: Partition)
    requires IsRun(cluster, INITIAL, actions)
    requires Final(cluster, INITIAL, actions).consumer.gaps == []
    ensures var s := Final(cluster, INITIAL, actions);
            var c := C.CursorOf(s.consumer, p);
            var ids := AppendedIds(cluster, s.relay.rows, s.relay.history, p);
            && c.settled <= |ids| == |LogOf(s.relay.logs, p)|
            && C.CallsOn(s.consumer.calls, p)
               == FirstOccurrences(ids[..c.settled]) + (if c.phase.Inserting? then [c.phase.id] else [])
            && (Drained(s, p) ==> C.CallsOn(s.consumer.calls, p) == FirstOccurrences(ids))
  {
    Reachable(cluster, actions);
    var s := Final(cluster, INITIAL, actions);
    SettledAreAppended(cluster, s, p);
    assert C.OnceOn(s.relay.logs, s.consumer, p);
    var ids := AppendedIds(cluster, s.relay.rows, s.relay.history, p);
    assert LogMatches(s.relay.rows, LogOf(s.relay.logs, p), ids);
    assert ids[..|ids|] == ids;
  }

  /** Hence nothing is reordered: the handler calls sit at increasing places in the log, each at the first
      record of its event. */
  lemma HandledInLogOrder(cluster: Cluster, actions: seq<Action>, p: Partition) returns (at: seq<nat>)
    requires IsRun(cluster, INITIAL, actions)
    requires Final(cluster, INITIAL, actions).consumer.gaps == []
    requires !C.CursorOf(Final(cluster, INITIAL, actions).consumer, p).phase.Inserting?
    ensures var s := Final(cluster, INITIAL, actions);
            var ids := AppendedIds(cluster, s.relay.rows, s.relay.history, p);
            && |at| == |C.CallsOn(s.consumer.calls, p)|
            && (forall k :: 0 <= k < |at| ==>
                  at[k] < |ids| && ids[at[k]] == C.CallsOn(s.consumer.calls, p)[k] && IsFirst(ids, at[k]))
            && (forall k, m :: 0 <= k < m < |at| ==> at[k] < at[m])
  {
    HandledExactlyOnce(cluster, actions, p);
    var s := Final(cluster, INITIAL, actions);
    var ids := AppendedIds(cluster, s.relay.rows, s.relay.history, p);
    var settled := ids[..C.CursorOf(s.consumer, p).settled];
    at := FirstOccurrencesOrder(settled);
    assert FirstOccurrences(settled) + [] == FirstOccurrences(settled);
    forall k | 0 <= k < |at| ensures IsFirst(ids, at[k]) {
      assert IsFirst(settled, at[k]);
      assert ids[..at[k]] == settled[..at[k]];
    }
  }

  lemma SettledAreAppended(cluster: Cluster, s: State, p: Partition)
    requires SystemInv(cluster, s)
    ensures var settled := C.CursorOf(s.consumer, p).settled;
            var ids := AppendedIds(cluster, s.relay.rows, s.relay.history, p);
            && settled <= |ids| == |LogOf(s.relay.logs, p)|
            && C.AcceptedIds(LogOf(s.relay.logs, p)[..settled]) == ids[..settled]
            && (forall id :: id in ids[..settled] ==> id in s.consumer.ledger)
  {
    var c, log := C.CursorOf(s.consumer, p), LogOf(s.relay.logs, p);
    assert C.CursorValid(log, s.consumer.ledger, c);
    var ids := AppendedIds(cluster, s.relay.rows, s.relay.history, p);
    assert LogMatches(s.relay.rows, log, ids);
    LogReads(s.relay.rows, log, ids);
    AcceptedAreAppended(log, ids, c.settled);
    C.SettledInLedger(log, s.consumer.ledger, c.settled);
  }

  /** Handler-call accounting, in every reachable state, for every id: completed handler calls are
      one for the ledger entry, one per failure in the gap, one per entry under way. */
  lemma HandlerCallsAccounted(cluster: Cluster, actions: seq<Action>, id: string)
    requires IsRun(cluster, INITIAL, actions)
    ensures var s := Final(cluster, INITIAL, actions).consumer;
            C.CallCount(s, id) == (if id in s.ledger then 1 else 0) + C.GapCount(s, id) + |C.Waiting(s.cursors, id)|
  {
    Reachable(cluster, actions);
    assert C.Accounted(Final(cluster, INITIAL, actions).consumer, id);
  }

  /** Offset safety: every record below a committed offset is one to ignore or has its id in the
      ledger, and every ledger entry stems from a completed handler call. */
  lemma OffsetSafety(cluster: Cluster, actions: seq<Action>)
    requires IsRun(cluster, INITIAL, actions)
    ensures var s := Final(cluster, INITIAL, actions);
            && (forall p :: C.SettledBelow(LogOf(s.relay.logs, p), s.consumer.ledger,
                                           C.CursorOf(s.consumer, p).committed))
            && (forall id :: id in s.consumer.ledger ==> exists p :: C.Call(p, id) in s.consumer.calls)
  {
    Reachable(cluster, actions);
    var s := Final(cluster, INITIAL, actions);
    forall p ensures C.SettledBelow(LogOf(s.relay.logs, p), s.consumer.ledger, C.CursorOf(s.consumer, p).committed) {
      assert C.CursorValid(LogOf(s.relay.logs, p), s.consumer.ledger, C.CursorOf(s.consumer, p));
    }
    forall id | id in s.consumer.ledger ensures exists p :: C.Call(p, id) in s.consumer.calls {
      var p :| C.EntryTraced(s.relay.logs, s.consumer, id, p);
    }
  }

  /** In the ledger, and handled once plus once for each failure in the gap. */
  ghost predicate Handled(s: C.State, id: string) {
    id in s.ledger && C.CallCount(s, id) == 1 + C.GapCount(s, id)
  }

  lemma DrainedIsHandled(cluster: Cluster, s: State, id: string)
    requires SystemInv(cluster, s) && id in s.relay.rows && s.relay.rows[id].publishedAt.Some?
    requires Drained(s, Route(cluster, s.relay.rows[id]))
    ensures Handled(s.consumer, id)
  {
    var home := Route(cluster, s.relay.rows[id]);
    PublishedInLedger(cluster, s, id);
    assert C.Accounted(s.consumer, id);
    forall p | p in C.Waiting(s.consumer.cursors, id) ensures p == home {
      WaitsAtHome(cluster, s, p, id);
    }
    assert C.Waiting(s.consumer.cursors, id) == {};
  }

  /** From row to handler: once the partition of a published row is drained, its event has been
      handled, at least once in any case, and exactly once if and only if no failure fell in the gap. */
  lemma PublishedIsHandled(cluster: Cluster, actions: seq<Action>, id: string)
    requires IsRun(cluster, INITIAL, actions)
    requires var s := Final(cluster, INITIAL, actions);
             && id in s.relay.rows && s.relay.rows[id].publishedAt.Some?
             && Drained(s, Route(cluster, s.relay.rows[id]))
    ensures Handled(Final(cluster, INITIAL, actions).consumer, id)
  {
    Reachable(cluster, actions);
    DrainedIsHandled(cluster, Final(cluster, INITIAL, actions), id);
  }

  lemma PublishedAppended(cluster: Cluster, s: R.State, id: string)
    requires Inv(cluster, s) && id in s.rows && s.rows[id].publishedAt.Some?
    ensures id in AppendedIds(cluster, s.rows, s.history, Route(cluster, s.rows[id]))
  {
    assert Recorded(s.history, id);
    RecordedInLog(cluster, s.rows, s.history, id);
  }

  lemma DrainedInLedger(cluster: Cluster, s: State, p: Partition)
    requires SystemInv(cluster, s) && Drained(s, p)
    ensures forall id :: id in AppendedIds(cluster, s.relay.rows, s.relay.history, p) ==> id in s.consumer.ledger
  {
    SettledAreAppended(cluster, s, p);
    var ids := AppendedIds(cluster, s.relay.rows, s.relay.history, p);
    assert ids[..|ids|] == ids;
  }

  lemma PublishedInLedger(cluster: Cluster, s: State, id: string)
    requires SystemInv(cluster, s) && id in s.relay.rows && s.relay.rows[id].publishedAt.Some?
    requires Drained(s, Route(cluster, s.relay.rows[id]))
    ensures id in s.consumer.ledger
  {
    PublishedAppended(cluster, s.relay, id);
    DrainedInLedger(cluster, s, Route(cluster, s.relay.rows[id]));
  }

  lemma WaitsAtHome(cluster: Cluster, s: State, p: Partition, id: string)
    requires SystemInv(cluster, s) && p in C.Waiting(s.consumer.cursors, id)
    ensures id in s.relay.rows && Route(cluster, s.relay.rows[id]) == p
  {
    assert C.CursorOf(s.consumer, p) == s.consumer.cursors[p];
    C.PhaseInLog(s.relay.logs, s.consumer, p);
    AcceptedRouted(cluster, s.relay, p, id);
  }

  // ---- Progress ----

  /** The consumer refuses exactly the records of rows without an event type. */
  lemma RejectsUntyped(cluster: Cluster, s: R.State, p: Partition)
    requires Inv(cluster, s)
    ensures var log, ids := LogOf(s.logs, p), AppendedIds(cluster, s.rows, s.history, p);
            && |log| == |ids|
            && forall k :: 0 <= k < |log| ==>
                 ids[k] in s.rows && (Read(log[k].value).Reject? <==> s.rows[ids[k]].eventType == "")
  {
    var log, ids := LogOf(s.logs, p), AppendedIds(cluster, s.rows, s.history, p);
    assert LogMatches(s.rows, log, ids);
    forall k | 0 <= k < |log| ensures Read(log[k].value).Reject? <==> s.rows[ids[k]].eventType == "" {
      EnvelopeAccepted(s.rows[ids[k]]);
    }
  }

  /** Deliveries consume the log of `p` to its end if and only if all rows published there from the
      current position on have an event type. */
  ghost predicate ConsumedIffTyped(cluster: Cluster, s: State, p: Partition, group: string, outcomes: seq<Outcome>)
    requires C.CursorOf(s.consumer, p).phase.Ready?
  {
    var ids := AppendedIds(cluster, s.relay.rows, s.relay.history, p);
    && |ids| == |LogOf(s.relay.logs, p)|
    && (C.CursorOf(DeliverAll(s.relay.logs, s.consumer, p, group, outcomes), p).position == |ids| <==>
        forall k :: C.CursorOf(s.consumer, p).position <= k < |ids| ==>
          ids[k] in s.relay.rows && s.relay.rows[ids[k]].eventType != "")
  }

  lemma ConsumedIn(cluster: Cluster, s: State, p: Partition, group: string, outcomes: seq<Outcome>)
    requires SystemInv(cluster, s) && C.CursorOf(s.consumer, p).phase.Ready?
    requires Successes(outcomes) >= |LogOf(s.relay.logs, p)| - C.CursorOf(s.consumer, p).position
    ensures ConsumedIffTyped(cluster, s, p, group, outcomes)
  {
    C.CursorInLog(s.relay.logs, s.consumer, p);
    RejectsUntyped(cluster, s.relay, p);
    DeliveriesFinish(s.relay.logs, s.consumer, p, group, outcomes);
  }

  /** Relay records never block a partition unless an event type is empty: from every reachable state
      with the partition between two messages, as many successful deliveries as records are left
      consume the log to its end if and only if no row left has an empty type. */
  lemma ConsumedToTheEnd(cluster: Cluster, actions: seq<Action>, p: Partition, group: string, outcomes: seq<Outcome>)
    requires IsRun(cluster, INITIAL, actions)
    requires C.CursorOf(Final(cluster, INITIAL, actions).consumer, p).phase.Ready?
    requires Successes(outcomes) >= |LogOf(Final(cluster, INITIAL, actions).relay.logs, p)|
                                    - C.CursorOf(Final(cluster, INITIAL, actions).consumer, p).position
    ensures ConsumedIffTyped(cluster, Final(cluster, INITIAL, actions), p, group, outcomes)
  {
    Reachable(cluster, actions);
    ConsumedIn(cluster, Final(cluster, INITIAL, actions), p, group, outcomes);
  }

  // ---- Progress in any interleaving ----

  /** Records of `p` for which no look-up has succeeded or is under way. */
  function Outstanding(s: State, p: Partition): int {
    |LogOf(s.relay.logs, p)| - Reached(C.CursorOf(s.consumer, p))
  }

  /** Records that have come to `p` since. */
  function Growth(s: State, s': State, p: Partition): int {
    |LogOf(s'.relay.logs, p)| - |LogOf(s.relay.logs, p)|
  }

  function LooksIn(actions: seq<Action>, p: Partition): nat {
    if actions == [] then 0
    else (if actions[0] == Consume(C.Look(p)) then 1 else 0) + LooksIn(actions[1..], p)
  }

  /** What failures and restarts of `p` throw back during a run. */
  ghost function SetbacksIn(cluster: Cluster, s: State, actions: seq<Action>, p: Partition): int
    requires IsRun(cluster, s, actions)
    decreases |actions|
  {
    if actions == [] then 0
    else
      (if actions[0].Consume? then Setback(s.relay.logs, s.consumer, actions[0].consumer, p) else 0)
      + SetbacksIn(cluster, Next(cluster, s, actions[0]), actions[1..], p)
  }

  lemma RemainingStep(cluster: Cluster, s: State, a: Action, p: Partition)
    requires Enabled(s, a)
    ensures var s' := Next(cluster, s, a);
            var thrownBack := if a.Consume? then Setback(s.relay.logs, s.consumer, a.consumer, p) else 0;
            Outstanding(s', p) + LooksIn([a], p) == Outstanding(s, p) + Growth(s, s', p) + thrownBack
  {
    if a.Consume? {
      ReachedStep(s.relay.logs, s.consumer, a.consumer, p);
    }
    assert LooksIn([a][1..], p) == 0;
  }

  /** Progress in any interleaving with relays, other partitions, failures and restarts, the records
      remaining being the measure: each look-up takes one off, and only new records and setbacks of
      this very partition add to it. */
  lemma {:induction false} Progress(cluster: Cluster, s: State, actions: seq<Action>, p: Partition)
    requires IsRun(cluster, s, actions)
    ensures var s' := Final(cluster, s, actions);
            Outstanding(s', p) + LooksIn(actions, p)
            == Outstanding(s, p) + Growth(s, s', p) + SetbacksIn(cluster, s, actions, p)
    decreases |actions|
  {
    if actions != [] {
      RemainingStep(cluster, s, actions[0], p);
      Progress(cluster, Next(cluster, s, actions[0]), actions[1..], p);
      assert [actions[0]][1..] == [];
    }
  }

  /** No handler call or ledger insert fails on `p`, and it is not restarted. */
  predicate Undisturbed(actions: seq<Action>, p: Partition) {
    forall i :: 0 <= i < |actions| && actions[i].Consume? && actions[i].consumer.partition == p ==>
      match actions[i].consumer
      case Handle(_, ok) => ok
      case Insert(_, write, _) => write.Written?
      case Restart(_) => false
      case _ => true
  }

  ghost predicate AllTyped(rows: Table) {
    forall id :: id in rows ==> rows[id].eventType != ""
  }

  lemma UndisturbedTail(actions: seq<Action>, p: Partition)
    requires actions != [] && Undisturbed(actions, p)
    ensures Undisturbed([actions[0]], p) && Undisturbed(actions[1..], p)
  {
    forall i | 0 <= i < |actions[1..]| ensures actions[1..][i] == actions[i + 1] {
    }
  }

  /** The next record on `p` is readable, and an event being entered is not in the ledger. */
  lemma NoSetback(cluster: Cluster, s: State, b: C.Action, p: Partition)
    requires SystemInv(cluster, s) && AllTyped(s.relay.rows) && C.Enabled(s.relay.logs, s.consumer, b)
    requires Undisturbed([Consume(b)], p)
    ensures Setback(s.relay.logs, s.consumer, b, p) == 0
  {
    assert [Consume(b)][0].Consume?;
    RejectsUntyped(cluster, s.relay, p);
  }

  lemma RowsGrow(cluster: Cluster, s: State, actions: seq<Action>)
    requires IsRun(cluster, s, actions) && SystemInv(cluster, s)
    ensures Grows(s.relay.rows, Final(cluster, s, actions).relay.rows)
  {
    ProducedRun(cluster, s, actions);
    RelaySafety.RunKeeps(cluster, s.relay, Produced(actions));
  }

  lemma TypedBefore(rows: Table, rows': Table)
    requires Grows(rows, rows') && AllTyped(rows')
    ensures AllTyped(rows)
  {
    forall id | id in rows ensures rows[id].eventType != "" {
      assert AsEnqueued(rows'[id]).eventType == AsEnqueued(rows[id]).eventType;
    }
  }

  lemma {:induction false} NoSetbacks(cluster: Cluster, s: State, actions: seq<Action>, p: Partition)
    requires IsRun(cluster, s, actions) && SystemInv(cluster, s) && Undisturbed(actions, p)
    requires AllTyped(Final(cluster, s, actions).relay.rows)
    ensures SetbacksIn(cluster, s, actions, p) == 0
    decreases |actions|
  {
    if actions != [] {
      UndisturbedTail(actions, p);
      RowsGrow(cluster, s, actions);
      TypedBefore(s.relay.rows, Final(cluster, s, actions).relay.rows);
      if actions[0].Consume? {
        NoSetback(cluster, s, actions[0].consumer, p);
      }
      StepKeepsSystem(cluster, s, actions[0]);
      NoSetbacks(cluster, Next(cluster, s, actions[0]), actions[1..], p);
    }
  }

  /** Hence with typed events, from any reachable state and in any interleaving in which nothing fails
      on `p`, every look-up of `p` takes one record off, whatever happens elsewhere. */
  lemma UndisturbedProgress(cluster: Cluster, before: seq<Action>, actions: seq<Action>, p: Partition)
    requires IsRun(cluster, INITIAL, before) && IsRun(cluster, Final(cluster, INITIAL, before), actions)
    requires Undisturbed(actions, p)
    requires AllTyped(Final(cluster, Final(cluster, INITIAL, before), actions).relay.rows)
    ensures var s := Final(cluster, INITIAL, before);
            var s' := Final(cluster, s, actions);
            Outstanding(s', p) + LooksIn(actions, p) == Outstanding(s, p) + Growth(s, s', p)
  {
    Reachable(cluster, before);
    Progress(cluster, Final(cluster, INITIAL, before), actions, p);
    NoSetbacks(cluster, Final(cluster, INITIAL, before), actions, p);
  }

  // ---- Order, through to the handler ----

  function Produced(actions: seq<Action>): seq<R.Action> {
    if actions == [] then []
    else (if actions[0].Produce? then [actions[0].relay] else []) + Produced(actions[1..])
  }

  /** The relay part of a run is a run of the relays alone. */
  lemma {:induction false} ProducedRun(cluster: Cluster, s: State, actions: seq<Action>)
    requires IsRun(cluster, s, actions)
    ensures R.IsRun(cluster, s.relay, Produced(actions))
    ensures R.Final(cluster, s.relay, Produced(actions)) == Final(cluster, s, actions).relay
    decreases |actions|
  {
    if actions != [] {
      ProducedRun(cluster, Next(cluster, s, actions[0]), actions[1..]);
      if actions[0].Produce? {
        assert Produced(actions)[1..] == Produced(actions[1..]);
      } else {
        assert Produced(actions) == Produced(actions[1..]);
      }
    }
  }

  lemma {:induction false} FirstOccurrencesPrefix(ids: seq<string>, n: nat)
    requires n <= |ids|
    ensures FirstOccurrences(ids[..n]) <= FirstOccurrences(ids)
  {
    if n < |ids| {
      assert ids[..|ids| - 1][..n] == ids[..n];
      FirstOccurrencesPrefix(ids[..|ids| - 1], n);
    } else {
      assert ids[..n] == ids;
    }
  }

  /** One relay, rows enqueued in order of time, no publish call and no gap fails: between messages,
      the handler has been called on each partition in order of `occurredAt`, whatever row writes
      failed and whichever process crashed. */
  lemma HandledInOrder(cluster: Cluster, actions: seq<Action>, r: nat, p: Partition)
    requires IsRun(cluster, INITIAL, actions)
    requires RelayAttempts.OnlyRelay(Produced(actions), r) && EnqueuesInOrder(map[], Produced(actions))
    requires var s := Final(cluster, INITIAL, actions);
             AllAppended(s.relay.history) && s.consumer.gaps == [] && !C.CursorOf(s.consumer, p).phase.Inserting?
    ensures var s := Final(cluster, INITIAL, actions);
            OldestFirst(s.relay.rows, C.CallsOn(s.consumer.calls, p))
  {
    ProducedRun(cluster, INITIAL, actions);
    FailureFreeOrder(cluster, Produced(actions), r, p);
    HandledExactlyOnce(cluster, actions, p);
    var s := Final(cluster, INITIAL, actions);
    var ids := AppendedIds(cluster, s.relay.rows, s.relay.history, p);
    FirstOccurrencesPrefix(ids, C.CursorOf(s.consumer, p).settled);
  }
}
