/** From a row in the backlog to its handler, with a bound on the work it takes. */
module Delivery {
  import opened Wrappers
  import opened Sets
  import opened Outbox
  import opened Kafka
  import opened RelayService
  import opened RelaySafety
  import opened Draining
  import opened ConsumerProgress
  import opened EndToEnd
  import R = RelaySystem
  import C = ConsumerSystem
  import RelayRefinement

  lemma {:induction false} RunConcat(cluster: Cluster, s: State, first: seq<Action>, second: seq<Action>)
    requires IsRun(cluster, s, first) && IsRun(cluster, Final(cluster, s, first), second)
    ensures IsRun(cluster, s, first + second)
    ensures Final(cluster, s, first + second) == Final(cluster, Final(cluster, s, first), second)
    decreases |first|
  {
    if first == [] {
      assert first + second == second;
    } else {
      assert (first + second)[1..] == first[1..] + second;
      RunConcat(cluster, Next(cluster, s, first[0]), first[1..], second);
    }
  }

  lemma OneStep(cluster: Cluster, s: State, a: Action)
    requires Enabled(s, a)
    ensures IsRun(cluster, s, [a]) && Final(cluster, s, [a]) == Next(cluster, s, a)
  {
    assert [a][1..] == [];
    assert Final(cluster, Next(cluster, s, a), []) == Next(cluster, s, a);
  }

  // ---- Rounds of one relay, as runs ----

  /** Relay `r` stands between two batches, with the tables of `st`, and no claim is open. */
  ghost predicate Between(s: R.State, r: nat, st: Progress) {
    s.rows == st.rows && s.logs == st.logs && R.RelayOf(s, r).Idle? && RelayRefinement.NoOpenClaim(s)
  }

  /** The call that enqueues a given pristine row. */
  function InputOf(row: OutboxEvent): EnqueueEventInput {
    EnqueueEventInput(row.aggregateType, row.aggregateId, row.eventType, Some(row.eventVersion), row.payload,
                      Some(row.metadata))
  }

  lemma {:induction false} ArrivalsAreRun(cluster: Cluster, s: R.State, arrivals: Table)
    returns (actions: seq<R.Action>)
    requires Arrivals(s.rows, arrivals)
    ensures R.IsRun(cluster, s, actions)
    ensures R.Final(cluster, s, actions) == s.(rows := arrivals + s.rows)
    ensures RelayRefinement.Opens(actions) == 0
    decreases arrivals.Keys
  {
    if arrivals == map[] {
      actions := [];
      assert arrivals + s.rows == s.rows;
    } else {
      var id :| id in arrivals;
      var first := R.Enqueue(id, InputOf(arrivals[id]), arrivals[id].occurredAt);
      ArrivalEnqueued(cluster, s, arrivals, id);
      var rest := ArrivalsAreRun(cluster, R.Next(cluster, s, first), arrivals - {id});
      actions := [first] + rest;
      assert actions[1..] == rest;
    }
  }

  lemma ArrivalEnqueued(cluster: Cluster, s: R.State, arrivals: Table, id: string)
    requires Arrivals(s.rows, arrivals) && id in arrivals
    ensures var first := R.Enqueue(id, InputOf(arrivals[id]), arrivals[id].occurredAt);
            && R.Enabled(s, first)
            && R.Next(cluster, s, first) == s.(rows := s.rows[id := arrivals[id]])
            && Arrivals(s.rows[id := arrivals[id]], arrivals - {id})
            && (arrivals - {id}) + s.rows[id := arrivals[id]] == arrivals + s.rows
  {
    assert arrivals[id] == AsEnqueued(arrivals[id]);
  }

  lemma RoundIsRun(cluster: Cluster, s: R.State, r: nat, st: Progress, round: Round, bad: set<string>)
    returns (actions: seq<R.Action>)
    requires Between(s, r, st) && IsPoisonedRound(st, round, bad)
    ensures R.IsRun(cluster, s, actions) && RelayRefinement.Opens(actions) == 1
    ensures Between(R.Final(cluster, s, actions), r, AfterRound(cluster, st, round))
  {
    var here := Arrive(st, round.arrivals);
    var first := ArrivalsAreRun(cluster, s, round.arrivals);
    var s1 := R.Final(cluster, s, first);
    var rest := RelayRefinement.BatchIsRun(cluster, s1, r, st.connected, round.events, round.fates);
    RelayRefinement.RunConcat(cluster, s, first, rest);
    RelayRefinement.OpensConcat(first, rest);
    actions := first + rest;
    assert here.(published := 0, threw := false) == Progress(s1.rows, s1.logs, st.connected, 0, false);
  }

  lemma {:induction false} RoundsAreRun(cluster: Cluster, s: R.State, r: nat, st: Progress, rounds: seq<Round>,
                                        bad: set<string>)
    returns (actions: seq<R.Action>)
    requires Between(s, r, st) && IsPoisonedRun(cluster, st, rounds, bad)
    ensures R.IsRun(cluster, s, actions) && RelayRefinement.Opens(actions) == |rounds|
    ensures Between(R.Final(cluster, s, actions), r, AfterRounds(cluster, st, rounds))
    decreases |rounds|
  {
    if rounds == [] {
      actions := [];
    } else {
      var first := RoundIsRun(cluster, s, r, st, rounds[0], bad);
      var st1 := AfterRound(cluster, st, rounds[0]);
      var rest := RoundsAreRun(cluster, R.Final(cluster, s, first), r, st1, rounds[1..], bad);
      RelayRefinement.RunConcat(cluster, s, first, rest);
      RelayRefinement.OpensConcat(first, rest);
      actions := first + rest;
    }
  }

  function Lifted(actions: seq<R.Action>): seq<Action> {
    if actions == [] then [] else [Produce(actions[0])] + Lifted(actions[1..])
  }

  lemma {:induction false} LiftedRun(cluster: Cluster, s: State, actions: seq<R.Action>)
    requires R.IsRun(cluster, s.relay, actions)
    ensures IsRun(cluster, s, Lifted(actions))
    ensures Final(cluster, s, Lifted(actions)) == s.(relay := R.Final(cluster, s.relay, actions))
    ensures Produced(Lifted(actions)) == actions
    decreases |actions|
  {
    if actions != [] {
      LiftedRun(cluster, Next(cluster, s, Produce(actions[0])), actions[1..]);
      assert Lifted(actions)[1..] == Lifted(actions[1..]);
    }
  }

  // ---- Deliveries, as runs ----

  lemma {:induction false} ProducedConcat(first: seq<Action>, second: seq<Action>)
    ensures Produced(first + second) == Produced(first) + Produced(second)
    decreases |first|
  {
    if first == [] {
      assert first + second == second;
    } else {
      assert (first + second)[1..] == first[1..] + second;
      ProducedConcat(first[1..], second);
    }
  }

  lemma {:induction false} LooksConcat(first: seq<Action>, second: seq<Action>, p: Partition)
    ensures LooksIn(first + second, p) == LooksIn(first, p) + LooksIn(second, p)
    decreases |first|
  {
    if first == [] {
      assert first + second == second;
    } else {
      assert (first + second)[1..] == first[1..] + second;
      LooksConcat(first[1..], second, p);
    }
  }

  lemma CountsConcat(first: seq<Action>, second: seq<Action>, p: Partition)
    ensures Produced(first + second) == Produced(first) + Produced(second)
    ensures LooksIn(first + second, p) == LooksIn(first, p) + LooksIn(second, p)
  {
    ProducedConcat(first, second);
    LooksConcat(first, second, p);
  }

  lemma CountOne(a: Action, p: Partition)
    ensures Produced([a]) == (if a.Produce? then [a.relay] else [])
    ensures LooksIn([a], p) == if a == Consume(C.Look(p)) then 1 else 0
  {
    assert [a][1..] == [];
  }

  lemma DeliverIsRun(cluster: Cluster, s: State, p: Partition, group: string, outcome: Outcome)
    returns (actions: seq<Action>)
    requires CanDeliver(s.relay.logs, s.consumer, p)
    ensures IsRun(cluster, s, actions)
    ensures Final(cluster, s, actions) == s.(consumer := Deliver(s.relay.logs, s.consumer, p, group, outcome))
    ensures Produced(actions) == [] && LooksIn(actions, p) == 1
  {
    var look, handle := Consume(C.Look(p)), Consume(C.Handle(p, outcome.handlerOk));
    var insert := Consume(C.Insert(p, outcome.insert, group));
    OneStep(cluster, s, look);
    CountOne(look, p);
    CountOne(handle, p);
    CountOne(insert, p);
    actions := [look];
    var s1 := Next(cluster, s, look);
    if C.CursorOf(s1.consumer, p).phase.Handling? {
      OneStep(cluster, s1, handle);
      RunConcat(cluster, s, [look], [handle]);
      CountsConcat([look], [handle], p);
      actions := [look] + [handle];
      var s2 := Next(cluster, s1, handle);
      if outcome.handlerOk {
        OneStep(cluster, s2, insert);
        RunConcat(cluster, s, actions, [insert]);
        CountsConcat(actions, [insert], p);
        actions := actions + [insert];
      }
    }
  }

  lemma {:induction false} DeliveriesAreRun(cluster: Cluster, s: State, p: Partition, group: string,
                                            outcomes: seq<Outcome>)
    returns (actions: seq<Action>)
    requires C.CursorOf(s.consumer, p).phase.Ready?
    ensures IsRun(cluster, s, actions)
    ensures Final(cluster, s, actions) == s.(consumer := DeliverAll(s.relay.logs, s.consumer, p, group, outcomes))
    ensures Produced(actions) == [] && LooksIn(actions, p) <= |outcomes|
    decreases |outcomes|
  {
    if outcomes == [] || !CanDeliver(s.relay.logs, s.consumer, p) {
      actions := [];
    } else {
      var first := DeliverIsRun(cluster, s, p, group, outcomes[0]);
      DeliverIsProcess(s.relay.logs, s.consumer, p, group, outcomes[0]);
      var rest := DeliveriesAreRun(cluster, Final(cluster, s, first), p, group, outcomes[1..]);
      RunConcat(cluster, s, first, rest);
      CountsConcat(first, rest, p);
      actions := first + rest;
    }
  }

  // ---- How much there is to deliver ----

  lemma {:induction false} BatchGrowth(cluster: Cluster, start: Progress, events: seq<OutboxEvent>, fates: seq<Fate>,
                                       n: nat, p: Partition)
    requires n <= |events| <= |fates|
    ensures |LogOf(After(cluster, start, events, fates, n).logs, p)| <= |LogOf(start.logs, p)| + n
  {
    if n > 0 {
      BatchGrowth(cluster, start, events, fates, n - 1, p);
    }
  }

  /** A partition grows by at most one batch a round. */
  lemma {:induction false} RoundsGrowth(cluster: Cluster, st: Progress, rounds: seq<Round>, bad: set<string>,
                                        p: Partition)
    requires IsPoisonedRun(cluster, st, rounds, bad)
    ensures |LogOf(AfterRounds(cluster, st, rounds).logs, p)| <= |LogOf(st.logs, p)| + |rounds| * BATCH_SIZE
    decreases |rounds|
  {
    if rounds != [] {
      var round := rounds[0];
      BatchGrowth(cluster, Arrive(st, round.arrivals).(published := 0, threw := false),
                  round.events, round.fates, |round.events|, p);
      RoundsGrowth(cluster, AfterRound(cluster, st, round), rounds[1..], bad, p);
    }
  }

  // ---- From backlog to handler ----

  /** Between two messages and between two batches. */
  ghost predicate Rests(s: State, r: nat, p: Partition) {
    && C.CursorOf(s.consumer, p).phase.Ready?
    && R.RelayOf(s.relay, r).Idle? && RelayRefinement.NoOpenClaim(s.relay)
  }

  /** The rounds, as a run: as many claims as rounds, and tables as the rounds leave them. */
  lemma PublishedThen(cluster: Cluster, s: State, r: nat, st: Progress, rounds: seq<Round>, bad: set<string>,
                      p: Partition)
    returns (actions: seq<Action>)
    requires SystemInv(cluster, s) && Between(s.relay, r, st) && IsPoisonedRun(cluster, st, rounds, bad)
    ensures IsRun(cluster, s, actions) && RelayRefinement.Opens(Produced(actions)) == |rounds| && LooksIn(actions, p)
        == 0
    ensures var s' := Final(cluster, s, actions);
            && s'.consumer == s.consumer
            && s'.relay.rows == AfterRounds(cluster, st, rounds).rows
            && s'.relay.logs == AfterRounds(cluster, st, rounds).logs
            && Grows(s.relay.rows, s'.relay.rows)
  {
    var relayed := RoundsAreRun(cluster, s.relay, r, st, rounds, bad);
    RelaySafety.RunKeeps(cluster, s.relay, relayed);
    LiftedRun(cluster, s, relayed);
    LiftedLooks(relayed, p);
    actions := Lifted(relayed);
  }

  lemma {:induction false} LiftedLooks(actions: seq<R.Action>, p: Partition)
    ensures LooksIn(Lifted(actions), p) == 0
    decreases |actions|
  {
    if actions != [] {
      LiftedLooks(actions[1..], p);
      assert Lifted(actions)[1..] == Lifted(actions[1..]);
    }
  }

  /** Enough successful deliveries, as a run, drain a partition of typed events. */
  lemma DrainedThen(cluster: Cluster, s: State, p: Partition, group: string, outcomes: seq<Outcome>)
    returns (actions: seq<Action>)
    requires SystemInv(cluster, s) && AllTyped(s.relay.rows) && C.CursorOf(s.consumer, p).phase.Ready?
    requires Successes(outcomes) >= |LogOf(s.relay.logs, p)| - C.CursorOf(s.consumer, p).position
    ensures IsRun(cluster, s, actions) && Produced(actions) == [] && LooksIn(actions, p) <= |outcomes|
    ensures Final(cluster, s, actions) == s.(consumer := DeliverAll(s.relay.logs, s.consumer, p, group, outcomes))
    ensures SystemInv(cluster, Final(cluster, s, actions)) && Drained(Final(cluster, s, actions), p)
  {
    actions := DeliveriesAreRun(cluster, s, p, group, outcomes);
    EndToEnd.RunKeeps(cluster, s, actions);
    C.CursorInLog(s.relay.logs, s.consumer, p);
    RejectsUntyped(cluster, s.relay, p);
    DeliveriesFinish(s.relay.logs, s.consumer, p, group, outcomes);
    DeliverAllReady(s.relay.logs, s.consumer, p, group, outcomes);
    C.CursorInLog(s.relay.logs, Final(cluster, s, actions).consumer, p);
  }

  lemma {:induction false} DeliverAllReady(logs: Logs, s: C.State, p: Partition, group: string, outcomes: seq<Outcome>)
    requires C.CursorOf(s, p).phase.Ready?
    ensures C.CursorOf(DeliverAll(logs, s, p, group, outcomes), p).phase.Ready?
    decreases |outcomes|
  {
    if outcomes != [] && CanDeliver(logs, s, p) {
      DeliverIsProcess(logs, s, p, group, outcomes[0]);
      DeliverAllReady(logs, Deliver(logs, s, p, group, outcomes[0]), p, group, outcomes[1..]);
    }
  }

  /** The situation from which the row is to be delivered: the partition is between two messages, relay `r`
      between two batches; the given rounds are enough for the row, whatever younger rows arrive; all rows
      have a type; and there are as many successful deliveries as the partition has records left, plus
      one batch a round. */
  ghost predicate CanReach(cluster: Cluster, s: State, r: nat, st: Progress, rounds: seq<Round>, bad: set<string>,
                           id: string, outcomes: seq<Outcome>)
  {
    && id in s.relay.rows && Rests(s, r, Route(cluster, s.relay.rows[id])) && Between(s.relay, r, st)
    && IsPoisonedRun(cluster, st, rounds, bad) && EnoughRounds(st, |rounds|, bad, id)
    && ArriveAfter(rounds, st.rows[id].occurredAt)
    && AllTyped(AfterRounds(cluster, st, rounds).rows)
    && var home := Route(cluster, s.relay.rows[id]);
       Successes(outcomes) >= |LogOf(s.relay.logs, home)| - C.CursorOf(s.consumer, home).position
                              + |rounds| * BATCH_SIZE
  }

  /** The given rounds and deliveries, and nothing else, have taken the row to its handler. */
  ghost predicate ReachedBy(cluster: Cluster, s: State, s': State, st: Progress, rounds: seq<Round>, id: string,
                            group: string, outcomes: seq<Outcome>)
    requires id in s.relay.rows && C.CursorOf(s.consumer, Route(cluster, s.relay.rows[id])).phase.Ready?
  {
    var end, home := AfterRounds(cluster, st, rounds), Route(cluster, s.relay.rows[id]);
    && s'.relay.rows == end.rows && s'.relay.logs == end.logs
    && s'.consumer == DeliverAll(end.logs, s.consumer, home, group, outcomes)
    && id in end.rows && end.rows[id].publishedAt.Some?
    && Handled(s'.consumer, id)
  }

  lemma DeliveredFrom(cluster: Cluster, s: State, r: nat, st: Progress, rounds: seq<Round>,
                      bad: set<string>, id: string, group: string, outcomes: seq<Outcome>)
    returns (actions: seq<Action>)
    requires SystemInv(cluster, s) && CanReach(cluster, s, r, st, rounds, bad, id, outcomes)
    ensures IsRun(cluster, s, actions)
    ensures RelayRefinement.Opens(Produced(actions)) == |rounds|
    ensures LooksIn(actions, Route(cluster, s.relay.rows[id])) <= |outcomes|
    ensures ReachedBy(cluster, s, Final(cluster, s, actions), st, rounds, id, group, outcomes)
  {
    var home := Route(cluster, s.relay.rows[id]);
    var first := PublishedThen(cluster, s, r, st, rounds, bad, home);
    var s1 := Final(cluster, s, first);
    EndToEnd.RunKeeps(cluster, s, first);
    RowDrains(cluster, st, rounds, bad, id);
    DuplicatesAgree(cluster, s1.relay.rows[id], s.relay.rows[id]);
    RoundsGrowth(cluster, st, rounds, bad, home);
    var second := DrainedThen(cluster, s1, home, group, outcomes);
    RunConcat(cluster, s, first, second);
    CountsConcat(first, second, home);
    actions := first + second;
    assert Produced(first) + [] == Produced(first);
    DrainedIsHandled(cluster, Final(cluster, s1, second), id);
  }

  /** From backlog to handler, within a bound: from every reachable state at rest, a good row with `p`
      poison rows and `q` good rows ahead of it is published by `q / (BATCH_SIZE - p) + 1` rounds of one
      relay and handled by as many successful deliveries as its partition has records left, plus one
      batch a round. Any such rounds and deliveries will do: the run that carries them out, and nothing
      else, ends in the tables and the consumer state they give, with as many claims as rounds and no
      more look-ups than deliveries. Failed deliveries in between do no harm but the extra calls that
      Handled counts. */
  lemma EnqueuedIsHandled(cluster: Cluster, before: seq<Action>, r: nat, connected: bool, rounds: seq<Round>,
                          bad: set<string>, id: string, group: string, outcomes: seq<Outcome>)
    returns (actions: seq<Action>)
    requires IsRun(cluster, INITIAL, before)
    requires var s := Final(cluster, INITIAL, before);
             CanReach(cluster, s, r, Progress(s.relay.rows, s.relay.logs, connected, 0, false), rounds, bad, id,
                      outcomes)
    ensures IsRun(cluster, Final(cluster, INITIAL, before), actions)
    ensures var s := Final(cluster, INITIAL, before);
            && RelayRefinement.Opens(Produced(actions)) == |rounds|
            && LooksIn(actions, Route(cluster, s.relay.rows[id])) <= |outcomes|
            && ReachedBy(cluster, s, Final(cluster, s, actions),
                         Progress(s.relay.rows, s.relay.logs, connected, 0, false), rounds, id, group, outcomes)
  {
    var s := Final(cluster, INITIAL, before);
    Reachable(cluster, before);
    var st := Progress(s.relay.rows, s.relay.logs, connected, 0, false);
    actions := DeliveredFrom(cluster, s, r, st, rounds, bad, id, group, outcomes);
  }
}
