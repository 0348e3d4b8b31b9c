/** `publishBatch` as a method, and the relay as a transition system: every undisturbed call of the one is
    a run of the other, action by action. */
module RelayRefinement {
  import opened Wrappers
  import opened Outbox
  import opened Kafka
  import opened RelayService
  import opened RelaySystem

  /** The actions of one loop iteration. */
  function EventActions(r: nat, connected: bool, fate: Fate): seq<Action> {
    var send := EffectiveSend(connected, fate.connects, fate.send);
    [Publish(r, send, fate.error)] + BookingActions(r, send.Acknowledged?, fate)
  }

  /** No claim transaction is open, so no write waits for a lock. */
  ghost predicate NoOpenClaim(s: State) {
    forall q :: q in s.relays ==> !s.relays[q].Claiming?
  }

  /** The system state shows relay `r` inside the loop, `n` events done, with the tables of `st`. */
  ghost predicate Shows(s: State, r: nat, st: Progress, events: seq<OutboxEvent>, n: nat) {
    && s.rows == st.rows && s.logs == st.logs
    && r in s.relays
    && s.relays[r] == (if st.threw then Idle else Publishing(events, n))
    && NoOpenClaim(s)
  }

  lemma {:induction false} RunConcat(cluster: Cluster, s: State, first: seq<Action>, second: seq<Action>)
    requires IsRun(cluster, s, first) && IsRun(cluster, Final(cluster, s, first), second)
    ensures IsRun(cluster, s, first + second)
    ensures Final(cluster, s, first + second) == Final(cluster, Final(cluster, s, first), second)
    decreases |first|
  {
    if first == [] {
      assert first + second == second;
    } else {
      assert (first + second)[1..] == first[1..] + second;
      RunConcat(cluster, Next(cluster, s, first[0]), first[1..], second);
    }
  }

  lemma OneStep(cluster: Cluster, s: State, a: Action)
    requires Enabled(s, a)
    ensures IsRun(cluster, s, [a]) && Final(cluster, s, [a]) == Next(cluster, s, a)
  {
    assert [a][1..] == [];
    assert Final(cluster, Next(cluster, s, a), []) == Next(cluster, s, a);
  }

  /** What follows the publish call. */
  function BookingActions(r: nat, acknowledged: bool, fate: Fate): seq<Action> {
    (if acknowledged then [Mark(r, fate.mark, fate.now, fate.error)] else [])
    + (if acknowledged && fate.mark.Written? then []
       else [Increment(r, fate.increment)] + if fate.increment.Written? then [Note(r, fate.note)] else [])
  }

  /** `s'` is `s` after the booking: only the table and the place of relay `r` differ. */
  ghost predicate Booked(s: State, s': State, r: nat, booking: Booking, events: seq<OutboxEvent>, n: nat) {
    && s'.rows == booking.rows && s'.logs == s.logs
    && s'.relays == s.relays[r := if booking.threw then Idle else Publishing(events, n + 1)]
  }

  /** The failure branch. */
  lemma FailureIsRun(cluster: Cluster, s: State, r: nat, events: seq<OutboxEvent>, n: nat, fate: Fate)
    requires r in s.relays && n < |events| && s.relays[r] == Recording(events, n, fate.error) && NoOpenClaim(s)
    ensures var actions := BookingActions(r, false, fate);
            && IsRun(cluster, s, actions)
            && Booked(s, Final(cluster, s, actions), r, Book(s.rows, events[n], false, fate), events, n)
  {
    var increment := Increment(r, fate.increment);
    assert Locked(s) == {};
    OneStep(cluster, s, increment);
    var s1 := Next(cluster, s, increment);
    if fate.increment.Written? {
      var note := Note(r, fate.note);
      assert Locked(s1) == {};
      RunAppend(cluster, s, [increment], note);
      assert BookingActions(r, false, fate) == [increment] + [note];
      assert s1.relays[r := Idle] == s.relays[r := Idle];
      assert s1.relays[r := Publishing(events, n + 1)] == s.relays[r := Publishing(events, n + 1)];
    } else {
      assert BookingActions(r, false, fate) == [increment];
    }
  }

  /** The branch after an acknowledged publish, which joins the failure branch when the write fails. */
  lemma SuccessIsRun(cluster: Cluster, s: State, r: nat, events: seq<OutboxEvent>, n: nat, fate: Fate)
    requires r in s.relays && n < |events| && s.relays[r] == Marking(events, n) && NoOpenClaim(s)
    ensures var actions := BookingActions(r, true, fate);
            && IsRun(cluster, s, actions)
            && Booked(s, Final(cluster, s, actions), r, Book(s.rows, events[n], true, fate), events, n)
  {
    var mark := Mark(r, fate.mark, fate.now, fate.error);
    assert Locked(s) == {};
    OneStep(cluster, s, mark);
    var s1 := Next(cluster, s, mark);
    if fate.mark.Written? {
      assert BookingActions(r, true, fate) == [mark];
    } else {
      FailureIsRun(cluster, s1, r, events, n, fate);
      RunConcat(cluster, s, [mark], BookingActions(r, false, fate));
      assert BookingActions(r, true, fate) == [mark] + BookingActions(r, false, fate);
      assert s1.relays[r := Idle] == s.relays[r := Idle];
      assert s1.relays[r := Publishing(events, n + 1)] == s.relays[r := Publishing(events, n + 1)];
    }
  }

  lemma EventIsRun(cluster: Cluster, s: State, r: nat, st: Progress, events: seq<OutboxEvent>, n: nat, fate: Fate)
    requires n < |events| && !st.threw && Shows(s, r, st, events, n)
    ensures var actions := EventActions(r, st.connected, fate);
            && IsRun(cluster, s, actions)
            && Shows(Final(cluster, s, actions), r, HandleEvent(cluster, st, events[n], fate), events, n + 1)
  {
    var send := EffectiveSend(st.connected, fate.connects, fate.send);
    var publish := Publish(r, send, fate.error);
    OneStep(cluster, s, publish);
    var s1 := Next(cluster, s, publish);
    if send.Acknowledged? {
      SuccessIsRun(cluster, s1, r, events, n, fate);
    } else {
      FailureIsRun(cluster, s1, r, events, n, fate);
    }
    RunConcat(cluster, s, [publish], BookingActions(r, send.Acknowledged?, fate));
  }

  /** The actions are a run from `s` that ends where relay `r` has done `n` events. */
  ghost predicate Leads(cluster: Cluster, s: State, actions: seq<Action>, r: nat, st: Progress,
                        events: seq<OutboxEvent>, n: nat) {
    IsRun(cluster, s, actions) && Shows(Final(cluster, s, actions), r, st, events, n)
  }

  /** Claim transactions begun. */
  function Opens(actions: seq<Action>): nat {
    if actions == [] then 0 else (if actions[0].Open? then 1 else 0) + Opens(actions[1..])
  }

  lemma {:induction false} OpensConcat(first: seq<Action>, second: seq<Action>)
    ensures Opens(first + second) == Opens(first) + Opens(second)
    decreases |first|
  {
    if first == [] {
      assert first + second == second;
    } else {
      assert (first + second)[1..] == first[1..] + second;
      OpensConcat(first[1..], second);
    }
  }

  lemma EventOpens(r: nat, connected: bool, fate: Fate)
    ensures Opens(EventActions(r, connected, fate)) == 0
  {
    NoOpens(EventActions(r, connected, fate));
  }

  lemma {:induction false} NoOpens(actions: seq<Action>)
    requires forall i :: 0 <= i < |actions| ==> !actions[i].Open?
    ensures Opens(actions) == 0
  {
    if actions != [] {
      NoOpens(actions[1..]);
    }
  }

  /** One event more. */
  lemma LoopStep(cluster: Cluster, s: State, before: seq<Action>, r: nat, st: Progress, events: seq<OutboxEvent>,
                 n: nat, fate: Fate)
    returns (actions: seq<Action>)
    requires n < |events| && Leads(cluster, s, before, r, st, events, n) && Opens(before) == 0
    ensures Leads(cluster, s, actions, r, if st.threw then st else HandleEvent(cluster, st, events[n], fate), events, n
                  + 1)
    ensures Opens(actions) == 0
  {
    if st.threw {
      actions := before;
    } else {
      EventIsRun(cluster, Final(cluster, s, before), r, st, events, n, fate);
      RunConcat(cluster, s, before, EventActions(r, st.connected, fate));
      EventOpens(r, st.connected, fate);
      OpensConcat(before, EventActions(r, st.connected, fate));
      actions := before + EventActions(r, st.connected, fate);
    }
  }

  /** The first `n` events are a run that ends where the relay has done them. */
  lemma {:induction false} LoopIsRun(cluster: Cluster, s: State, r: nat, start: Progress, events: seq<OutboxEvent>,
                                     fates: seq<Fate>, n: nat)
    returns (actions: seq<Action>)
    requires n <= |events| <= |fates| && Shows(s, r, start, events, 0)
    ensures Leads(cluster, s, actions, r, After(cluster, start, events, fates, n), events, n)
    ensures Opens(actions) == 0
  {
    if n == 0 {
      actions := [];
    } else {
      var before := LoopIsRun(cluster, s, r, start, events, fates, n - 1);
      actions := LoopStep(cluster, s, before, r, After(cluster, start, events, fates, n - 1), events, n - 1,
                          fates[n - 1]);
    }
  }

  /** The claim, as a run. */
  lemma ClaimIsRun(cluster: Cluster, s: State, r: nat, events: seq<OutboxEvent>) returns (actions: seq<Action>)
    requires RelayOf(s, r).Idle? && NoOpenClaim(s) && IsClaim(s.rows, {}, events)
    ensures IsRun(cluster, s, actions) && Opens(actions) == 1
    ensures Final(cluster, s, actions) == Move(s, r, Publishing(events, 0))
  {
    assert Locked(s) == {};
    var s1 := Next(cluster, s, Open(r, events));
    OneStep(cluster, s, Open(r, events));
    OneStep(cluster, s1, Commit(r));
    RunConcat(cluster, s, [Open(r, events)], [Commit(r)]);
    assert [Open(r, events)][1..] == [];
    NoOpens([Commit(r)]);
    OpensConcat([Open(r, events)], [Commit(r)]);
    assert Next(cluster, s1, Commit(r)).relays == s.relays[r := Publishing(events, 0)];
    actions := [Open(r, events)] + [Commit(r)];
  }

  /** The end of the batch, as a run: the loop has thrown, or the method returns. */
  lemma ReturnIsRun(cluster: Cluster, s: State, r: nat, st: Progress, events: seq<OutboxEvent>)
    returns (actions: seq<Action>)
    requires Shows(s, r, st, events, |events|)
    ensures IsRun(cluster, s, actions) && Opens(actions) == 0
    ensures var s' := Final(cluster, s, actions);
            s'.rows == st.rows && s'.logs == st.logs && RelayOf(s', r).Idle? && NoOpenClaim(s')
  {
    if st.threw {
      actions := [];
    } else {
      OneStep(cluster, s, Finish(r));
      NoOpens([Finish(r)]);
      actions := [Finish(r)];
    }
  }

  /** From any state in which relay `r` is idle and no claim is open, the actions of one batch are a
      run whose tables are those `PublishBatch` promises; it claims once, and the relay is idle after it. */
  lemma BatchIsRun(cluster: Cluster, s: State, r: nat, connected: bool, events: seq<OutboxEvent>, fates: seq<Fate>)
    returns (actions: seq<Action>)
    requires RelayOf(s, r).Idle? && NoOpenClaim(s) && IsClaim(s.rows, {}, events) && |events| <= |fates|
    ensures IsRun(cluster, s, actions) && Opens(actions) == 1
    ensures var end := After(cluster, Progress(s.rows, s.logs, connected, 0, false), events, fates, |events|);
            var s' := Final(cluster, s, actions);
            s'.rows == end.rows && s'.logs == end.logs && RelayOf(s', r).Idle? && NoOpenClaim(s')
  {
    var start := Progress(s.rows, s.logs, connected, 0, false);
    var claim := ClaimIsRun(cluster, s, r, events);
    var s1 := Final(cluster, s, claim);
    var loop := LoopIsRun(cluster, s1, r, start, events, fates, |events|);
    var s2 := Final(cluster, s1, loop);
    var finish := ReturnIsRun(cluster, s2, r, After(cluster, start, events, fates, |events|), events);
    RunConcat(cluster, s1, loop, finish);
    OpensConcat(loop, finish);
    RunConcat(cluster, s, claim, loop + finish);
    OpensConcat(claim, loop + finish);
    actions := claim + (loop + finish);
  }
}
