/** The order in which events are published, by any number of relays, over all batches and restarts. */
module RelayOrder {
  import opened Wrappers
  import opened Sequences
  import opened Outbox
  import opened Kafka
  import opened RelaySystem
  import opened RelaySafety
  import opened RelayAttempts

  ghost predicate TriedBefore(history: seq<Attempt>, n: nat, id: string)
    requires n <= |history|
  {
    exists j :: 0 <= j < n && history[j].id == id
  }

  /** What a claim query finds: the rows there are, and those that other open claims have locked. */
  datatype Sight = Sight(present: set<string>, locked: set<string>) {
    predicate Shows(id: string) { id in present && id !in locked }
  }

  /** What an observer notes beside a run: for each relay what its claim query found when it last ran, and
      the same once more for each publish call, in order. */
  datatype View = View(last: map<nat, Sight>, sights: seq<Sight>)

  const NOTHING_SEEN: View := View(map[], [])

  function SightOf(v: View, r: nat): Sight {
    if r in v.last then v.last[r] else Sight({}, {})
  }

  function Watch(s: State, v: View, a: Action): View {
    match a
    case Open(r, _) => v.(last := v.last[r := Sight(s.rows.Keys, Locked(s))])
    case Publish(r, _, _) => v.(sights := v.sights + [SightOf(v, r)])
    case _ => v
  }

  ghost function WatchAll(cluster: Cluster, s: State, v: View, actions: seq<Action>): View
    requires IsRun(cluster, s, actions)
    decreases |actions|
  {
    if actions == [] then v
    else WatchAll(cluster, Next(cluster, s, actions[0]), Watch(s, v, actions[0]), actions[1..])
  }

  /** For each publish call of a run from the empty system: what the claim query of its batch found. */
  ghost function Sights(cluster: Cluster, actions: seq<Action>): seq<Sight>
    requires IsRun(cluster, INITIAL, actions)
  {
    WatchAll(cluster, INITIAL, NOTHING_SEEN, actions).sights
  }

  /** At each publish call every strictly older row has been tried, or was not shown to the claim. */
  ghost predicate TriedOrUnseen(rows: Table, history: seq<Attempt>, sights: seq<Sight>) {
    && |sights| == |history|
    && forall i, id | 0 <= i < |history| && id in rows && history[i].id in rows ::
         rows[id].occurredAt < rows[history[i].id].occurredAt ==> TriedBefore(history, i, id) || !sights[i].Shows(id)
  }

  /** For what a batch still has to try: each strictly older row has been tried, comes earlier in the
      batch, or was not shown to the claim. */
  ghost predicate BatchInOrder(rows: Table, history: seq<Attempt>, batch: seq<OutboxEvent>, next: nat,
                               sight: Sight) {
    forall k, id | next <= k < |batch| && id in rows && rows[id].occurredAt < batch[k].occurredAt ::
      TriedBefore(history, |history|, id) || Earlier(batch, next, k, id) || !sight.Shows(id)
  }

  /** Only rows were ever shown. */
  ghost predicate SightsKnown(rows: Table, v: View) {
    && (forall r :: r in v.last ==> v.last[r].present <= rows.Keys)
    && (forall i :: 0 <= i < |v.sights| ==> v.sights[i].present <= rows.Keys)
  }

  ghost predicate Earlier(batch: seq<OutboxEvent>, from: nat, to: nat, id: string)
    requires to <= |batch|
  {
    exists m :: from <= m < to && batch[m].id == id
  }

  /** The first event of the batch that the relay has yet to try. */
  function NextToTry(relay: Relay): nat {
    match relay
    case Idle => 0
    case Claiming(_) => 0
    case Publishing(_, next) => next
    case Marking(_, next) => next + 1
    case Recording(_, next, _) => next + 1
    case Noting(_, next, _) => next + 1
  }

  ghost predicate RelayInOrder(s: State, v: View, r: nat) {
    r in s.relays && !s.relays[r].Idle? ==>
      BatchInOrder(s.rows, s.history, s.relays[r].batch, NextToTry(s.relays[r]), SightOf(v, r))
  }

  ghost predicate OrderInv(cluster: Cluster, s: State, v: View) {
    && Inv(cluster, s)
    && SightsKnown(s.rows, v)
    && TriedOrUnseen(s.rows, s.history, v.sights)
    && forall r :: RelayInOrder(s, v, r)
  }

  lemma TriedBeforeStays(history: seq<Attempt>, last: Attempt, n: nat, id: string)
    requires n <= |history|
    ensures TriedBefore(history, n, id) ==> TriedBefore(history + [last], n, id)
    ensures TriedBefore(history, n, id) ==> TriedBefore(history + [last], |history| + 1, id)
    ensures TriedBefore(history + [last], |history| + 1, last.id)
  {
    var longer := history + [last];
    assert longer[|history|] == last;
    if TriedBefore(history, n, id) {
      var j :| 0 <= j < n && history[j].id == id;
      assert longer[j] == history[j];
    }
  }

  /** A claim leaves out no older row that it is shown and that has not been tried. */
  lemma OpenInOrder(cluster: Cluster, s: State, r: nat, claim: seq<OutboxEvent>)
    requires Inv(cluster, s) && Enabled(s, Open(r, claim))
    ensures BatchInOrder(s.rows, s.history, claim, 0, Sight(s.rows.Keys, Locked(s)))
  {
    forall k, id | 0 <= k < |claim| && id in s.rows && s.rows[id].occurredAt < claim[k].occurredAt
      ensures TriedBefore(s.history, |s.history|, id) || Earlier(claim, 0, k, id) || id in Locked(s)
    {
      if s.rows[id].publishedAt.Some? {
        var i :| 0 <= i < |s.history| && s.history[i].id == id && s.history[i].send.Appended();
      } else if id !in Locked(s) {
        assert id in Eligible(s.rows, Locked(s));
        assert id in Ids(claim);
        var m :| 0 <= m < |claim| && claim[m].id == id;
        assert s.rows[claim[m].id] == claim[m];
      }
    }
  }

  lemma TryInOrder(rows: Table, history: seq<Attempt>, sights: seq<Sight>, last: Attempt, sight: Sight)
    requires TriedOrUnseen(rows, history, sights) && last.id in rows
    requires forall id :: id in rows && rows[id].occurredAt < rows[last.id].occurredAt ==>
               TriedBefore(history, |history|, id) || !sight.Shows(id)
    ensures TriedOrUnseen(rows, history + [last], sights + [sight])
  {
    var longer := history + [last];
    forall i, id | 0 <= i < |longer| && id in rows && longer[i].id in rows
      && rows[id].occurredAt < rows[longer[i].id].occurredAt
      ensures TriedBefore(longer, i, id) || !(sights + [sight])[i].Shows(id)
    {
      assert i < |history| ==> longer[i] == history[i];
      TriedBeforeStays(history, last, i, id);
    }
  }

  lemma BatchAdvances(rows: Table, history: seq<Attempt>, last: Attempt, batch: seq<OutboxEvent>, next: nat,
                      sight: Sight)
    requires next < |batch| && batch[next].id == last.id && BatchInOrder(rows, history, batch, next, sight)
    ensures BatchInOrder(rows, history + [last], batch, next + 1, sight)
  {
    forall k, id | next + 1 <= k < |batch| && id in rows && rows[id].occurredAt < batch[k].occurredAt
      ensures || TriedBefore(history + [last], |history + [last]|, id)
              || Earlier(batch, next + 1, k, id) || !sight.Shows(id)
    {
      TriedBeforeStays(history, last, |history|, id);
      if !TriedBefore(history, |history|, id) && sight.Shows(id) {
        assert Earlier(batch, next, k, id);
      }
    }
  }

  /** A publish call of some other relay, or none. */
  lemma BatchWaits(rows: Table, history: seq<Attempt>, last: Attempt, batch: seq<OutboxEvent>, next: nat,
                   sight: Sight)
    requires BatchInOrder(rows, history, batch, next, sight)
    ensures BatchInOrder(rows, history + [last], batch, next, sight)
  {
    forall k, id | next <= k < |batch| && id in rows && rows[id].occurredAt < batch[k].occurredAt
      ensures TriedBefore(history + [last], |history + [last]|, id) || Earlier(batch, next, k, id) || !sight.Shows(id)
    {
      TriedBeforeStays(history, last, |history|, id);
    }
  }

  lemma PublishTries(cluster: Cluster, s: State, v: View, a: Action)
    requires OrderInv(cluster, s, v) && a.Publish? && Enabled(s, a)
    ensures TriedOrUnseen(s.rows, s.history + [Attempt(Current(s.relays[a.relay]).id, a.send)],
                          v.sights + [SightOf(v, a.relay)])
  {
    var relay := s.relays[a.relay];
    var last := Attempt(Current(relay).id, a.send);
    assert RelayInOrder(s, v, a.relay);
    assert AsEnqueued(Current(relay)).occurredAt == AsEnqueued(s.rows[last.id]).occurredAt;
    TryInOrder(s.rows, s.history, v.sights, last, SightOf(v, a.relay));
  }

  /** What a publish call does to the caller's batch, which advances ... */
  lemma PublishOwn(cluster: Cluster, s: State, v: View, a: Action)
    requires OrderInv(cluster, s, v) && a.Publish? && Enabled(s, a)
    ensures RelayInOrder(Next(cluster, s, a), Watch(s, v, a), a.relay)
  {
    var relay := s.relays[a.relay];
    assert RelayInOrder(s, v, a.relay);
    BatchAdvances(s.rows, s.history, Attempt(Current(relay).id, a.send), relay.batch, relay.next,
                  SightOf(v, a.relay));
  }

  /** ... and to those of others, which wait. */
  lemma PublishOther(cluster: Cluster, s: State, v: View, a: Action, r: nat)
    requires OrderInv(cluster, s, v) && a.Publish? && Enabled(s, a) && r != a.relay
    ensures RelayInOrder(Next(cluster, s, a), Watch(s, v, a), r)
  {
    assert RelayInOrder(s, v, r);
    if r in s.relays && !s.relays[r].Idle? {
      BatchWaits(s.rows, s.history, Attempt(Current(s.relays[a.relay]).id, a.send),
                 s.relays[r].batch, NextToTry(s.relays[r]), SightOf(v, r));
    }
  }

  /** Neither a publish call nor a claim: rows keep their age, and what a batch still has to try is as
      before, unless the batch is over. */
  lemma OtherStep(cluster: Cluster, s: State, a: Action, r: nat)
    requires Enabled(s, a) && !a.Publish? && a != Open(r, BatchOf(Next(cluster, s, a), r))
    ensures var s' := Next(cluster, s, a);
            && s'.history == s.history
            && (forall id :: id in s.rows ==> id in s'.rows && s'.rows[id].occurredAt == s.rows[id].occurredAt)
            && (forall id :: id in s'.rows && id !in s.rows ==> a.Enqueue? && s'.rows[id].occurredAt == a.occurredAt)
            && (RelayOf(s', r).Idle? ||
                (&& !RelayOf(s, r).Idle?
                 && s'.relays[r].batch == s.relays[r].batch
                 && NextToTry(s'.relays[r]) == NextToTry(s.relays[r])))
  {
    StepAges(cluster, s, a);
  }

  function BatchOf(s: State, r: nat): seq<OutboxEvent> {
    if RelayOf(s, r).Idle? then [] else RelayOf(s, r).batch
  }

  lemma StepAges(cluster: Cluster, s: State, a: Action)
    requires Enabled(s, a)
    ensures var rows := Next(cluster, s, a).rows;
            && (forall id :: id in s.rows ==> id in rows && rows[id].occurredAt == s.rows[id].occurredAt)
            && (forall id :: id in rows && id !in s.rows ==> a.Enqueue? && rows[id].occurredAt == a.occurredAt)
  {
  }

  lemma OtherRelay(cluster: Cluster, s: State, v: View, a: Action, r: nat)
    requires OrderInv(cluster, s, v) && Enabled(s, a)
    requires !a.Publish? && a != Open(r, BatchOf(Next(cluster, s, a), r))
    ensures RelayInOrder(Next(cluster, s, a), Watch(s, v, a), r)
  {
    var s' := Next(cluster, s, a);
    OtherStep(cluster, s, a, r);
    if r in s'.relays && !s'.relays[r].Idle? {
      assert RelayInOrder(s, v, r);
      var batch := s.relays[r].batch;
      forall k | 0 <= k < |batch|
        ensures batch[k].id in s.rows && batch[k].occurredAt == s.rows[batch[k].id].occurredAt
      {
        assert BatchKnown(s.rows, batch);
        assert AsEnqueued(batch[k]).occurredAt == AsEnqueued(s.rows[batch[k].id]).occurredAt;
      }
      assert SightOf(Watch(s, v, a), r) == SightOf(v, r);
    }
  }

  lemma OthersTried(cluster: Cluster, s: State, v: View, a: Action)
    requires OrderInv(cluster, s, v) && Enabled(s, a) && !a.Publish?
    ensures TriedOrUnseen(Next(cluster, s, a).rows, s.history, v.sights)
  {
    StepAges(cluster, s, a);
  }

  lemma RelayStep(cluster: Cluster, s: State, v: View, a: Action, r: nat)
    requires OrderInv(cluster, s, v) && Enabled(s, a)
    ensures RelayInOrder(Next(cluster, s, a), Watch(s, v, a), r)
  {
    if a.Publish? && r == a.relay {
      PublishOwn(cluster, s, v, a);
    } else if a.Publish? {
      PublishOther(cluster, s, v, a, r);
    } else if a == Open(r, BatchOf(Next(cluster, s, a), r)) {
      OpenInOrder(cluster, s, r, a.claim);
    } else {
      OtherRelay(cluster, s, v, a, r);
    }
  }

  lemma SightsStep(cluster: Cluster, s: State, v: View, a: Action)
    requires Enabled(s, a) && SightsKnown(s.rows, v)
    ensures SightsKnown(Next(cluster, s, a).rows, Watch(s, v, a))
  {
    StepAges(cluster, s, a);
  }

  lemma TriedStep(cluster: Cluster, s: State, v: View, a: Action)
    requires OrderInv(cluster, s, v) && Enabled(s, a)
    ensures TriedOrUnseen(Next(cluster, s, a).rows, Next(cluster, s, a).history, Watch(s, v, a).sights)
  {
    if a.Publish? {
      PublishStep(cluster, s, a);
      PublishTries(cluster, s, v, a);
    } else {
      OnlyPublishAppends(cluster, s, a);
      OthersTried(cluster, s, v, a);
    }
  }

  lemma StepInOrder(cluster: Cluster, s: State, v: View, a: Action)
    requires OrderInv(cluster, s, v) && Enabled(s, a)
    ensures OrderInv(cluster, Next(cluster, s, a), Watch(s, v, a))
  {
    StepKeeps(cluster, s, a);
    SightsStep(cluster, s, v, a);
    TriedStep(cluster, s, v, a);
    forall r ensures RelayInOrder(Next(cluster, s, a), Watch(s, v, a), r) {
      RelayStep(cluster, s, v, a, r);
    }
  }

  lemma {:induction false} RunInOrder(cluster: Cluster, s: State, v: View, actions: seq<Action>)
    requires IsRun(cluster, s, actions) && OrderInv(cluster, s, v)
    ensures OrderInv(cluster, Final(cluster, s, actions), WatchAll(cluster, s, v, actions))
    decreases |actions|
  {
    if actions != [] {
      StepInOrder(cluster, s, v, actions[0]);
      RunInOrder(cluster, Next(cluster, s, actions[0]), Watch(s, v, actions[0]), actions[1..]);
    }
  }

  /** Any number of relays, whatever fails: each row is first tried only after every strictly older row
      was tried, except for those that its claim query was not shown. */
  lemma TriesInOrder(cluster: Cluster, actions: seq<Action>)
    requires IsRun(cluster, INITIAL, actions)
    ensures var s := Final(cluster, INITIAL, actions);
            && TriedOrUnseen(s.rows, s.history, Sights(cluster, actions))
            && AttemptsKnown(s)
  {
    InitialKeeps(cluster);
    RunInOrder(cluster, INITIAL, NOTHING_SEEN, actions);
  }

  ghost predicate AppendedBefore(history: seq<Attempt>, n: nat, id: string)
    requires n <= |history|
  {
    exists j :: 0 <= j < n && history[j].id == id && history[j].send.Appended()
  }

  /** There were publish calls for the row, and none of them appended anything. */
  ghost predicate OnlyFailures(history: seq<Attempt>, n: nat, id: string)
    requires n <= |history|
  {
    && TriedBefore(history, n, id)
    && forall j :: 0 <= j < n && history[j].id == id ==> history[j] == Attempt(id, NotAppended)
  }

  /** The `i`-th publish call appends a record of a row that is strictly younger than `a`. */
  ghost predicate YoungerAppended(s: State, a: string, i: nat) {
    && i < |s.history| && s.history[i].send.Appended() && s.history[i].id in s.rows
    && a in s.rows && s.rows[a].occurredAt < s.rows[s.history[i].id].occurredAt
  }

  /** Order inversions, exactly, in every run of any number of relays: when a record of a younger row is
      appended, the older row `a` has no record yet if and only if publish calls for `a` have been made
      and all failed, or none has been made and, when the claim query of this batch ran, `a` was locked or
      was not yet in the table. */
  lemma InversionNeedsCause(cluster: Cluster, actions: seq<Action>, a: string, i: nat)
    requires IsRun(cluster, INITIAL, actions) && YoungerAppended(Final(cluster, INITIAL, actions), a, i)
    ensures var history, sights := Final(cluster, INITIAL, actions).history, Sights(cluster, actions);
            && |sights| == |history|
            && (!AppendedBefore(history, i, a) <==>
                || OnlyFailures(history, i, a)
                || (!TriedBefore(history, i, a) && (a !in sights[i].present || a in sights[i].locked)))
  {
    TriesInOrder(cluster, actions);
  }

  // ---- Rows that appear in order of their age ----

  /** Rows are enqueued with nondecreasing `occurredAt`, counting the rows already there. */
  ghost predicate EnqueuesInOrder(rows: Table, actions: seq<Action>) {
    && (forall id, j :: id in rows && 0 <= j < |actions| && actions[j].Enqueue? ==>
          rows[id].occurredAt <= actions[j].occurredAt)
    && (forall i, j :: 0 <= i < j < |actions| && actions[i].Enqueue? && actions[j].Enqueue? ==>
          actions[i].occurredAt <= actions[j].occurredAt)
  }

  /** Rows enqueued now are not older than any there. */
  ghost predicate InTime(s: State, a: Action) {
    a.Enqueue? ==> forall id :: id in s.rows ==> s.rows[id].occurredAt <= a.occurredAt
  }

  /** Every row older than something the relay has claimed, or has tried, was there when it claimed. */
  ghost predicate OlderPresent(s: State, v: View) {
    && (forall r, k, id | r in s.relays && 0 <= k < |BatchOf(s, r)| && id in s.rows ::
          s.rows[id].occurredAt < BatchOf(s, r)[k].occurredAt ==> id in SightOf(v, r).present)
    && |v.sights| == |s.history|
    && (forall i, id | 0 <= i < |s.history| && id in s.rows && s.history[i].id in s.rows ::
          s.rows[id].occurredAt < s.rows[s.history[i].id].occurredAt ==> id in v.sights[i].present)
  }

  lemma BatchAge(cluster: Cluster, s: State, r: nat, k: nat)
    requires Inv(cluster, s) && k < |BatchOf(s, r)|
    ensures r in s.relays && BatchOf(s, r)[k].id in s.rows
    ensures s.rows[BatchOf(s, r)[k].id].occurredAt == BatchOf(s, r)[k].occurredAt
  {
    assert BatchKnown(s.rows, s.relays[r].batch);
    assert AsEnqueued(BatchOf(s, r)[k]).occurredAt == AsEnqueued(s.rows[BatchOf(s, r)[k].id]).occurredAt;
  }

  /** A batch is that of a claim made now, or the one before. */
  lemma BatchOrigin(cluster: Cluster, s: State, a: Action, r: nat)
    requires Enabled(s, a) && BatchOf(Next(cluster, s, a), r) != [] && a != Open(r, BatchOf(Next(cluster, s, a), r))
    ensures BatchOf(s, r) == BatchOf(Next(cluster, s, a), r)
    ensures forall v :: SightOf(Watch(s, v, a), r) == SightOf(v, r)
  {
    BatchStep(cluster, s, a, r);
  }

  lemma OlderInBatch(cluster: Cluster, s: State, v: View, a: Action, r: nat, k: nat, id: string)
    requires Inv(cluster, s) && OlderPresent(s, v) && Enabled(s, a) && InTime(s, a)
    requires var s' := Next(cluster, s, a);
             && r in s'.relays && k < |BatchOf(s', r)| && id in s'.rows
             && s'.rows[id].occurredAt < BatchOf(s', r)[k].occurredAt
    ensures id in SightOf(Watch(s, v, a), r).present
  {
    StepAges(cluster, s, a);
    if a != Open(r, BatchOf(Next(cluster, s, a), r)) {
      BatchOrigin(cluster, s, a, r);
      BatchAge(cluster, s, r, k);
    }
  }

  lemma OlderTried(cluster: Cluster, s: State, v: View, a: Action, i: nat, id: string)
    requires Inv(cluster, s) && OlderPresent(s, v) && Enabled(s, a) && InTime(s, a)
    requires var s' := Next(cluster, s, a);
             && i < |s'.history| == |Watch(s, v, a).sights| && id in s'.rows && s'.history[i].id in s'.rows
             && s'.rows[id].occurredAt < s'.rows[s'.history[i].id].occurredAt
    ensures id in Watch(s, v, a).sights[i].present
  {
    StepAges(cluster, s, a);
    if a.Publish? && i == |s.history| {
      var relay := s.relays[a.relay];
      assert AsEnqueued(Current(relay)).occurredAt == AsEnqueued(s.rows[Current(relay).id]).occurredAt;
      assert BatchOf(s, a.relay)[relay.next] == Current(relay);
    } else {
      assert Next(cluster, s, a).history[i] == s.history[i];
      assert s.history[i].id in s.rows;
    }
  }

  lemma StepPresent(cluster: Cluster, s: State, v: View, a: Action)
    requires Inv(cluster, s) && OlderPresent(s, v) && Enabled(s, a) && InTime(s, a)
    ensures OlderPresent(Next(cluster, s, a), Watch(s, v, a))
  {
    var s', v' := Next(cluster, s, a), Watch(s, v, a);
    HistoryLength(cluster, s, a);
    forall r, k, id | r in s'.relays && 0 <= k < |BatchOf(s', r)| && id in s'.rows
      && s'.rows[id].occurredAt < BatchOf(s', r)[k].occurredAt
      ensures id in SightOf(v', r).present
    {
      OlderInBatch(cluster, s, v, a, r, k, id);
    }
    forall i, id | 0 <= i < |s'.history| && id in s'.rows && s'.history[i].id in s'.rows
      && s'.rows[id].occurredAt < s'.rows[s'.history[i].id].occurredAt
      ensures id in v'.sights[i].present
    {
      OlderTried(cluster, s, v, a, i, id);
    }
  }

  lemma HistoryLength(cluster: Cluster, s: State, a: Action)
    requires Enabled(s, a)
    ensures |Next(cluster, s, a).history| == |s.history| + if a.Publish? then 1 else 0
  {
  }

  lemma EnqueuesStayInOrder(cluster: Cluster, s: State, actions: seq<Action>)
    requires actions != [] && Enabled(s, actions[0]) && EnqueuesInOrder(s.rows, actions)
    ensures InTime(s, actions[0])
    ensures EnqueuesInOrder(Next(cluster, s, actions[0]).rows, actions[1..])
  {
    var rows := Next(cluster, s, actions[0]).rows;
    StepAges(cluster, s, actions[0]);
    forall id, j | id in rows && 0 <= j < |actions[1..]| && actions[1..][j].Enqueue?
      ensures rows[id].occurredAt <= actions[1..][j].occurredAt
    {
      assert actions[1..][j] == actions[j + 1];
    }
  }

  lemma {:induction false} RunPresent(cluster: Cluster, s: State, v: View, actions: seq<Action>)
    requires IsRun(cluster, s, actions) && EnqueuesInOrder(s.rows, actions)
    requires Inv(cluster, s) && OlderPresent(s, v)
    ensures OlderPresent(Final(cluster, s, actions), WatchAll(cluster, s, v, actions))
    decreases |actions|
  {
    if actions != [] {
      EnqueuesStayInOrder(cluster, s, actions);
      StepKeeps(cluster, s, actions[0]);
      StepPresent(cluster, s, v, actions[0]);
      RunPresent(cluster, Next(cluster, s, actions[0]), Watch(s, v, actions[0]), actions[1..]);
    }
  }

  /** A run from the empty system in which rows appear in order of time. */
  ghost predicate OrderedRun(cluster: Cluster, actions: seq<Action>) {
    IsRun(cluster, INITIAL, actions) && EnqueuesInOrder(map[], actions)
  }

  /** Then an inversion needs a failure or a lock. */
  lemma OrderedInversion(cluster: Cluster, actions: seq<Action>, a: string, i: nat)
    requires OrderedRun(cluster, actions) && YoungerAppended(Final(cluster, INITIAL, actions), a, i)
    ensures var history, sights := Final(cluster, INITIAL, actions).history, Sights(cluster, actions);
            && |sights| == |history|
            && (!AppendedBefore(history, i, a) <==>
                OnlyFailures(history, i, a) || (!TriedBefore(history, i, a) && a in sights[i].locked))
  {
    InversionNeedsCause(cluster, actions, a, i);
    InitialKeeps(cluster);
    RunPresent(cluster, INITIAL, NOTHING_SEEN, actions);
  }

  // ---- And one relay ----

  /** A run of process `r` alone. */
  ghost predicate SoloRun(cluster: Cluster, actions: seq<Action>, r: nat) {
    OrderedRun(cluster, actions) && OnlyRelay(actions, r)
  }

  ghost predicate NothingLocked(v: View) {
    && (forall q :: q in v.last ==> v.last[q].locked == {})
    && (forall i :: 0 <= i < |v.sights| ==> v.sights[i].locked == {})
  }

  lemma {:induction false} SoloLocks(cluster: Cluster, s: State, v: View, actions: seq<Action>, r: nat)
    requires IsRun(cluster, s, actions) && OnlyRelay(actions, r) && OthersIdle(s, r) && NothingLocked(v)
    ensures NothingLocked(WatchAll(cluster, s, v, actions))
    decreases |actions|
  {
    if actions != [] {
      assert By(actions[0], r);
      assert actions[0].Open? ==> Locked(s) == {};
      forall i | 0 <= i < |actions[1..]| ensures By(actions[1..][i], r) {
        assert By(actions[i + 1], r);
      }
      SoloLocks(cluster, Next(cluster, s, actions[0]), Watch(s, v, actions[0]), actions[1..], r);
    }
  }

  /** With one relay, in a run of any order, an inversion needs a failure or a row that appeared late. */
  lemma SoloInversion(cluster: Cluster, actions: seq<Action>, r: nat, a: string, i: nat)
    requires IsRun(cluster, INITIAL, actions) && OnlyRelay(actions, r)
    requires YoungerAppended(Final(cluster, INITIAL, actions), a, i)
    ensures var history, sights := Final(cluster, INITIAL, actions).history, Sights(cluster, actions);
            && |sights| == |history|
            && (!AppendedBefore(history, i, a) <==>
                OnlyFailures(history, i, a) || (!TriedBefore(history, i, a) && a !in sights[i].present))
  {
    InversionNeedsCause(cluster, actions, a, i);
    SoloLocks(cluster, INITIAL, NOTHING_SEEN, actions, r);
  }

  /** No row is tried before each strictly older row has been tried. */
  ghost predicate TriedInOrder(rows: Table, history: seq<Attempt>) {
    forall i, id | 0 <= i < |history| && id in rows && history[i].id in rows ::
      rows[id].occurredAt < rows[history[i].id].occurredAt ==> TriedBefore(history, i, id)
  }

  /** One relay and rows in order of time: every older row is shown to every claim. */
  lemma SoloInOrder(cluster: Cluster, actions: seq<Action>, r: nat)
    requires SoloRun(cluster, actions, r)
    ensures var s := Final(cluster, INITIAL, actions); TriedInOrder(s.rows, s.history) && AttemptsKnown(s)
  {
    TriesInOrder(cluster, actions);
    SoloLocks(cluster, INITIAL, NOTHING_SEEN, actions, r);
    InitialKeeps(cluster);
    RunPresent(cluster, INITIAL, NOTHING_SEEN, actions);
  }

  /** So there an inversion needs a failure, and nothing else causes one. */
  lemma InversionNeedsFailure(cluster: Cluster, actions: seq<Action>, r: nat, a: string, i: nat)
    requires SoloRun(cluster, actions, r) && YoungerAppended(Final(cluster, INITIAL, actions), a, i)
    ensures var history := Final(cluster, INITIAL, actions).history;
            !AppendedBefore(history, i, a) <==> OnlyFailures(history, i, a)
  {
    SoloInOrder(cluster, actions, r);
  }

  ghost predicate AllAppended(history: seq<Attempt>) {
    forall i :: 0 <= i < |history| ==> history[i].send.Appended()
  }

  ghost predicate OldestFirst(rows: Table, ids: seq<string>) {
    forall i, j :: 0 <= i < j < |ids| && ids[i] in rows && ids[j] in rows ==>
      rows[ids[i]].occurredAt <= rows[ids[j]].occurredAt
  }

  lemma FrontInOrder(rows: Table, history: seq<Attempt>)
    requires history != [] && TriedInOrder(rows, history)
    ensures TriedInOrder(rows, history[..|history| - 1])
  {
    var front := history[..|history| - 1];
    forall i, id | 0 <= i < |front| && id in rows && front[i].id in rows
      && rows[id].occurredAt < rows[front[i].id].occurredAt
      ensures TriedBefore(front, i, id)
    {
      assert front[i] == history[i];
      assert TriedBefore(history, i, id);
      var j :| 0 <= j < i && history[j].id == id;
      assert front[j].id == id;
    }
  }

  /** When every publish call appends, the first records of each partition are in order of age. */
  lemma {:induction false} PartitionInOrder(cluster: Cluster, rows: Table, history: seq<Attempt>, p: Partition)
    requires TriedInOrder(rows, history) && AllAppended(history)
    requires forall i :: 0 <= i < |history| ==> history[i].id in rows
    ensures OldestFirst(rows, FirstOccurrences(AppendedIds(cluster, rows, history, p)))
  {
    if history != [] {
      var front, last := history[..|history| - 1], history[|history| - 1];
      FrontInOrder(rows, history);
      PartitionInOrder(cluster, rows, front, p);
      var ids := AppendedIds(cluster, rows, front, p);
      if Route(cluster, rows[last.id]) == p {
        FirstOccurrencesAppend(ids, last.id);
        if last.id !in ids {
          FirstOccurrencesMembers(ids);
          forall other | other in ids ensures other in rows && rows[other].occurredAt <= rows[last.id].occurredAt {
            NoneYounger(cluster, rows, history, p, other);
          }
          AppendYoungest(rows, FirstOccurrences(ids), last.id);
        } else {
          assert FirstOccurrences(ids) + [] == FirstOccurrences(ids);
        }
      } else {
        assert AppendedIds(cluster, rows, history, p) == ids;
      }
    }
  }

  lemma AppendYoungest(rows: Table, ids: seq<string>, last: string)
    requires OldestFirst(rows, ids) && last in rows
    requires forall id :: id in ids ==> id in rows && rows[id].occurredAt <= rows[last].occurredAt
    ensures OldestFirst(rows, ids + [last])
  {
  }

  /** A row that comes into its partition last is no older than any row already there. */
  lemma NoneYounger(cluster: Cluster, rows: Table, history: seq<Attempt>, p: Partition, other: string)
    requires history != [] && TriedInOrder(rows, history) && AllAppended(history)
    requires forall i :: 0 <= i < |history| ==> history[i].id in rows
    requires var front, last := history[..|history| - 1], history[|history| - 1];
             && Route(cluster, rows[last.id]) == p
             && last.id !in AppendedIds(cluster, rows, front, p)
             && other in AppendedIds(cluster, rows, front, p)
    ensures other in rows && rows[other].occurredAt <= rows[history[|history| - 1].id].occurredAt
  {
    var front, last := history[..|history| - 1], history[|history| - 1];
    AppendedIdsRouted(cluster, rows, front, p);
    RecordedInLog(cluster, rows, front, other);
    var i :| 0 <= i < |front| && front[i].id == other && front[i].send.Appended();
    assert history[i] == front[i];
    if rows[last.id].occurredAt < rows[other].occurredAt {
      assert TriedBefore(history, i, last.id);
      var j :| 0 <= j < i && history[j].id == last.id;
      assert front[j] == history[j] && Recorded(front, last.id);
    }
    RecordedInLog(cluster, rows, front, last.id);
  }

  /** A solo run in which no publish call fails: in every partition, and hence for every aggregate
      within a topic, events first appear in order of `occurredAt`. */
  lemma FailureFreeOrder(cluster: Cluster, actions: seq<Action>, r: nat, p: Partition)
    requires SoloRun(cluster, actions, r)
    requires AllAppended(Final(cluster, INITIAL, actions).history)
    ensures var s := Final(cluster, INITIAL, actions);
            OldestFirst(s.rows, FirstOccurrences(AppendedIds(cluster, s.rows, s.history, p)))
  {
    SoloInOrder(cluster, actions, r);
    var s := Final(cluster, INITIAL, actions);
    PartitionInOrder(cluster, s.rows, s.history, p);
  }
}
