/** Runs of one or two relays in which counters and order go wrong. */
module RelayExamples {
  import opened Wrappers
  import opened Sequences
  import opened Outbox
  import opened Kafka
  import opened RelaySystem
  import opened RelaySafety
  import opened RelayAttempts
  import opened RelayOrder

  // ---- Counters ----

  const SAMPLE: EnqueueEventInput := EnqueueEventInput("listing", "l1", "listing.published", None, JNull, None)

  lemma OnlyClaim(rows: Table, id: string)
    requires rows.Keys == {id} && rows[id].id == id && rows[id].publishedAt.None?
    ensures IsClaim(rows, {}, [rows[id]])
  {
    assert [rows[id]][0].id in Ids([rows[id]]);
  }

  /** No publish call, write or process fails. */
  predicate FailureFree(actions: seq<Action>) {
    forall i :: 0 <= i < |actions| ==> Fine(actions[i])
  }

  predicate Fine(a: Action) {
    match a
    case Publish(_, send, _) => send.Acknowledged?
    case Mark(_, write, _, _) => write.Written?
    case Increment(_, write) => write.Written?
    case Note(_, write) => write.Written?
    case Crash(_) => false
    case _ => true
  }

  /** Runs the system one action further. */
  lemma Then(cluster: Cluster, actions: seq<Action>, s: State, a: Action) returns (longer: seq<Action>, next: State)
    requires IsRun(cluster, INITIAL, actions) && Final(cluster, INITIAL, actions) == s && Enabled(s, a)
    ensures longer == actions + [a] && next == Next(cluster, s, a)
    ensures IsRun(cluster, INITIAL, longer) && Final(cluster, INITIAL, longer) == next
    ensures FailureFree(actions) && Fine(a) ==> FailureFree(longer)
  {
    longer, next := actions + [a], Next(cluster, s, a);
    RunAppend(cluster, INITIAL, actions, a);
  }

  /** One row, enqueued and claimed by relay 0. */
  lemma Claimed(cluster: Cluster) returns (actions: seq<Action>, s: State, row: OutboxEvent)
    ensures row == NewEvent("e1", SAMPLE, 0)
    ensures IsRun(cluster, INITIAL, actions) && Final(cluster, INITIAL, actions) == s && FailureFree(actions)
    ensures s == State(map["e1" := row], map[], map[0 := Publishing([row], 0)], [], [])
  {
    row := NewEvent("e1", SAMPLE, 0);
    actions, s := Then(cluster, [], INITIAL, Enqueue("e1", SAMPLE, 0));
    OnlyClaim(s.rows, "e1");
    assert Locked(s) == {};
    actions, s := Then(cluster, actions, s, Open(0, [row]));
    actions, s := Then(cluster, actions, s, Commit(0));
  }

  /** One row, claimed and published by relay 0. */
  lemma RowPublished(cluster: Cluster) returns (actions: seq<Action>, s: State, row: OutboxEvent)
    ensures row == NewEvent("e1", SAMPLE, 0)
    ensures IsRun(cluster, INITIAL, actions) && Final(cluster, INITIAL, actions) == s
    ensures s.rows == map["e1" := row] && s.relays == map[0 := Marking([row], 0)]
    ensures s.history == [Attempt("e1", Acknowledged)]
  {
    actions, s, row := Claimed(cluster);
    actions, s := Then(cluster, actions, s, Publish(0, Acknowledged, ""));
  }

  /** Its success write takes effect but loses its reply. */
  lemma ReplyLost(cluster: Cluster) returns (actions: seq<Action>, s: State, row: OutboxEvent)
    ensures row == NewEvent("e1", SAMPLE, 0)
    ensures IsRun(cluster, INITIAL, actions) && Final(cluster, INITIAL, actions) == s
    ensures s.rows.Keys == {"e1"} && s.rows["e1"].attempts == 1
    ensures s.relays == map[0 := Recording([row], 0, "timeout")]
    ensures s.history == [Attempt("e1", Acknowledged)]
  {
    actions, s, row := RowPublished(cluster);
    assert Locked(s) == {};
    actions, s := Then(cluster, actions, s, Mark(0, WrittenButFailed, 1, "timeout"));
  }

  /** A success write that takes effect but is reported as failed is followed by the increment:
      one publish call, counter at two. */
  lemma LostReplyOvercounts(cluster: Cluster) returns (actions: seq<Action>)
    ensures IsRun(cluster, INITIAL, actions)
    ensures var s := Final(cluster, INITIAL, actions);
            "e1" in s.rows && s.rows["e1"].attempts == 2 && Calls(s, "e1") == 1
  {
    var s, row;
    actions, s, row := ReplyLost(cluster);
    assert Locked(s) == {};
    actions, s := Then(cluster, actions, s, Increment(0, Written));
    assert Tried(s.history) == ["e1"];
    CountAppend<string>([], "e1", "e1");
  }

  /** Once a claim commits its rows are free, so a second relay can take the same row. */
  lemma SharedRow(cluster: Cluster) returns (actions: seq<Action>, s: State, row: OutboxEvent)
    ensures row == NewEvent("e1", SAMPLE, 0)
    ensures IsRun(cluster, INITIAL, actions) && Final(cluster, INITIAL, actions) == s && FailureFree(actions)
    ensures s == State(map["e1" := row], map[], map[0 := Publishing([row], 0), 1 := Publishing([row], 0)], [], [])
  {
    actions, s, row := Claimed(cluster);
    OnlyClaim(s.rows, "e1");
    assert Locked(s) == {};
    actions, s := Then(cluster, actions, s, Open(1, [row]));
    actions, s := Then(cluster, actions, s, Commit(1));
  }

  lemma PublishedTwice(cluster: Cluster, row: OutboxEvent)
    ensures LogOf(Append(map[], Route(cluster, row), RecordFor(row)), Route(cluster, row)) == [RecordFor(row)]
    ensures LogOf(AfterSend(cluster, AfterSend(cluster, map[], row, Acknowledged), row, Acknowledged),
                  Route(cluster, row))
         == [RecordFor(row), RecordFor(row)]
  {
  }

  /** Relay 0 publishes it. */
  lemma PublishedByZero(cluster: Cluster) returns (actions: seq<Action>, s: State, row: OutboxEvent)
    ensures row == NewEvent("e1", SAMPLE, 0)
    ensures IsRun(cluster, INITIAL, actions) && Final(cluster, INITIAL, actions) == s && FailureFree(actions)
    ensures s.rows == map["e1" := row] && s.bookings == []
    ensures s.relays == map[0 := Marking([row], 0), 1 := Publishing([row], 0)]
    ensures s.logs == AfterSend(cluster, map[], row, Acknowledged)
  {
    actions, s, row := SharedRow(cluster);
    actions, s := Then(cluster, actions, s, Publish(0, Acknowledged, ""));
  }

  /** Both relays publish it. */
  lemma SharedRowPublished(cluster: Cluster) returns (actions: seq<Action>, s: State, row: OutboxEvent)
    ensures row == NewEvent("e1", SAMPLE, 0)
    ensures IsRun(cluster, INITIAL, actions) && Final(cluster, INITIAL, actions) == s && FailureFree(actions)
    ensures s.rows == map["e1" := row] && s.bookings == []
    ensures s.relays == map[0 := Marking([row], 0), 1 := Marking([row], 0)]
    ensures LogOf(s.logs, Route(cluster, row)) == [RecordFor(row), RecordFor(row)]
  {
    actions, s, row := PublishedByZero(cluster);
    actions, s := Then(cluster, actions, s, Publish(1, Acknowledged, ""));
    PublishedTwice(cluster, row);
  }

  /** Relay 0 marks it. */
  lemma MarkedByZero(cluster: Cluster) returns (actions: seq<Action>, s: State, row: OutboxEvent)
    ensures row == NewEvent("e1", SAMPLE, 0)
    ensures IsRun(cluster, INITIAL, actions) && Final(cluster, INITIAL, actions) == s && FailureFree(actions)
    ensures s.rows == map["e1" := row.(publishedAt := Some(1), attempts := 1)] && s.bookings == ["e1"]
    ensures s.relays == map[0 := Publishing([row], 1), 1 := Marking([row], 0)]
    ensures LogOf(s.logs, Route(cluster, row)) == [RecordFor(row), RecordFor(row)]
  {
    actions, s, row := SharedRowPublished(cluster);
    assert Locked(s) == {};
    actions, s := Then(cluster, actions, s, Mark(0, Written, 1, ""));
  }

  /** Relay 1 marks it, too, on a stale snapshot. */
  lemma MarkedByBoth(cluster: Cluster) returns (actions: seq<Action>, s: State, row: OutboxEvent)
    ensures row == NewEvent("e1", SAMPLE, 0)
    ensures IsRun(cluster, INITIAL, actions) && Final(cluster, INITIAL, actions) == s && FailureFree(actions)
    ensures s.rows == map["e1" := row.(publishedAt := Some(2), attempts := 1)] && s.bookings == ["e1", "e1"]
    ensures LogOf(s.logs, Route(cluster, row)) == [RecordFor(row), RecordFor(row)]
  {
    actions, s, row := MarkedByZero(cluster);
    assert Locked(s) == {};
    actions, s := Then(cluster, actions, s, Mark(1, Written, 2, ""));
  }

  /** Two relays, no failure: one row, two records, and a counter of one after two writes. */
  lemma TwoRelaysShareRow(cluster: Cluster) returns (actions: seq<Action>)
    ensures IsRun(cluster, INITIAL, actions) && FailureFree(actions)
    ensures var s := Final(cluster, INITIAL, actions);
            && "e1" in s.rows && s.rows["e1"].attempts == 1 && Bookings(s, "e1") == 2
            && MarksStale(cluster, INITIAL, actions, "e1")
            && LogOf(s.logs, Route(cluster, s.rows["e1"])) == [RecordFor(s.rows["e1"]), RecordFor(s.rows["e1"])]
  {
    var s, row;
    actions, s, row := MarkedByBoth(cluster);
    CountAppend<string>([], "e1", "e1");
    CountAppend<string>(["e1"], "e1", "e1");
    assert ["e1"] + ["e1"] == ["e1", "e1"];
    DuplicatesAgree(cluster, row, s.rows["e1"]);
    AttemptsExact(cluster, actions, "e1");
  }

  // ---- Order ----

  lemma PairClaim(rows: Table, first: string, second: string)
    requires first != second && rows.Keys == {first, second}
    requires rows[first].id == first && rows[second].id == second
    requires rows[first].publishedAt.None? && rows[second].publishedAt.None?
    requires rows[first].occurredAt <= rows[second].occurredAt
    ensures IsClaim(rows, {}, [rows[first], rows[second]])
  {
    var batch := [rows[first], rows[second]];
    assert batch[0].id in Ids(batch) && batch[1].id in Ids(batch);
  }

  lemma LockedClaim(rows: Table, locked: string, free: string)
    requires locked != free && rows.Keys == {locked, free} && rows[free].id == free && rows[free].publishedAt.None?
    ensures IsClaim(rows, {locked}, [rows[free]])
  {
    assert [rows[free]][0].id in Ids([rows[free]]);
  }

  /** The younger of two events of one aggregate is in their partition, the older one is not. */
  ghost predicate OutOfOrder(cluster: Cluster, s: State, older: OutboxEvent, younger: OutboxEvent) {
    && older.aggregateId == younger.aggregateId && older.occurredAt < younger.occurredAt
    && older.id in s.rows && AsEnqueued(s.rows[older.id]) == older
    && younger.id in s.rows && AsEnqueued(s.rows[younger.id]) == younger
    && Route(cluster, older) == Route(cluster, younger)
    && LogOf(s.logs, Route(cluster, older)) == [RecordFor(younger)]
  }

  const OLDER: OutboxEvent := NewEvent("e1", SAMPLE, 0)
  const YOUNGER: OutboxEvent := NewEvent("e2", SAMPLE, 1)

  lemma BothClaimed(cluster: Cluster) returns (actions: seq<Action>, s: State)
    ensures actions == [Enqueue("e1", SAMPLE, 0), Enqueue("e2", SAMPLE, 1), Open(0, [OLDER, YOUNGER]), Commit(0)]
    ensures IsRun(cluster, INITIAL, actions) && Final(cluster, INITIAL, actions) == s
    ensures s == State(map["e1" := OLDER, "e2" := YOUNGER], map[], map[0 := Publishing([OLDER, YOUNGER], 0)], [], [])
  {
    actions, s := Then(cluster, [], INITIAL, Enqueue("e1", SAMPLE, 0));
    actions, s := Then(cluster, actions, s, Enqueue("e2", SAMPLE, 1));
    PairClaim(s.rows, "e1", "e2");
    assert Locked(s) == {};
    actions, s := Then(cluster, actions, s, Open(0, [OLDER, YOUNGER]));
    actions, s := Then(cluster, actions, s, Commit(0));
  }

  const FAILED: OutboxEvent := OLDER.(attempts := 1)

  /** Publishing the older event fails. */
  lemma OlderFails(cluster: Cluster) returns (actions: seq<Action>, s: State)
    ensures SoloRun(cluster, actions, 0) && Final(cluster, INITIAL, actions) == s
    ensures s == State(map["e1" := OLDER, "e2" := YOUNGER], map[],
                       map[0 := Recording([OLDER, YOUNGER], 0, "no broker")], [Attempt("e1", NotAppended)], [])
  {
    actions, s := BothClaimed(cluster);
    actions, s := Then(cluster, actions, s, Publish(0, NotAppended, "no broker"));
  }

  /** Its failure is booked. */
  lemma OlderBooked(cluster: Cluster) returns (actions: seq<Action>, s: State)
    ensures SoloRun(cluster, actions, 0) && Final(cluster, INITIAL, actions) == s
    ensures s == State(map["e1" := FAILED, "e2" := YOUNGER], map[],
                       map[0 := Noting([OLDER, YOUNGER], 0, "no broker")], [Attempt("e1", NotAppended)], ["e1"])
  {
    actions, s := OlderFails(cluster);
    assert Locked(s) == {};
    actions, s := ThenSolo(cluster, actions, s, Increment(0, Written));
  }

  /** And its error is noted. */
  lemma OlderNoted(cluster: Cluster) returns (actions: seq<Action>, s: State)
    ensures SoloRun(cluster, actions, 0) && Final(cluster, INITIAL, actions) == s
    ensures s.rows == map["e1" := FAILED.(lastError := Some("no broker")), "e2" := YOUNGER]
    ensures s.logs == map[] && s.relays == map[0 := Publishing([OLDER, YOUNGER], 1)]
  {
    actions, s := OlderBooked(cluster);
    assert Locked(s) == {};
    actions, s := ThenSolo(cluster, actions, s, Note(0, Written));
  }

  /** Runs a solo run one action of the relay further. */
  lemma ThenSolo(cluster: Cluster, actions: seq<Action>, s: State, a: Action) returns (longer: seq<Action>, next: State)
    requires SoloRun(cluster, actions, 0) && Final(cluster, INITIAL, actions) == s && Enabled(s, a)
    requires !a.Enqueue? && a.relay == 0
    ensures next == Next(cluster, s, a) && SoloRun(cluster, longer, 0) && Final(cluster, INITIAL, longer) == next
  {
    longer, next := Then(cluster, actions, s, a);
    forall i | 0 <= i < |longer| ensures By(longer[i], 0) {
      assert i < |actions| ==> longer[i] == actions[i] && By(actions[i], 0);
    }
  }

  lemma YoungerAlone(cluster: Cluster, logs: Logs)
    requires logs == map[]
    ensures Route(cluster, OLDER) == Route(cluster, YOUNGER)
    ensures LogOf(AfterSend(cluster, logs, YOUNGER, Acknowledged), Route(cluster, OLDER)) == [RecordFor(YOUNGER)]
  {
  }

  /** One relay, one failed publish call: the batch goes on and publishes the younger event first. */
  lemma FailureInverts(cluster: Cluster) returns (actions: seq<Action>)
    ensures SoloRun(cluster, actions, 0)
    ensures OutOfOrder(cluster, Final(cluster, INITIAL, actions), OLDER, YOUNGER)
  {
    var s;
    actions, s := OlderNoted(cluster);
    YoungerAlone(cluster, s.logs);
    actions, s := ThenSolo(cluster, actions, s, Publish(0, Acknowledged, ""));
  }

  /** Relay 0 has the older event locked when the younger one is enqueued. */
  lemma OlderLocked(cluster: Cluster) returns (actions: seq<Action>, s: State)
    ensures actions == [Enqueue("e1", SAMPLE, 0), Open(0, [OLDER]), Enqueue("e2", SAMPLE, 1)]
    ensures IsRun(cluster, INITIAL, actions) && Final(cluster, INITIAL, actions) == s
    ensures s == State(map["e1" := OLDER, "e2" := YOUNGER], map[], map[0 := Claiming([OLDER])], [], [])
  {
    actions, s := Then(cluster, [], INITIAL, Enqueue("e1", SAMPLE, 0));
    OnlyClaim(s.rows, "e1");
    assert Locked(s) == {};
    actions, s := Then(cluster, actions, s, Open(0, [OLDER]));
    actions, s := Then(cluster, actions, s, Enqueue("e2", SAMPLE, 1));
  }

  lemma LockedByZero(s: State)
    requires s.relays == map[0 := Claiming([OLDER])]
    ensures Locked(s) == {"e1"}
  {
    assert [OLDER][0].id in Ids([OLDER]);
    assert 0 in s.relays;
  }

  /** Relay 1 claims what is left. */
  lemma RestOpened(cluster: Cluster) returns (actions: seq<Action>, s: State)
    ensures OrderedRun(cluster, actions) && FailureFree(actions) && Final(cluster, INITIAL, actions) == s
    ensures s == State(map["e1" := OLDER, "e2" := YOUNGER], map[],
                       map[0 := Claiming([OLDER]), 1 := Claiming([YOUNGER])], [], [])
  {
    actions, s := OlderLocked(cluster);
    LockedByZero(s);
    LockedClaim(s.rows, "e1", "e2");
    actions, s := Then(cluster, actions, s, Open(1, [YOUNGER]));
  }

  lemma ClaimedApart(cluster: Cluster) returns (actions: seq<Action>, s: State)
    ensures OrderedRun(cluster, actions) && FailureFree(actions) && Final(cluster, INITIAL, actions) == s
    ensures s == State(map["e1" := OLDER, "e2" := YOUNGER], map[],
                       map[0 := Claiming([OLDER]), 1 := Publishing([YOUNGER], 0)], [], [])
  {
    actions, s := RestOpened(cluster);
    actions, s := Then(cluster, actions, s, Commit(1));
  }

  /** Two relays, no failure: one skips the row the other still has locked, and is faster. */
  lemma TwoRelaysInvert(cluster: Cluster) returns (actions: seq<Action>)
    ensures OrderedRun(cluster, actions) && FailureFree(actions)
    ensures OutOfOrder(cluster, Final(cluster, INITIAL, actions), OLDER, YOUNGER)
  {
    var s;
    actions, s := ClaimedApart(cluster);
    YoungerAlone(cluster, s.logs);
    actions, s := Then(cluster, actions, s, Publish(1, Acknowledged, ""));
  }

  /** The younger event is there first, and claimed. */
  lemma YoungerClaimed(cluster: Cluster) returns (actions: seq<Action>, s: State)
    ensures actions == [Enqueue("e2", SAMPLE, 1), Open(0, [YOUNGER]), Commit(0)] && FailureFree(actions)
    ensures IsRun(cluster, INITIAL, actions) && Final(cluster, INITIAL, actions) == s
    ensures s == State(map["e2" := YOUNGER], map[], map[0 := Publishing([YOUNGER], 0)], [], [])
  {
    actions, s := Then(cluster, [], INITIAL, Enqueue("e2", SAMPLE, 1));
    OnlyClaim(s.rows, "e2");
    assert Locked(s) == {};
    actions, s := Then(cluster, actions, s, Open(0, [YOUNGER]));
    actions, s := Then(cluster, actions, s, Commit(0));
  }

  /** It is published. */
  lemma YoungerPublished(cluster: Cluster) returns (actions: seq<Action>, s: State)
    ensures actions == [Enqueue("e2", SAMPLE, 1), Open(0, [YOUNGER]), Commit(0), Publish(0, Acknowledged, "")]
    ensures IsRun(cluster, INITIAL, actions) && Final(cluster, INITIAL, actions) == s && FailureFree(actions)
    ensures s.rows == map["e2" := YOUNGER] && s.logs == AfterSend(cluster, map[], YOUNGER, Acknowledged)
  {
    actions, s := YoungerClaimed(cluster);
    actions, s := Then(cluster, actions, s, Publish(0, Acknowledged, ""));
  }

  /** One relay, no failure: the older event's transaction began earlier and commits later. */
  lemma LateCommitInverts(cluster: Cluster) returns (actions: seq<Action>)
    ensures IsRun(cluster, INITIAL, actions) && OnlyRelay(actions, 0) && FailureFree(actions)
    ensures OutOfOrder(cluster, Final(cluster, INITIAL, actions), OLDER, YOUNGER)
  {
    var s;
    actions, s := YoungerPublished(cluster);
    YoungerAlone(cluster, map[]);
    actions, s := Then(cluster, actions, s, Enqueue("e1", SAMPLE, 0));
  }
}
