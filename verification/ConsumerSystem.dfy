/** The consumer group as a transition system: every partition is processed serially, partitions
    run interleaved over one shared ledger, and any of them may crash and be redelivered. */
module ConsumerSystem {
  import opened Wrappers
  import opened Sets
  import opened Sequences
  import opened Outbox
  import opened Kafka
  import opened ConsumerService

  /** Where the processing of a partition's current record stands. */
  datatype Phase =
    | Ready
    | Handling(id: string, eventType: string)   // not in the ledger; the handler has not completed
    | Inserting(id: string, eventType: string)  // the handler has completed; the insert has not

  /** `position` is the next record to process, `committed` the offset a restart goes back to.
      `settled` is the number of leading records that need no more processing; it is not stored
      by the program. */
  datatype Cursor = Cursor(position: nat, committed: nat, settled: nat, phase: Phase)

  /** A completed handler call. */
  datatype Call = Call(partition: Partition, id: string)

  /** `calls` lists the completed handler calls in order; `gaps` lists, for each failure that fell
      between a handler call and its ledger entry, the id. Neither is stored by the program. */
  datatype State = State(
    cursors: map<Partition, Cursor>,
    ledger: Ledger,
    calls: seq<Call>,
    gaps: seq<string>)

  const INITIAL: State := State(map[], map[], [], [])

  datatype Action =
    | Look(partition: Partition)
    | Handle(partition: Partition, ok: bool)
    | Insert(partition: Partition, write: Write, group: string)
    | Commit(partition: Partition, offset: nat)
    | Restart(partition: Partition)

  function CursorOf(s: State, p: Partition): Cursor {
    if p in s.cursors then s.cursors[p] else Cursor(0, 0, 0, Ready)
  }

  predicate Enabled(logs: Logs, s: State, a: Action) {
    var c := CursorOf(s, a.partition);
    match a
    case Look(p) => c.phase.Ready? && c.position < |LogOf(logs, p)|
    case Handle(_, _) => c.phase.Handling?
    case Insert(_, _, _) => c.phase.Inserting?
    case Commit(_, offset) => c.committed <= offset <= c.position
    case Restart(_) => true
  }

  function Put(s: State, p: Partition, c: Cursor): State {
    s.(cursors := s.cursors[p := c])
  }

  function Max(a: nat, b: nat): nat {
    if a < b then b else a
  }

  /** The current record needs no more processing. */
  function Settle(c: Cursor, advance: bool): Cursor {
    Cursor(if advance then c.position + 1 else c.position, c.committed, Max(c.settled, c.position + 1), Ready)
  }

  function Next(logs: Logs, s: State, a: Action): State
    requires Enabled(logs, s, a)
  {
    var c := CursorOf(s, a.partition);
    match a
    case Look(p) =>
      (match Read(LogOf(logs, p)[c.position].value)
       case Ignore => Put(s, p, Settle(c, true))
       case Reject => Put(s, p, c)
       case Accept(id, eventType) =>
         if id in s.ledger then Put(s, p, Settle(c, true)) else Put(s, p, c.(phase := Handling(id, eventType))))
    case Handle(p, ok) =>
      if ok then
        Put(s, p, c.(phase := Inserting(c.phase.id, c.phase.eventType))).(calls := s.calls + [Call(p, c.phase.id)])
      else Put(s, p, c.(phase := Ready))
    case Insert(p, write, group) =>
      if write.Applied() && c.phase.id !in s.ledger then
        Put(s, p, Settle(c, write.Written?))
          .(ledger := s.ledger[c.phase.id := ConsumedEvent(c.phase.id, c.phase.eventType, group)])
      else
        Put(s, p, c.(phase := Ready)).(gaps := s.gaps + [c.phase.id])
    case Commit(p, offset) => Put(s, p, c.(committed := offset))
    case Restart(p) =>
      var gap := if c.phase.Inserting? then [c.phase.id] else [];
      Put(s, p, c.(position := c.committed, phase := Ready)).(gaps := s.gaps + gap)
  }

  // ---- The invariant, part by part ----

  /** Every settled record is one to ignore or one whose id is in the ledger. */
  ghost predicate SettledBelow(log: seq<Record>, ledger: Ledger, n: nat) {
    n <= |log| &&
    forall k :: 0 <= k < n ==>
      Read(log[k].value).Ignore? || (Read(log[k].value).Accept? && Read(log[k].value).id in ledger)
  }

  ghost predicate CursorValid(log: seq<Record>, ledger: Ledger, c: Cursor) {
    && c.committed <= c.position <= c.settled
    && SettledBelow(log, ledger, c.settled)
    && (!c.phase.Ready? ==>
          && c.position == c.settled < |log|
          && Read(log[c.position].value) == Accept(c.phase.id, c.phase.eventType))
  }

  ghost predicate CursorsValid(logs: Logs, s: State) {
    forall p :: p in s.cursors ==> CursorValid(LogOf(logs, p), s.ledger, s.cursors[p])
  }

  /** The keys of the accepted records, in order. */
  function AcceptedIds(log: seq<Record>): seq<string> {
    if log == [] then []
    else
      var reading := Read(log[|log| - 1].value);
      AcceptedIds(log[..|log| - 1]) + if reading.Accept? then [reading.id] else []
  }

  ghost predicate EntryTraced(logs: Logs, s: State, id: string, p: Partition) {
    && Call(p, id) in s.calls
    && CursorOf(s, p).settled <= |LogOf(logs, p)|
    && id in AcceptedIds(LogOf(logs, p)[..CursorOf(s, p).settled])
  }

  /** Every ledger entry stems from a completed handler call for a settled record. */
  ghost predicate LedgerTraced(logs: Logs, s: State) {
    forall id :: id in s.ledger ==> exists p :: EntryTraced(logs, s, id, p)
  }

  // ---- Offset safety ----

  lemma LogStep(log: seq<Record>, n: nat)
    requires n < |log|
    ensures AcceptedIds(log[..n + 1])
         == AcceptedIds(log[..n]) + if Read(log[n].value).Accept? then [Read(log[n].value).id] else []
  {
    assert log[..n + 1][..n] == log[..n];
  }

  lemma LedgerGrows(log: seq<Record>, ledger: Ledger, ledger': Ledger, c: Cursor)
    requires CursorValid(log, ledger, c) && ledger.Keys <= ledger'.Keys
    ensures CursorValid(log, ledger', c)
  {
  }

  lemma LedgerStep(logs: Logs, s: State, a: Action)
    requires Enabled(logs, s, a)
    ensures s.ledger.Keys <= Next(logs, s, a).ledger.Keys
  {
  }

  lemma SettleValid(log: seq<Record>, ledger: Ledger, c: Cursor, advance: bool)
    requires CursorValid(log, ledger, c) && c.position < |log|
    requires var reading := Read(log[c.position].value); reading.Ignore? || (reading.Accept? && reading.id in ledger)
    ensures CursorValid(log, ledger, Settle(c, advance))
  {
  }

  /** A record whose id is not in the ledger has not been settled. */
  lemma UnsettledHere(log: seq<Record>, ledger: Ledger, c: Cursor)
    requires CursorValid(log, ledger, c) && c.position < |log|
    requires Read(log[c.position].value).Accept? && Read(log[c.position].value).id !in ledger
    ensures c.position == c.settled
  {
  }

  lemma OwnCursor(logs: Logs, s: State, a: Action)
    requires Enabled(logs, s, a) && CursorValid(LogOf(logs, a.partition), s.ledger, CursorOf(s, a.partition))
    ensures CursorValid(LogOf(logs, a.partition), Next(logs, s, a).ledger, CursorOf(Next(logs, s, a), a.partition))
  {
    var log, c, s' := LogOf(logs, a.partition), CursorOf(s, a.partition), Next(logs, s, a);
    LedgerStep(logs, s, a);
    LedgerGrows(log, s.ledger, s'.ledger, c);
    match a {
      case Look(_) =>
        var reading := Read(log[c.position].value);
        if reading.Ignore? || (reading.Accept? && reading.id in s.ledger) {
          SettleValid(log, s.ledger, c, true);
        } else if reading.Accept? {
          UnsettledHere(log, s.ledger, c);
        }
      case Insert(_, write, _) =>
        if write.Applied() && c.phase.id !in s.ledger {
          SettleValid(log, s'.ledger, c, write.Written?);
        }
      case _ =>
    }
  }

  lemma ElsewhereCursor(logs: Logs, s: State, a: Action, p: Partition)
    requires a.partition != p && Enabled(logs, s, a)
    ensures CursorOf(Next(logs, s, a), p) == CursorOf(s, p)
    ensures p in Next(logs, s, a).cursors <==> p in s.cursors
  {
  }

  lemma StepCursors(logs: Logs, s: State, a: Action)
    requires Enabled(logs, s, a) && CursorsValid(logs, s)
    ensures CursorsValid(logs, Next(logs, s, a))
  {
    var s' := Next(logs, s, a);
    LedgerStep(logs, s, a);
    OwnCursor(logs, s, a);
    forall p | p in s'.cursors ensures CursorValid(LogOf(logs, p), s'.ledger, s'.cursors[p]) {
      if p != a.partition {
        ElsewhereCursor(logs, s, a, p);
        LedgerGrows(LogOf(logs, p), s.ledger, s'.ledger, s.cursors[p]);
      }
    }
  }

  lemma OldEntryTraced(logs: Logs, s: State, a: Action, id: string, p: Partition)
    requires Enabled(logs, s, a) && CursorsValid(logs, s) && EntryTraced(logs, s, id, p)
    ensures EntryTraced(logs, Next(logs, s, a), id, p)
  {
    SettledGrows(logs, s, a, p);
  }

  lemma NewEntryTraced(logs: Logs, s: State, a: Action, id: string)
    requires Enabled(logs, s, a) && CursorsValid(logs, s) && CallsPending(s)
    requires id in Next(logs, s, a).ledger && id !in s.ledger
    ensures EntryTraced(logs, Next(logs, s, a), id, a.partition)
  {
    SettledGrows(logs, s, a, a.partition);
    LogStep(LogOf(logs, a.partition), CursorOf(s, a.partition).position);
  }

  lemma StepTraced(logs: Logs, s: State, a: Action)
    requires Enabled(logs, s, a) && CursorsValid(logs, s) && LedgerTraced(logs, s) && CallsPending(s)
    ensures LedgerTraced(logs, Next(logs, s, a))
  {
    forall id | id in Next(logs, s, a).ledger ensures exists p :: EntryTraced(logs, Next(logs, s, a), id, p) {
      if id in s.ledger {
        var p :| EntryTraced(logs, s, id, p);
        OldEntryTraced(logs, s, a, id, p);
      } else {
        NewEntryTraced(logs, s, a, id);
      }
    }
  }

  lemma {:induction false} AcceptedPrefix(log: seq<Record>, m: nat, n: nat)
    requires m <= n <= |log|
    ensures AcceptedIds(log[..m]) <= AcceptedIds(log[..n])
    decreases n
  {
    if m < n {
      AcceptedPrefix(log, m, n - 1);
      LogStep(log, n - 1);
    }
  }

  lemma SettledMonotone(logs: Logs, s: State, a: Action, p: Partition)
    requires Enabled(logs, s, a)
    ensures CursorOf(s, p).settled <= CursorOf(Next(logs, s, a), p).settled
  {
  }

  lemma SettledGrows(logs: Logs, s: State, a: Action, p: Partition)
    requires Enabled(logs, s, a) && CursorsValid(logs, s)
    ensures var s' := Next(logs, s, a);
            && CursorOf(s, p).settled <= CursorOf(s', p).settled <= |LogOf(logs, p)|
            && AcceptedIds(LogOf(logs, p)[..CursorOf(s, p).settled])
                <= AcceptedIds(LogOf(logs, p)[..CursorOf(s', p).settled])
  {
    StepCursors(logs, s, a);
    SettledMonotone(logs, s, a, p);
    CursorInLog(logs, Next(logs, s, a), p);
    AcceptedPrefix(LogOf(logs, p), CursorOf(s, p).settled, CursorOf(Next(logs, s, a), p).settled);
  }

  lemma CursorInLog(logs: Logs, s: State, p: Partition)
    requires CursorsValid(logs, s)
    ensures CursorValid(LogOf(logs, p), s.ledger, CursorOf(s, p))
  {
  }

  /** A handler call that waits for its ledger entry has been recorded. */
  ghost predicate CallsPending(s: State) {
    forall p :: p in s.cursors && s.cursors[p].phase.Inserting? ==> Call(p, s.cursors[p].phase.id) in s.calls
  }

  lemma StepPending(logs: Logs, s: State, a: Action)
    requires Enabled(logs, s, a) && CallsPending(s)
    ensures CallsPending(Next(logs, s, a))
  {
  }

  ghost predicate Inv(logs: Logs, s: State) {
    CursorsValid(logs, s) && CallsPending(s) && LedgerTraced(logs, s)
  }

  lemma StepKeeps(logs: Logs, s: State, a: Action)
    requires Enabled(logs, s, a) && Inv(logs, s)
    ensures Inv(logs, Next(logs, s, a))
  {
    StepCursors(logs, s, a);
    StepPending(logs, s, a);
    StepTraced(logs, s, a);
  }

  lemma GrowthTraced(logs: Logs, logs': Logs, s: State, id: string, p: Partition)
    requires EntryTraced(logs, s, id, p) && LogOf(logs, p) <= LogOf(logs', p)
    ensures EntryTraced(logs', s, id, p)
  {
    assert LogOf(logs', p)[..CursorOf(s, p).settled] == LogOf(logs, p)[..CursorOf(s, p).settled];
  }

  /** The logs may grow at any time. */
  lemma GrowthKeeps(logs: Logs, logs': Logs, s: State)
    requires Inv(logs, s) && Extends(logs, logs')
    ensures Inv(logs', s)
  {
    forall p | p in s.cursors ensures CursorValid(LogOf(logs', p), s.ledger, s.cursors[p]) {
      assert LogOf(logs, p) <= LogOf(logs', p);
    }
    forall id | id in s.ledger ensures exists p :: EntryTraced(logs', s, id, p) {
      var p :| EntryTraced(logs, s, id, p);
      GrowthTraced(logs, logs', s, id, p);
    }
  }

  // ---- No entry twice ----

  /** An id occurs in the records of one partition only. */
  ghost predicate Homed(logs: Logs) {
    forall p, q, id :: id in AcceptedIds(LogOf(logs, p)) && id in AcceptedIds(LogOf(logs, q)) ==> p == q
  }

  /** An event that is being processed has not been entered in the ledger. */
  ghost predicate NotYetEntered(s: State) {
    forall p :: p in s.cursors && !s.cursors[p].phase.Ready? ==> s.cursors[p].phase.id !in s.ledger
  }

  lemma InLog(log: seq<Record>, n: nat, id: string)
    requires n <= |log| && id in AcceptedIds(log[..n])
    ensures id in AcceptedIds(log)
  {
    AcceptedPrefix(log, n, |log|);
    assert log[..|log|] == log;
  }

  lemma RecordInLog(log: seq<Record>, k: nat)
    requires k < |log| && Read(log[k].value).Accept?
    ensures Read(log[k].value).id in AcceptedIds(log)
  {
    LogStep(log, k);
    assert AcceptedIds(log[..k + 1])[|AcceptedIds(log[..k])|] == Read(log[k].value).id;
    InLog(log, k + 1, Read(log[k].value).id);
  }

  /** An event in processing is one of its partition's records. */
  lemma PhaseInLog(logs: Logs, s: State, p: Partition)
    requires CursorsValid(logs, s) && !CursorOf(s, p).phase.Ready?
    ensures CursorOf(s, p).phase.id in AcceptedIds(LogOf(logs, p))
  {
    RecordInLog(LogOf(logs, p), CursorOf(s, p).position);
  }

  lemma StepNotYetEntered(logs: Logs, s: State, a: Action)
    requires Enabled(logs, s, a) && CursorsValid(logs, s) && Homed(logs) && NotYetEntered(s)
    ensures NotYetEntered(Next(logs, s, a))
  {
    var s' := Next(logs, s, a);
    forall p | p in s'.cursors && !s'.cursors[p].phase.Ready? ensures s'.cursors[p].phase.id !in s'.ledger {
      if p != a.partition {
        ElsewhereCursor(logs, s, a, p);
        PhaseInLog(logs, s, p);
        if a.Insert? {
          PhaseInLog(logs, s, a.partition);
        }
      }
    }
  }

  // ---- Handler-call accounting ----

  function CallIds(calls: seq<Call>): seq<string> {
    seq(|calls|, i requires 0 <= i < |calls| => calls[i].id)
  }

  /** Completed handler calls for `id`, on whatever partition. */
  function CallCount(s: State, id: string): nat {
    Count(CallIds(s.calls), id)
  }

  function GapCount(s: State, id: string): nat {
    Count(s.gaps, id)
  }

  /** Partitions on which a completed handler call for `id` waits for its ledger entry. */
  function Waiting(cursors: map<Partition, Cursor>, id: string): set<Partition> {
    set p | p in cursors && Waits(cursors[p], id)
  }

  predicate Waits(c: Cursor, id: string) {
    c.phase.Inserting? && c.phase.id == id
  }

  /** Each completed call has led to the ledger entry, or to a failure in the gap, or is waiting. */
  ghost predicate Accounted(s: State, id: string) {
    CallCount(s, id) == (if id in s.ledger then 1 else 0) + GapCount(s, id) + |Waiting(s.cursors, id)|
  }

  lemma WaitingUpdate(cursors: map<Partition, Cursor>, p: Partition, c: Cursor, id: string)
    ensures |Waiting(cursors[p := c], id)| == |Waiting(cursors, id)|
              + (if Waits(c, id) then 1 else 0)
              - (if p in cursors && Waits(cursors[p], id) then 1 else 0)
  {
    ChangeOne(Waiting(cursors, id), Waiting(cursors[p := c], id), p);
  }

  lemma CallsStep(logs: Logs, s: State, a: Action)
    requires Enabled(logs, s, a)
    ensures Next(logs, s, a).calls
         == if a.Handle? && a.ok then s.calls + [Call(a.partition, CursorOf(s, a.partition).phase.id)] else s.calls
  {
  }

  lemma CallCountStep(logs: Logs, s: State, a: Action, id: string)
    requires Enabled(logs, s, a)
    ensures CallCount(Next(logs, s, a), id)
         == CallCount(s, id) + if a.Handle? && a.ok && CursorOf(s, a.partition).phase.id == id then 1 else 0
  {
    CallsStep(logs, s, a);
    if a.Handle? && a.ok {
      var last := CursorOf(s, a.partition).phase.id;
      assert CallIds(s.calls + [Call(a.partition, last)]) == CallIds(s.calls) + [last];
      CountAppend(CallIds(s.calls), last, id);
    }
  }

  /** The action ends a handled message without a ledger entry of its own. */
  predicate FallsInGap(s: State, a: Action) {
    CursorOf(s, a.partition).phase.Inserting? &&
    (a.Restart? || (a.Insert? && !(a.write.Applied() && CursorOf(s, a.partition).phase.id !in s.ledger)))
  }

  lemma GapCountStep(logs: Logs, s: State, a: Action, id: string)
    requires Enabled(logs, s, a)
    ensures GapCount(Next(logs, s, a), id)
         == GapCount(s, id) + if FallsInGap(s, a) && CursorOf(s, a.partition).phase.id == id then 1 else 0
  {
    if FallsInGap(s, a) {
      CountAppend(s.gaps, CursorOf(s, a.partition).phase.id, id);
    } else {
      assert Next(logs, s, a).gaps == s.gaps;
    }
  }

  /** The action enters the event in the ledger. */
  predicate Enters(s: State, a: Action) {
    a.Insert? && a.write.Applied() && CursorOf(s, a.partition).phase.Inserting?
    && CursorOf(s, a.partition).phase.id !in s.ledger
  }

  lemma EnteredStep(logs: Logs, s: State, a: Action, id: string)
    requires Enabled(logs, s, a)
    ensures id in Next(logs, s, a).ledger <==>
              id in s.ledger || (Enters(s, a) && CursorOf(s, a.partition).phase.id == id)
  {
  }

  lemma CursorsStep(logs: Logs, s: State, a: Action)
    requires Enabled(logs, s, a)
    ensures Next(logs, s, a).cursors == s.cursors[a.partition := CursorOf(Next(logs, s, a), a.partition)]
  {
  }

  /** A call begins to wait when the handler completes, and ends in an entry or in the gap. */
  lemma WaitsStep(logs: Logs, s: State, a: Action, id: string)
    requires Enabled(logs, s, a)
    ensures var c, c' := CursorOf(s, a.partition), CursorOf(Next(logs, s, a), a.partition);
            (if Waits(c', id) then 1 else 0)
            == (if Waits(c, id) then 1 else 0)
               + (if a.Handle? && a.ok && c.phase.id == id then 1 else 0)
               - (if (Enters(s, a) || FallsInGap(s, a)) && c.phase.id == id then 1 else 0)
  {
  }

  lemma WaitingStep(logs: Logs, s: State, a: Action, id: string)
    requires Enabled(logs, s, a)
    ensures var c := CursorOf(s, a.partition);
            |Waiting(Next(logs, s, a).cursors, id)|
            == |Waiting(s.cursors, id)|
               + (if a.Handle? && a.ok && c.phase.id == id then 1 else 0)
               - (if (Enters(s, a) || FallsInGap(s, a)) && c.phase.id == id then 1 else 0)
  {
    CursorsStep(logs, s, a);
    WaitsStep(logs, s, a, id);
    WaitingUpdate(s.cursors, a.partition, CursorOf(Next(logs, s, a), a.partition), id);
  }

  lemma StepAccounted(logs: Logs, s: State, a: Action, id: string)
    requires Enabled(logs, s, a) && Accounted(s, id)
    ensures Accounted(Next(logs, s, a), id)
  {
    CallCountStep(logs, s, a, id);
    GapCountStep(logs, s, a, id);
    EnteredStep(logs, s, a, id);
    WaitingStep(logs, s, a, id);
  }

  // ---- Exactly once ----

  function CallsOn(calls: seq<Call>, p: Partition): seq<string> {
    if calls == [] then []
    else
      var last := calls[|calls| - 1];
      CallsOn(calls[..|calls| - 1], p) + if last.partition == p then [last.id] else []
  }

  lemma CallsOnAppend(calls: seq<Call>, last: Call, p: Partition)
    ensures CallsOn(calls + [last], p) == CallsOn(calls, p) + if last.partition == p then [last.id] else []
  {
    assert (calls + [last])[..|calls|] == calls;
  }

  /** The ids settled on a partition, each once, plus the one whose ledger entry is under way. */
  function Due(log: seq<Record>, c: Cursor): seq<string>
    requires c.settled <= |log|
  {
    FirstOccurrences(AcceptedIds(log[..c.settled])) + if c.phase.Inserting? then [c.phase.id] else []
  }

  ghost predicate OnceOn(logs: Logs, s: State, p: Partition) {
    && CursorOf(s, p).settled <= |LogOf(logs, p)|
    && CallsOn(s.calls, p) == Due(LogOf(logs, p), CursorOf(s, p))
  }

  /** An id that is in the ledger occurs among the settled records of its home partition. */
  lemma LedgerAtHome(logs: Logs, s: State, p: Partition, k: nat)
    requires Inv(logs, s) && Homed(logs) && k < |LogOf(logs, p)|
    requires Read(LogOf(logs, p)[k].value).Accept? && Read(LogOf(logs, p)[k].value).id in s.ledger
    ensures CursorOf(s, p).settled <= |LogOf(logs, p)|
    ensures Read(LogOf(logs, p)[k].value).id in AcceptedIds(LogOf(logs, p)[..CursorOf(s, p).settled])
  {
    var id := Read(LogOf(logs, p)[k].value).id;
    var q :| EntryTraced(logs, s, id, q);
    InLog(LogOf(logs, q), CursorOf(s, q).settled, id);
    RecordInLog(LogOf(logs, p), k);
  }

  lemma {:induction false} SettledInLedger(log: seq<Record>, ledger: Ledger, n: nat)
    requires SettledBelow(log, ledger, n)
    ensures forall id :: id in AcceptedIds(log[..n]) ==> id in ledger
  {
    if n > 0 {
      SettledInLedger(log, ledger, n - 1);
      LogStep(log, n - 1);
    }
  }

  /** Settling one more record that is to be ignored or has been seen. */
  lemma SettleSeen(log: seq<Record>, c: Cursor)
    requires c.position <= c.settled <= |log| && c.position < |log| && c.phase.Ready?
    requires var reading := Read(log[c.position].value);
             reading.Ignore? || (reading.Accept? && reading.id in AcceptedIds(log[..c.settled]))
    ensures Due(log, Settle(c, true)) == Due(log, c)
  {
    if c.position == c.settled {
      LogStep(log, c.settled);
      var ids := AcceptedIds(log[..c.settled]);
      if Read(log[c.position].value).Accept? {
        FirstOccurrencesAppend(ids, Read(log[c.position].value).id);
      } else {
        assert ids + [] == ids;
      }
      assert FirstOccurrences(ids) + [] == FirstOccurrences(ids);
    }
  }

  /** Settling one more record, with the ledger entry just made. */
  lemma SettleNew(log: seq<Record>, ledger: Ledger, c: Cursor, advance: bool)
    requires CursorValid(log, ledger, c) && c.phase.Inserting? && c.phase.id !in ledger
    ensures Due(log, Settle(c, advance)) == Due(log, c)
  {
    LogStep(log, c.settled);
    SettledInLedger(log, ledger, c.settled);
    FirstOccurrencesAppend(AcceptedIds(log[..c.settled]), c.phase.id);
  }

  lemma LookOnce(logs: Logs, s: State, p: Partition)
    requires Enabled(logs, s, Look(p)) && Inv(logs, s) && Homed(logs) && OnceOn(logs, s, p)
    ensures OnceOn(logs, Next(logs, s, Look(p)), p)
  {
    var c := CursorOf(s, p);
    assert CursorValid(LogOf(logs, p), s.ledger, c);
    var reading := Read(LogOf(logs, p)[c.position].value);
    if reading.Ignore? {
      SettleSeen(LogOf(logs, p), c);
    } else if reading.Accept? && reading.id in s.ledger {
      LedgerAtHome(logs, s, p, c.position);
      SettleSeen(LogOf(logs, p), c);
    }
  }

  lemma InsertOnce(logs: Logs, s: State, a: Action, p: Partition)
    requires a.Insert? && a.partition == p && Enabled(logs, s, a) && CursorsValid(logs, s) && OnceOn(logs, s, p)
    requires Next(logs, s, a).gaps == []
    ensures OnceOn(logs, Next(logs, s, a), p)
  {
    var c := CursorOf(s, p);
    assert CursorValid(LogOf(logs, p), s.ledger, c);
    SettleNew(LogOf(logs, p), s.ledger, c, a.write.Written?);
  }

  lemma ElsewhereOnce(logs: Logs, s: State, a: Action, p: Partition)
    requires a.partition != p && Enabled(logs, s, a) && OnceOn(logs, s, p)
    ensures OnceOn(logs, Next(logs, s, a), p)
  {
    ElsewhereCursor(logs, s, a, p);
    CallsStep(logs, s, a);
    var calls' := Next(logs, s, a).calls;
    if calls' != s.calls {
      CallsOnAppend(s.calls, calls'[|s.calls|], p);
    }
    assert CallsOn(calls', p) == CallsOn(s.calls, p);
  }

  lemma HandleOnce(logs: Logs, s: State, p: Partition, ok: bool)
    requires Enabled(logs, s, Handle(p, ok)) && OnceOn(logs, s, p)
    ensures OnceOn(logs, Next(logs, s, Handle(p, ok)), p)
  {
    CallsOnAppend(s.calls, Call(p, CursorOf(s, p).phase.id), p);
  }

  lemma StepOnce(logs: Logs, s: State, a: Action, p: Partition)
    requires Enabled(logs, s, a) && Inv(logs, s) && Homed(logs) && OnceOn(logs, s, p)
    requires Next(logs, s, a).gaps == []
    ensures OnceOn(logs, Next(logs, s, a), p)
  {
    if a.partition != p {
      ElsewhereOnce(logs, s, a, p);
    } else {
      match a {
        case Look(_) => LookOnce(logs, s, p);
        case Insert(_, _, _) => InsertOnce(logs, s, a, p);
        case Handle(_, ok) => HandleOnce(logs, s, p, ok);
        case _ =>
      }
    }
  }

  lemma GrowthOnce(logs: Logs, logs': Logs, s: State, p: Partition)
    requires Extends(logs, logs') && OnceOn(logs, s, p)
    ensures OnceOn(logs', s, p)
  {
    assert LogOf(logs, p) <= LogOf(logs', p);
    assert LogOf(logs', p)[..CursorOf(s, p).settled] == LogOf(logs, p)[..CursorOf(s, p).settled];
  }
}
