/** One delivery of a record, as the method does it and as the system does it; and what repeated
    deliveries achieve. */
module ConsumerProgress {
  import opened Wrappers
  import opened Sequences
  import opened Outbox
  import opened Kafka
  import opened ConsumerService
  import opened ConsumerSystem

  /** How the handler and the ledger insert end during one delivery. */
  datatype Outcome = Outcome(handlerOk: bool, insert: Write) {
    predicate Succeeds() { handlerOk && insert.Written? }
  }

  predicate CanDeliver(logs: Logs, s: State, p: Partition) {
    CursorOf(s, p).phase.Ready? && CursorOf(s, p).position < |LogOf(logs, p)|
  }

  /** The actions of one undisturbed delivery: look up, then handle and insert as far as it gets. */
  function Deliver(logs: Logs, s: State, p: Partition, group: string, outcome: Outcome): State
    requires CanDeliver(logs, s, p)
  {
    var looked := Next(logs, s, Look(p));
    if !CursorOf(looked, p).phase.Handling? then looked
    else
      var handled := Next(logs, looked, Handle(p, outcome.handlerOk));
      if !outcome.handlerOk then handled else Next(logs, handled, Insert(p, outcome.insert, group))
  }

  /** After the look-up, the handler and the insert: what they add, and whether the partition moves. */
  lemma HandleAndInsert(logs: Logs, s: State, p: Partition, group: string, outcome: Outcome)
    requires CursorOf(s, p).phase.Handling? && CursorOf(s, p).phase.id !in s.ledger
    ensures var c := CursorOf(s, p);
            var handled := Next(logs, s, Handle(p, outcome.handlerOk));
            var s' := if outcome.handlerOk then Next(logs, handled, Insert(p, outcome.insert, group)) else handled;
            && CursorOf(s', p).phase.Ready?
            && s'.calls == (if outcome.handlerOk then s.calls + [Call(p, c.phase.id)] else s.calls)
            && s'.ledger == (if outcome.handlerOk && outcome.insert.Applied()
                             then s.ledger[c.phase.id := ConsumedEvent(c.phase.id, c.phase.eventType, group)]
                             else s.ledger)
            && CursorOf(s', p).position == c.position + (if outcome.Succeeds() then 1 else 0)
  {
  }

  /** The delivery does to ledger and handler what `KafkaEventConsumer.Process` promises, and the
      partition moves on exactly if that call succeeds. */
  lemma DeliverIsProcess(logs: Logs, s: State, p: Partition, group: string, outcome: Outcome)
    requires CanDeliver(logs, s, p)
    ensures var value := LogOf(logs, p)[CursorOf(s, p).position].value;
            var r := ProcessMessage(s.ledger, CallsOn(s.calls, p), group, value, outcome.handlerOk, outcome.insert);
            var s' := Deliver(logs, s, p, group, outcome);
            && s'.ledger == r.ledger
            && CallsOn(s'.calls, p) == r.handled
            && CursorOf(s', p).phase.Ready?
            && CursorOf(s', p).position == CursorOf(s, p).position + if r.ok then 1 else 0
  {
    var looked := Next(logs, s, Look(p));
    if CursorOf(looked, p).phase.Handling? {
      HandleAndInsert(logs, looked, p, group, outcome);
      CallsOnAppend(s.calls, Call(p, CursorOf(looked, p).phase.id), p);
    }
  }

  /** Deliveries of partition `p`, one per outcome, as long as records are left. */
  function DeliverAll(logs: Logs, s: State, p: Partition, group: string, outcomes: seq<Outcome>): State
    requires CursorOf(s, p).phase.Ready?
    decreases |outcomes|
  {
    if outcomes == [] || !CanDeliver(logs, s, p) then s
    else
      DeliverIsProcess(logs, s, p, group, outcomes[0]);
      DeliverAll(logs, Deliver(logs, s, p, group, outcomes[0]), p, group, outcomes[1..])
  }

  function Successes(outcomes: seq<Outcome>): nat {
    if outcomes == [] then 0 else Successes(outcomes[1..]) + if outcomes[0].Succeeds() then 1 else 0
  }

  /** A record the consumer cannot read holds the partition for good, whatever the handler does. */
  lemma {:induction false} RejectedBlocks(logs: Logs, s: State, p: Partition, group: string, outcomes: seq<Outcome>,
                                          k: nat)
    requires CursorOf(s, p).phase.Ready? && CursorOf(s, p).position <= k < |LogOf(logs, p)|
    requires Read(LogOf(logs, p)[k].value).Reject?
    ensures CursorOf(DeliverAll(logs, s, p, group, outcomes), p).position <= k
    decreases |outcomes|
  {
    if outcomes != [] {
      DeliverIsProcess(logs, s, p, group, outcomes[0]);
      RejectedBlocks(logs, Deliver(logs, s, p, group, outcomes[0]), p, group, outcomes[1..], k);
    }
  }

  /** Without such a record, each successful delivery advances the partition, until the end of the log. */
  lemma {:induction false} DeliveriesAdvance(logs: Logs, s: State, p: Partition, group: string, outcomes: seq<Outcome>)
    requires CursorOf(s, p).phase.Ready? && CursorOf(s, p).position <= |LogOf(logs, p)|
    requires forall k :: CursorOf(s, p).position <= k < |LogOf(logs, p)| ==> !Read(LogOf(logs, p)[k].value).Reject?
    ensures var end := CursorOf(DeliverAll(logs, s, p, group, outcomes), p).position;
            && end <= |LogOf(logs, p)|
            && (end == |LogOf(logs, p)| || end >= CursorOf(s, p).position + Successes(outcomes))
    decreases |outcomes|
  {
    if outcomes != [] && CanDeliver(logs, s, p) {
      DeliverIsProcess(logs, s, p, group, outcomes[0]);
      DeliveriesAdvance(logs, Deliver(logs, s, p, group, outcomes[0]), p, group, outcomes[1..]);
    }
  }

  /** With as many successful deliveries as records are left, the log is consumed to its end if and
      only if none of these is a record the consumer cannot read. */
  lemma DeliveriesFinish(logs: Logs, s: State, p: Partition, group: string, outcomes: seq<Outcome>)
    requires CursorOf(s, p).phase.Ready? && CursorOf(s, p).position <= |LogOf(logs, p)|
    requires Successes(outcomes) >= |LogOf(logs, p)| - CursorOf(s, p).position
    ensures CursorOf(DeliverAll(logs, s, p, group, outcomes), p).position == |LogOf(logs, p)| <==>
            forall k :: CursorOf(s, p).position <= k < |LogOf(logs, p)| ==> !Read(LogOf(logs, p)[k].value).Reject?
  {
    if k :| CursorOf(s, p).position <= k < |LogOf(logs, p)| && Read(LogOf(logs, p)[k].value).Reject? {
      RejectedBlocks(logs, s, p, group, outcomes, k);
    } else {
      DeliveriesAdvance(logs, s, p, group, outcomes);
    }
  }

  // ---- Accounting for look-ups ----

  /** Records passed, counting the one under way. */
  function Reached(c: Cursor): nat {
    c.position + if c.phase.Ready? then 0 else 1
  }

  /** What an action throws partition `p` back: one record if its processing fails, and all that is not
      committed if it restarts. */
  function Setback(logs: Logs, s: State, a: Action, p: Partition): int
    requires Enabled(logs, s, a)
  {
    var c := CursorOf(s, p);
    if a.partition != p then 0
    else
      match a
      case Look(_) => if Read(LogOf(logs, p)[c.position].value).Reject? then 1 else 0
      case Handle(_, ok) => if ok then 0 else 1
      case Insert(_, write, _) => if write.Written? && c.phase.id !in s.ledger then 0 else 1
      case Commit(_, _) => 0
      case Restart(_) => Reached(c) - c.committed
  }

  lemma ReachedStep(logs: Logs, s: State, a: Action, p: Partition)
    requires Enabled(logs, s, a)
    ensures Reached(CursorOf(Next(logs, s, a), p)) + Setback(logs, s, a, p)
         == Reached(CursorOf(s, p)) + if a == Look(p) then 1 else 0
    ensures CursorOf(Next(logs, s, a), p).committed
         == if a.Commit? && a.partition == p then a.offset else CursorOf(s, p).committed
  {
  }
}
