/** Any number of relay processes working on one outbox table, as a transition system: one
    action per awaited call of `publishBatch`, interleaved in any order, with crashes. */
module RelaySystem {
  import opened Wrappers
  import opened Sequences
  import opened Outbox
  import opened Kafka

  /** Where one relay process stands inside `publishBatch`. */
  datatype Relay =
    | Idle
    | Claiming(batch: seq<OutboxEvent>)                                // the claim transaction is open
    | Publishing(batch: seq<OutboxEvent>, next: nat)                   // about to publish batch[next], or done
    | Marking(batch: seq<OutboxEvent>, next: nat)                      // published; success write pending
    | Recording(batch: seq<OutboxEvent>, next: nat, message: string)   // failed; increment pending
    | Noting(batch: seq<OutboxEvent>, next: nat, message: string)      // failed; error text pending

  /** One call of `publish` and how it ended. */
  datatype Attempt = Attempt(id: string, send: Send)

  /** `history` lists all publish calls in order, `bookings` the rows whose counter was written,
      once per write that took effect; neither is stored by the program. */
  datatype State = State(
    rows: Table,
    logs: Logs,
    relays: map<nat, Relay>,
    history: seq<Attempt>,
    bookings: seq<string>)

  datatype Action =
    | Enqueue(id: string, input: EnqueueEventInput, occurredAt: Time)
    | Open(relay: nat, claim: seq<OutboxEvent>)
    | Commit(relay: nat)
    | Publish(relay: nat, send: Send, error: string)
    | Mark(relay: nat, write: Write, now: Time, error: string)
    | Increment(relay: nat, write: Write)
    | Note(relay: nat, write: Write)
    | Finish(relay: nat)
    | Crash(relay: nat)

  const INITIAL: State := State(map[], map[], map[], [], [])

  function RelayOf(s: State, r: nat): Relay {
    if r in s.relays then s.relays[r] else Idle
  }

  /** Rows locked by an open claim transaction of some relay. */
  function Locked(s: State): set<string> {
    set r, id | r in s.relays && s.relays[r].Claiming? && id in Ids(s.relays[r].batch) :: id
  }

  /** The event a relay is busy with. */
  function Current(relay: Relay): OutboxEvent
    requires relay.Publishing? || relay.Marking? || relay.Recording? || relay.Noting?
    requires relay.next < |relay.batch|
  {
    relay.batch[relay.next]
  }

  predicate Busy(relay: Relay) {
    (relay.Publishing? || relay.Marking? || relay.Recording? || relay.Noting?) && relay.next < |relay.batch|
  }

  /** A write waits while an open claim holds the row. A relay starts a batch only when it has none. */
  ghost predicate Enabled(s: State, a: Action) {
    match a
    case Enqueue(id, _, _) => id != "" && id !in s.rows
    case Open(r, claim) => RelayOf(s, r).Idle? && IsClaim(s.rows, Locked(s), claim)
    case Commit(r) => RelayOf(s, r).Claiming?
    case Publish(r, _, _) => RelayOf(s, r).Publishing? && Busy(RelayOf(s, r))
    case Mark(r, _, _, _) => RelayOf(s, r).Marking? && Busy(RelayOf(s, r)) && Current(RelayOf(s, r)).id !in Locked(s)
    case Increment(r, _) => RelayOf(s, r).Recording? && Busy(RelayOf(s, r)) && Current(RelayOf(s, r)).id !in Locked(s)
    case Note(r, _) => RelayOf(s, r).Noting? && Busy(RelayOf(s, r)) && Current(RelayOf(s, r)).id !in Locked(s)
    case Finish(r) => RelayOf(s, r).Publishing? && !Busy(RelayOf(s, r))
    case Crash(r) => true
  }

  function Move(s: State, r: nat, relay: Relay): State {
    s.(relays := s.relays[r := relay])
  }

  function Next(cluster: Cluster, s: State, a: Action): State
    requires Enabled(s, a)
  {
    match a
    case Enqueue(id, input, occurredAt) =>
      s.(rows := s.rows[id := NewEvent(id, input, occurredAt)])
    case Open(r, claim) => Move(s, r, Claiming(claim))
    case Commit(r) => Move(s, r, Publishing(s.relays[r].batch, 0))
    case Publish(r, send, error) =>
      var relay := s.relays[r];
      var event := Current(relay);
      Move(s, r, if send.Acknowledged? then Marking(relay.batch, relay.next)
                 else Recording(relay.batch, relay.next, error))
        .(logs := AfterSend(cluster, s.logs, event, send), history := s.history + [Attempt(event.id, send)])
    case Mark(r, write, now, error) =>
      var relay := s.relays[r];
      var event := Current(relay);
      var moved := Move(s, r, if write.Written? then Publishing(relay.batch, relay.next + 1)
                              else Recording(relay.batch, relay.next, error));
      if !write.Applied() then moved
      else moved.(rows := MarkPublished(s.rows, event, now), bookings := s.bookings + [event.id])
    case Increment(r, write) =>
      var relay := s.relays[r];
      var event := Current(relay);
      var moved := Move(s, r, if write.Written? then Noting(relay.batch, relay.next, relay.message) else Idle);
      if !write.Applied() then moved
      else moved.(rows := IncrementAttempts(s.rows, event.id), bookings := s.bookings + [event.id])
    case Note(r, write) =>
      var relay := s.relays[r];
      var event := Current(relay);
      var moved := Move(s, r, if write.Written? then Publishing(relay.batch, relay.next + 1) else Idle);
      if write.Applied() then moved.(rows := NoteError(s.rows, event.id, relay.message)) else moved
    case Finish(r) => Move(s, r, Idle)
    case Crash(r) => Move(s, r, Idle)
  }

  ghost predicate IsRun(cluster: Cluster, s: State, actions: seq<Action>)
    decreases |actions|
  {
    actions == [] ||
    (Enabled(s, actions[0]) && IsRun(cluster, Next(cluster, s, actions[0]), actions[1..]))
  }

  ghost function Final(cluster: Cluster, s: State, actions: seq<Action>): State
    requires IsRun(cluster, s, actions)
    decreases |actions|
  {
    if actions == [] then s else Final(cluster, Next(cluster, s, actions[0]), actions[1..])
  }

  lemma {:induction false} RunAppend(cluster: Cluster, s: State, actions: seq<Action>, a: Action)
    requires IsRun(cluster, s, actions) && Enabled(Final(cluster, s, actions), a)
    ensures IsRun(cluster, s, actions + [a])
    ensures Final(cluster, s, actions + [a]) == Next(cluster, Final(cluster, s, actions), a)
    decreases |actions|
  {
    var longer := actions + [a];
    if actions == [] {
      assert longer[1..] == [];
    } else {
      assert longer[1..] == actions[1..] + [a];
      RunAppend(cluster, Next(cluster, s, actions[0]), actions[1..], a);
    }
  }
}
