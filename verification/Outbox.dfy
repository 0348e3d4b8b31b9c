/** The outbox table: its rows, the row `OutboxService.enqueue` writes, and what the
    relay's claim query may return. */
module Outbox {
  import opened Wrappers
  import opened Sets

  /** A parsed JSON document. */
  datatype Json =
    | JNull
    | JBool(flag: bool)
    | JNumber(number: int)
    | JString(text: string)
    | JArray(items: seq<Json>)
    | JObject(fields: map<string, Json>)

  datatype EnqueueEventInput = EnqueueEventInput(
    aggregateType: string,
    aggregateId: string,
    eventType: string,
    eventVersion: Option<int>,
    payload: Json,
    metadata: Option<Json>)

  datatype OutboxEvent = OutboxEvent(
    id: string,
    aggregateType: string,
    aggregateId: string,
    eventType: string,
    eventVersion: int,
    payload: Json,
    metadata: Json,
    occurredAt: Time,
    publishedAt: Option<Time>,
    attempts: nat,
    lastError: Option<string>)

  type Table = map<string, OutboxEvent>

  /** The row `enqueue` saves. The database supplies `id` and `occurredAt`. */
  function NewEvent(id: string, input: EnqueueEventInput, occurredAt: Time): OutboxEvent {
    OutboxEvent(id, input.aggregateType, input.aggregateId, input.eventType,
                if input.eventVersion.Some? then input.eventVersion.value else 1,
                input.payload,
                if input.metadata.Some? then input.metadata.value else JObject(map[]),
                occurredAt, None, 0, None)
  }

  /** The row as it was when it was enqueued: the three columns the relay writes, reset. */
  function AsEnqueued(event: OutboxEvent): OutboxEvent {
    event.(publishedAt := None, attempts := 0, lastError := None)
  }

  ghost predicate KeyedById(rows: Table) {
    forall id :: id in rows ==> rows[id].id == id && id != ""
  }

  // ---- The three row writes of the relay ----

  /** The success write: it stores the snapshot's counter plus one, whatever the row holds now. */
  function MarkPublished(rows: Table, snapshot: OutboxEvent, now: Time): Table {
    if snapshot.id in rows then
      rows[snapshot.id := rows[snapshot.id].(publishedAt := Some(now), attempts := snapshot.attempts + 1,
                                             lastError := None)]
    else rows
  }

  /** The failure write: an increment inside the database. */
  function IncrementAttempts(rows: Table, id: string): Table {
    if id in rows then rows[id := rows[id].(attempts := rows[id].attempts + 1)] else rows
  }

  function NoteError(rows: Table, id: string, message: string): Table {
    if id in rows then rows[id := rows[id].(lastError := Some(message))] else rows
  }

  /** A bookkeeping write to the row of `id`: no row appears or goes, no other row changes, and
      the enqueued part of the row stays. */
  ghost predicate OnlyBooks(rows: Table, rows': Table, id: string) {
    && rows'.Keys == rows.Keys
    && (forall other :: other in rows && other != id ==> rows'[other] == rows[other])
    && (id in rows ==> AsEnqueued(rows'[id]) == AsEnqueued(rows[id]))
  }

  lemma WritesOnlyBook(rows: Table, snapshot: OutboxEvent, now: Time, message: string)
    ensures OnlyBooks(rows, MarkPublished(rows, snapshot, now), snapshot.id)
    ensures OnlyBooks(rows, IncrementAttempts(rows, snapshot.id), snapshot.id)
    ensures OnlyBooks(rows, NoteError(rows, snapshot.id, message), snapshot.id)
  {
  }

  /** The success write counts like the increment if and only if its snapshot is up to date; on a stale
      one it takes counts back. */
  lemma MarkVersusIncrement(rows: Table, snapshot: OutboxEvent, now: Time)
    requires snapshot.id in rows
    ensures var marked := MarkPublished(rows, snapshot, now)[snapshot.id];
            var counted := IncrementAttempts(rows, snapshot.id)[snapshot.id];
            && (marked.attempts == counted.attempts <==> snapshot.attempts == rows[snapshot.id].attempts)
            && (marked.attempts <= rows[snapshot.id].attempts <==> snapshot.attempts < rows[snapshot.id].attempts)
            && marked.publishedAt == Some(now) && marked.lastError.None?
            && counted.publishedAt == rows[snapshot.id].publishedAt
  {
  }

  lemma OnlyBooksTwice(a: Table, b: Table, c: Table, id: string)
    requires OnlyBooks(a, b, id) && OnlyBooks(b, c, id)
    ensures OnlyBooks(a, c, id)
  {
  }

  /** Of the three writes only the success write decides whether a row counts as published. */
  lemma WritesAndBacklog(rows: Table, snapshot: OutboxEvent, now: Time, message: string)
    ensures Unpublished(MarkPublished(rows, snapshot, now)) == Unpublished(rows) - {snapshot.id}
    ensures Unpublished(IncrementAttempts(rows, snapshot.id)) == Unpublished(rows)
    ensures Unpublished(NoteError(rows, snapshot.id, message)) == Unpublished(rows)
  {
  }

  // ---- Claiming ----

  const BATCH_SIZE: nat := 50

  function Unpublished(rows: Table): set<string> {
    set id | id in rows && rows[id].publishedAt.None?
  }

  /** Rows the claim query can see: unpublished, and not locked by another open claim. */
  function Eligible(rows: Table, locked: set<string>): set<string> {
    Unpublished(rows) - locked
  }

  function Ids(batch: seq<OutboxEvent>): set<string> {
    set i | 0 <= i < |batch| :: batch[i].id
  }

  /** `batch` is a possible answer of the claim query: the oldest `BATCH_SIZE` eligible rows,
      oldest first. Rows with equal `occurredAt` may come in any order, and where the limit
      cuts through such a group any of them may be the ones returned. */
  ghost predicate IsClaim(rows: Table, locked: set<string>, batch: seq<OutboxEvent>) {
    && |batch| <= BATCH_SIZE
    && (forall i :: 0 <= i < |batch| ==>
          batch[i].id in Eligible(rows, locked) && rows[batch[i].id] == batch[i])
    && DistinctIds(batch)
    && (forall i, j :: 0 <= i < j < |batch| ==> batch[i].occurredAt <= batch[j].occurredAt)
    && (forall i, id :: 0 <= i < |batch| && id in Eligible(rows, locked) && id !in Ids(batch) ==>
          batch[i].occurredAt <= rows[id].occurredAt)
    && (|batch| < BATCH_SIZE ==> Eligible(rows, locked) <= Ids(batch))
  }

  ghost predicate DistinctIds(batch: seq<OutboxEvent>) {
    forall i, j :: 0 <= i < j < |batch| ==> batch[i].id != batch[j].id
  }

  lemma {:induction false} IdsSize(batch: seq<OutboxEvent>)
    requires DistinctIds(batch)
    ensures |Ids(batch)| == |batch|
  {
    if batch == [] {
      assert Ids(batch) == {};
    } else {
      var front := batch[..|batch| - 1];
      var last := batch[|batch| - 1];
      IdsSize(front);
      assert Ids(batch) == Ids(front) + {last.id};
      assert last.id !in Ids(front);
    }
  }

  /** A claim takes all eligible rows up to the limit, never fewer. */
  lemma ClaimSize(rows: Table, locked: set<string>, batch: seq<OutboxEvent>)
    requires IsClaim(rows, locked, batch)
    ensures Ids(batch) <= Eligible(rows, locked)
    ensures |batch| == if |Eligible(rows, locked)| < 50 then |Eligible(rows, locked)| else 50
  {
    IdsSize(batch);
    SubsetSize(Ids(batch), Eligible(rows, locked));
    if |batch| < BATCH_SIZE {
      assert Ids(batch) == Eligible(rows, locked);
    }
  }

  /** Rows that go ahead of `id` in the claim order, ties counted as ahead. */
  function AtLeastAsOld(rows: Table, locked: set<string>, id: string): set<string>
    requires id in rows
  {
    set other | other in Eligible(rows, locked) && other != id && rows[other].occurredAt <= rows[id].occurredAt
  }

  function StrictlyOlder(rows: Table, locked: set<string>, id: string): set<string>
    requires id in rows
  {
    set other | other in Eligible(rows, locked) && rows[other].occurredAt < rows[id].occurredAt
  }

  lemma ClaimedIfRoom(rows: Table, locked: set<string>, batch: seq<OutboxEvent>, id: string)
    requires IsClaim(rows, locked, batch) && id in Eligible(rows, locked)
    requires |AtLeastAsOld(rows, locked, id)| < BATCH_SIZE
    ensures id in Ids(batch)
  {
    if id !in Ids(batch) {
      IdsSize(batch);
      assert |batch| == BATCH_SIZE;
      assert Ids(batch) <= AtLeastAsOld(rows, locked, id);
      SubsetSize(Ids(batch), AtLeastAsOld(rows, locked, id));
    }
  }

  lemma OlderAreClaimed(rows: Table, locked: set<string>, batch: seq<OutboxEvent>, id: string)
    requires IsClaim(rows, locked, batch) && id in Ids(batch)
    ensures id in rows && |StrictlyOlder(rows, locked, id)| < BATCH_SIZE
  {
    IdsSize(batch);
    var k :| 0 <= k < |batch| && batch[k].id == id;
    var older := StrictlyOlder(rows, locked, id);
    assert older <= Ids(batch) - {id};
    SubsetSize(older, Ids(batch) - {id});
  }

  /** An eligible row with fewer than `BATCH_SIZE` rows ahead of it is in every claim, and a
      row with `BATCH_SIZE` strictly older ones is in none. */
  lemma ClaimMembership(rows: Table, locked: set<string>, batch: seq<OutboxEvent>, id: string)
    requires IsClaim(rows, locked, batch) && id in rows
    ensures id in Eligible(rows, locked) && |AtLeastAsOld(rows, locked, id)| < BATCH_SIZE ==> id in Ids(batch)
    ensures |StrictlyOlder(rows, locked, id)| >= BATCH_SIZE ==> id !in Ids(batch)
  {
    if id in Eligible(rows, locked) && |AtLeastAsOld(rows, locked, id)| < BATCH_SIZE {
      ClaimedIfRoom(rows, locked, batch, id);
    }
    if id in Ids(batch) {
      OlderAreClaimed(rows, locked, batch, id);
    }
  }

  /** Whatever the table holds, the claim query has an answer. */
  lemma ClaimExists(rows: Table, locked: set<string>) returns (batch: seq<OutboxEvent>)
    requires KeyedById(rows)
    ensures IsClaim(rows, locked, batch)
  {
    batch := [];
    var rest := Eligible(rows, locked);
    while rest != {} && |batch| < BATCH_SIZE
      invariant |batch| <= BATCH_SIZE
      invariant rest <= Eligible(rows, locked) && rest !! Ids(batch)
      invariant Eligible(rows, locked) == rest + Ids(batch)
      invariant forall i :: 0 <= i < |batch| ==>
                  batch[i].id in Eligible(rows, locked) && rows[batch[i].id] == batch[i]
      invariant DistinctIds(batch)
      invariant forall i, j :: 0 <= i < j < |batch| ==> batch[i].occurredAt <= batch[j].occurredAt
      invariant forall i, id :: 0 <= i < |batch| && id in rest ==> batch[i].occurredAt <= rows[id].occurredAt
      decreases rest
    {
      var id := Oldest(rows, rest);
      IdsGrow(batch, rows[id]);
      batch := batch + [rows[id]];
      rest := rest - {id};
    }
  }

  lemma IdsGrow(batch: seq<OutboxEvent>, event: OutboxEvent)
    ensures Ids(batch + [event]) == Ids(batch) + {event.id}
  {
    var longer := batch + [event];
    assert longer[|batch|].id in Ids(longer);
    forall id | id in Ids(batch) ensures id in Ids(longer) {
      var k :| 0 <= k < |batch| && batch[k].id == id;
      assert longer[k].id == id;
    }
  }

  lemma {:induction false} Oldest(rows: Table, ids: set<string>) returns (oldest: string)
    requires ids != {} && ids <= rows.Keys
    ensures oldest in ids
    ensures forall id :: id in ids ==> rows[oldest].occurredAt <= rows[id].occurredAt
  {
    oldest :| oldest in ids;
    if ids != {oldest} {
      var other := Oldest(rows, ids - {oldest});
      oldest := if rows[other].occurredAt < rows[oldest].occurredAt then other else oldest;
    }
  }

  // ---- The repository object ----

  /** The outbox table behind a TypeORM repository. */
  class OutboxRepository {
    var rows: Table

    constructor ()
      ensures rows == map[]
    {
      rows := map[];
    }

    /** `OutboxService.enqueue`: inserts one pristine row under the generated key. */
    method Enqueue(id: string, input: EnqueueEventInput, occurredAt: Time) returns (saved: OutboxEvent)
      requires KeyedById(rows)
      requires id != "" && id !in rows  // gen_random_uuid()
      modifies this
      ensures KeyedById(rows)
      ensures rows == old(rows)[id := saved]
      ensures saved == NewEvent(id, input, occurredAt)
      ensures saved.id == id && saved.occurredAt == occurredAt
      ensures saved.aggregateType == input.aggregateType && saved.aggregateId == input.aggregateId
      ensures saved.eventType == input.eventType && saved.payload == input.payload
      ensures input.eventVersion.None? ==> saved.eventVersion == 1
      ensures input.eventVersion.Some? ==> saved.eventVersion == input.eventVersion.value
      ensures input.metadata.None? ==> saved.metadata == JObject(map[])
      ensures input.metadata.Some? ==> saved.metadata == input.metadata.value
      ensures saved.publishedAt.None? && saved.attempts == 0 && saved.lastError.None?
      ensures Unpublished(rows) == old(Unpublished(rows)) + {id}
    {
      saved := NewEvent(id, input, occurredAt);
      rows := rows[id := saved];
    }

    method UpdatePublished(snapshot: OutboxEvent, now: Time, write: Write) returns (ok: bool)
      modifies this
      ensures ok == write.Written?
      ensures rows == if write.Applied() then MarkPublished(old(rows), snapshot, now) else old(rows)
      ensures OnlyBooks(old(rows), rows, snapshot.id)
      ensures ok && snapshot.id in rows ==>
                && rows[snapshot.id].publishedAt == Some(now) && rows[snapshot.id].lastError.None?
                && rows[snapshot.id].attempts == snapshot.attempts + 1
    {
      if write.Applied() {
        rows := MarkPublished(rows, snapshot, now);
      }
      ok := write.Written?;
    }

    method Increment(id: string, write: Write) returns (ok: bool)
      modifies this
      ensures ok == write.Written?
      ensures rows == if write.Applied() then IncrementAttempts(old(rows), id) else old(rows)
      ensures OnlyBooks(old(rows), rows, id)
      ensures ok && id in rows ==> rows[id].attempts == old(rows)[id].attempts + 1
    {
      if write.Applied() {
        rows := IncrementAttempts(rows, id);
      }
      ok := write.Written?;
    }

    method UpdateLastError(id: string, message: string, write: Write) returns (ok: bool)
      modifies this
      ensures ok == write.Written?
      ensures rows == if write.Applied() then NoteError(old(rows), id, message) else old(rows)
      ensures OnlyBooks(old(rows), rows, id)
      ensures ok && id in rows ==> rows[id].lastError == Some(message)
    {
      if write.Applied() {
        rows := NoteError(rows, id, message);
      }
      ok := write.Written?;
    }
  }
}
