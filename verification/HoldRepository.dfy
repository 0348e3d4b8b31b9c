/** The table of holds and the four statements of its repository. */
module HoldRepository {
  import opened Wrappers
  import opened HoldDomain

  /** A row under its primary key; the two optional columns are nullable. */
  datatype HoldRow = HoldRow(
    quoteId: string,
    customerId: string,
    parkingSpaceId: string,
    expiresAt: Time,
    status: HoldStatus,
    bookingId: Option<string>,
    releaseReason: Option<string>)

  type HoldTable = map<string, HoldRow>

  function NullIf(text: string): Option<string> {
    if text == "" then None else Some(text)
  }

  function Text(column: Option<string>): string {
    if column.Some? then column.value else ""
  }

  function Encode(hold: HoldValue): HoldRow {
    HoldRow(hold.quoteId, hold.customerId, hold.parkingSpaceId, hold.expiresAt, hold.status,
            NullIf(hold.bookingId), NullIf(hold.releaseReason))
  }

  function Decode(id: string, row: HoldRow): HoldValue {
    HoldValue(id, row.quoteId, row.customerId, row.parkingSpaceId, row.expiresAt, row.status,
              Text(row.bookingId), Text(row.releaseReason))
  }

  datatype RepositoryError = ErrHoldNotFound | ErrDuplicateKey | ErrDatabase

  function Find(table: HoldTable, id: string): Result<HoldValue, RepositoryError> {
    if id in table then Ok(Decode(id, table[id])) else Err(ErrHoldNotFound)
  }

  /** `UPDATE ... WHERE id = $1`: three columns, whatever they held. */
  function Overwrite(table: HoldTable, hold: HoldValue): HoldTable {
    if hold.id in table then
      table[hold.id := table[hold.id].(
        status := hold.status,
        bookingId := NullIf(hold.bookingId),
        releaseReason := NullIf(hold.releaseReason))]
    else table
  }

  predicate Overdue(row: HoldRow, now: Time) {
    row.status.Active? && row.expiresAt <= now
  }

  function Swept(table: HoldTable, now: Time): HoldTable {
    map id | id in table :: if Overdue(table[id], now) then table[id].(status := Expired) else table[id]
  }

  function OverdueIds(table: HoldTable, now: Time): set<string> {
    set id | id in table && Overdue(table[id], now)
  }

  /** The rows a statement has changed. */
  function Changed(before: HoldTable, after: HoldTable): set<string> {
    set id | id in before && id in after && after[id] != before[id]
  }

  /** The optional columns hold what the two strings say, and NULL exactly for the empty one. */
  predicate Stores(row: HoldRow, hold: HoldValue) {
    && (if hold.bookingId == "" then row.bookingId.None? else row.bookingId == Some(hold.bookingId))
    && (if hold.releaseReason == "" then row.releaseReason.None? else row.releaseReason == Some(hold.releaseReason))
  }

  class HoldRepository {
    var table: HoldTable

    constructor ()
      ensures table == map[]
    {
      table := map[];
    }

    method Create(hold: HoldValue, write: Write) returns (error: Option<RepositoryError>)
      modifies this
      ensures hold.id in old(table) ==> error.Some? && table == old(table)
      ensures hold.id !in old(table) && write.Applied() ==>
                table == old(table)[hold.id := Encode(hold)] && Find(table, hold.id) == Ok(hold)
      ensures hold.id !in old(table) && write.Applied() ==>
                var row := table[hold.id];
                && row.quoteId == hold.quoteId && row.customerId == hold.customerId
                && row.parkingSpaceId == hold.parkingSpaceId && row.expiresAt == hold.expiresAt
                && row.status == hold.status && Stores(row, hold)
      ensures hold.id !in old(table) && !write.Applied() ==> table == old(table)
      ensures error.None? <==> hold.id !in old(table) && write.Written?
    {
      if hold.id in table {
        return Some(ErrDuplicateKey);
      }
      if write.Applied() {
        table := table[hold.id := Encode(hold)];
      }
      error := if write.Written? then None else Some(ErrDatabase);
    }

    method FindByID(id: string, up: bool) returns (result: Result<HoldValue, RepositoryError>)
      ensures up ==> result == Find(table, id)
      ensures result.Ok? ==> result.value.id == id && id in table && result.value.status == table[id].status
      ensures result == Err(ErrHoldNotFound) <==> up && id !in table
      ensures result == Err(ErrDatabase) <==> !up
      ensures result.Ok? ==>
                var row, hold := table[id], result.value;
                && hold.quoteId == row.quoteId && hold.customerId == row.customerId
                && hold.parkingSpaceId == row.parkingSpaceId && hold.expiresAt == row.expiresAt
                && hold.bookingId == (if row.bookingId.None? then "" else row.bookingId.value)
                && hold.releaseReason == (if row.releaseReason.None? then "" else row.releaseReason.value)
    {
      if !up {
        return Err(ErrDatabase);
      }
      if id !in table {
        return Err(ErrHoldNotFound);
      }
      result := Ok(Decode(id, table[id]));
    }

    method Update(hold: HoldValue, write: Write) returns (error: Option<RepositoryError>)
      modifies this
      ensures table == if write.Applied() then Overwrite(old(table), hold) else old(table)
      ensures !write.Applied() ==> table == old(table)
      ensures table.Keys == old(table).Keys && forall id :: id in table && id != hold.id ==> table[id] == old(table)[id]
      ensures write.Applied() && hold.id in table ==>
                && table[hold.id].status == hold.status && Stores(table[hold.id], hold)
                && table[hold.id].quoteId == old(table)[hold.id].quoteId
                && table[hold.id].customerId == old(table)[hold.id].customerId
                && table[hold.id].parkingSpaceId == old(table)[hold.id].parkingSpaceId
                && table[hold.id].expiresAt == old(table)[hold.id].expiresAt
      ensures error == Some(ErrHoldNotFound) <==> write.Written? && hold.id !in old(table)
      ensures error == Some(ErrDatabase) <==> !write.Written?
      ensures error.None? <==> write.Written? && hold.id in old(table)
    {
      if write.Applied() {
        table := Overwrite(table, hold);
      }
      if !write.Written? {
        return Some(ErrDatabase);
      }
      error := if hold.id in table then None else Some(ErrHoldNotFound);
    }

    method Expire(now: Time, write: Write) returns (result: Result<nat, RepositoryError>)
      modifies this
      ensures table == if write.Applied() then Swept(old(table), now) else old(table)
      ensures table.Keys == old(table).Keys
      ensures forall id :: id in table ==>
                table[id] == if write.Applied() && old(table)[id].status.Active? && old(table)[id].expiresAt <= now
                             then old(table)[id].(status := Expired) else old(table)[id]
      ensures result == if write.Written? then Ok(|Changed(old(table), table)|) else Err(ErrDatabase)
      ensures write.Written? ==> forall id :: id in table && table[id].status.Active? ==> now < table[id].expiresAt
    {
      var count := |OverdueIds(table, now)|;
      assert OverdueIds(table, now) == Changed(table, Swept(table, now));
      if write.Applied() {
        table := Swept(table, now);
      }
      result := if write.Written? then Ok(count) else Err(ErrDatabase);
    }
  }

  // ---- Storage round trip ----

  /** All eight fields come back from storage, the empty string by way of NULL. */
  lemma RoundTrip(hold: HoldValue)
    ensures Decode(hold.id, Encode(hold)) == hold
  {
  }

  /** A statement of the repository that may follow the creation of a hold. */
  datatype Statement = InsertHold(hold: HoldValue) | UpdateHold(hold: HoldValue) | ExpireHolds(now: Time)

  function Execute(table: HoldTable, statement: Statement): HoldTable {
    match statement
    case InsertHold(hold) => if hold.id in table then table else table[hold.id := Encode(hold)]
    case UpdateHold(hold) => Overwrite(table, hold)
    case ExpireHolds(now) => Swept(table, now)
  }

  function ExecuteAll(table: HoldTable, statements: seq<Statement>): HoldTable
    decreases |statements|
  {
    if statements == [] then table else ExecuteAll(Execute(table, statements[0]), statements[1..])
  }

  /** The same on one hold, without a table. */
  function Replay(hold: HoldValue, statements: seq<Statement>): HoldValue
    decreases |statements|
  {
    if statements == [] then hold
    else
      var next :=
        match statements[0]
        case InsertHold(_) => hold
        case UpdateHold(u) =>
          if u.id == hold.id
          then hold.(status := u.status, bookingId := u.bookingId, releaseReason := u.releaseReason)
          else hold
        case ExpireHolds(now) => Settled(hold, now);
      Replay(next, statements[1..])
  }

  /** Reading a hold back after any statements, on any table: the five identifying fields are as
      created, and the other three are what a replay on the hold alone gives; a sweep amounts to
      carrying out the expiry due at its clock reading. */
  lemma {:induction false} StorageReplay(table: HoldTable, hold: HoldValue, statements: seq<Statement>)
    requires Find(table, hold.id) == Ok(hold)
    ensures Find(ExecuteAll(table, statements), hold.id) == Ok(Replay(hold, statements))
    ensures var end := Replay(hold, statements);
            && end.id == hold.id && end.quoteId == hold.quoteId && end.customerId == hold.customerId
            && end.parkingSpaceId == hold.parkingSpaceId && end.expiresAt == hold.expiresAt
    decreases |statements|
  {
    if statements != [] {
      var next := Execute(table, statements[0]);
      match statements[0] {
        case InsertHold(_) => StorageReplay(next, hold, statements[1..]);
        case UpdateHold(u) =>
          if u.id == hold.id {
            StorageReplay(next, hold.(status := u.status, bookingId := u.bookingId, releaseReason := u.releaseReason),
                          statements[1..]);
          } else {
            StorageReplay(next, hold, statements[1..]);
          }
        case ExpireHolds(now) => StorageReplay(next, Settled(hold, now), statements[1..]);
      }
    }
  }
}
