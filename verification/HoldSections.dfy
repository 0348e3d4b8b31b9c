/** Callers that work on a hold only while they have its coordination key: acquire, find, act,
    store, release. The key lasts as long as the hold does, and that is what makes it enough. */
module HoldSections {
  import opened Wrappers
  import opened Sequences
  import opened HoldDomain
  import opened HoldRepository
  import K = HoldCoordination
  import I = HoldInterleavings
  import HoldRuns

  /** A caller between its acquisition and its release, with the copy it has loaded. */
  datatype Session = Session(id: string, copy: Option<HoldValue>)

  /** `successes` lists the holds of the successful commands; the program does not store it. */
  datatype State = State(
    table: HoldTable,
    keys: K.Keys,
    now: Time,
    sessions: map<nat, Session>,
    successes: seq<string>)

  datatype Action =
    | Create(hold: HoldValue)
    | Acquire(session: nat, id: string, reply: Write)
    | Load(session: nat)
    | Act(session: nat, kind: Kind, argument: string)
    | Store(session: nat, write: Write)
    | Release(session: nat, reply: Write)
    | Abandon(session: nat)
    | Sweep(reading: Time)
    | Advance(until: Time)

  predicate Decided(status: HoldStatus) {
    status.Confirmed? || status.Released?
  }

  predicate HasCopy(s: State, i: nat) {
    i in s.sessions && s.sessions[i].copy.Some?
  }

  /** A caller loads once, and after a success it releases only what it has stored. It may stop at
      any point; a sweep may have a clock of its own. */
  predicate Enabled(s: State, a: Action) {
    match a
    case Create(hold) => hold.status.Active? && hold.id !in s.table
    case Acquire(i, id, _) => i !in s.sessions && id in s.table
    case Load(i) => i in s.sessions && s.sessions[i].copy.None? && s.sessions[i].id in s.table
    case Act(i, _, _) => HasCopy(s, i)
    case Store(i, _) => HasCopy(s, i)
    case Release(i, _) =>
      i in s.sessions &&
      (HasCopy(s, i) && Decided(s.sessions[i].copy.value.status) ==>
         Find(s.table, s.sessions[i].id) == Ok(s.sessions[i].copy.value))
    case Abandon(i) => i in s.sessions
    case Sweep(_) => true
    case Advance(until) => s.now <= until
  }

  function Next(environment: string, s: State, a: Action): State
    requires Enabled(s, a)
  {
    match a
    case Create(hold) => s.(table := s.table[hold.id := Encode(hold)])
    case Acquire(i, id, reply) =>
      var (keys, result) := K.AcquireKey(s.keys, K.Key(environment, id), s.now, s.table[id].expiresAt, reply);
      s.(keys := keys, sessions := if result.Acquired? then s.sessions[i := Session(id, None)] else s.sessions)
    case Load(i) =>
      var id := s.sessions[i].id;
      s.(sessions := s.sessions[i := Session(id, Some(Decode(id, s.table[id])))])
    case Act(i, kind, argument) =>
      var outcome := Perform(s.sessions[i].copy.value, kind, s.now, argument);
      s.(sessions := s.sessions[i := s.sessions[i].(copy := Some(outcome.hold))],
         successes := if outcome.error.None? then s.successes + [outcome.hold.id] else s.successes)
    case Store(i, write) =>
      if write.Applied() then s.(table := Overwrite(s.table, s.sessions[i].copy.value)) else s
    case Release(i, reply) =>
      var id := s.sessions[i].id;
      s.(keys := if reply.Applied() then s.keys - {K.Key(environment, id)} else s.keys, sessions := s.sessions - {i})
    case Abandon(i) => s.(sessions := s.sessions - {i})
    case Sweep(reading) => s.(table := Swept(s.table, reading))
    case Advance(until) => s.(now := until)
  }

  ghost predicate IsRun(environment: string, s: State, actions: seq<Action>)
    decreases |actions|
  {
    actions == [] || (Enabled(s, actions[0]) && IsRun(environment, Next(environment, s, actions[0]), actions[1..]))
  }

  ghost function Final(environment: string, s: State, actions: seq<Action>): State
    requires IsRun(environment, s, actions)
    decreases |actions|
  {
    if actions == [] then s else Final(environment, Next(environment, s, actions[0]), actions[1..])
  }

  // ---- The invariant ----

  predicate On(s: State, i: nat, id: string) {
    i in s.sessions && s.sessions[i].id == id
  }

  predicate KeyLasts(environment: string, s: State, id: string)
    requires id in s.table
  {
    K.Key(environment, id) in s.keys && s.keys[K.Key(environment, id)] == s.table[id].expiresAt
  }

  /** A session is the only one on its hold, and has its key as long as the hold lasts. */
  ghost predicate Alone(environment: string, s: State) {
    && (forall i, j :: i in s.sessions && j in s.sessions && s.sessions[i].id == s.sessions[j].id ==> i == j)
    && (forall i :: i in s.sessions ==>
          && s.sessions[i].id in s.table
          && (s.now < s.table[s.sessions[i].id].expiresAt ==> KeyLasts(environment, s, s.sessions[i].id)))
  }

  /** A copy is of the session's hold; and if that is decided in the table, the copy shows it. */
  ghost predicate CopyCurrent(table: HoldTable, id: string, copy: HoldValue) {
    && copy.id == id && I.SameHold(table, copy)
    && (Decided(table[id].status) ==> copy == Decode(id, table[id]))
  }

  ghost predicate CopiesCurrent(s: State) {
    forall i :: HasCopy(s, i) ==> CopyCurrent(s.table, s.sessions[i].id, s.sessions[i].copy.value)
  }

  /** No command on the hold can succeed any more: the table or the only session shows a decision,
      or the hold's time is up, or nobody has access until it is. */
  ghost predicate Closed(environment: string, s: State, id: string)
    requires id in s.table
  {
    || Decided(s.table[id].status)
    || s.now >= s.table[id].expiresAt
    || (exists i :: On(s, i, id) && HasCopy(s, i) && Decided(s.sessions[i].copy.value.status))
    || ((forall i :: !On(s, i, id)) && KeyLasts(environment, s, id))
  }

  ghost predicate OneSuccess(environment: string, s: State) {
    forall id ::
      && Count(s.successes, id) <= 1
      && (Count(s.successes, id) == 1 ==> id in s.table && Closed(environment, s, id))
  }

  ghost predicate Inv(environment: string, s: State) {
    Alone(environment, s) && CopiesCurrent(s) && OneSuccess(environment, s)
  }

  // ---- Every step keeps it ----

  /** Stored holds stay, with their identity; a row changes only by expiring or by the store of its own copy. */
  lemma TableStep(environment: string, s: State, a: Action, id: string)
    requires Enabled(s, a) && id in s.table
    ensures var table' := Next(environment, s, a).table;
            && id in table'
            && table'[id].expiresAt == s.table[id].expiresAt
            && I.Identity(Decode(id, table'[id])) == I.Identity(Decode(id, s.table[id]))
            && (table'[id] != s.table[id] ==>
                  || (a.Sweep? && s.table[id].status.Active?)
                  || (a.Store? && s.sessions[a.session].copy.value.id == id))
  {
  }

  /** An acquisition that is granted had no session on the hold beside it, and its key lasts. */
  lemma AcquireStep(environment: string, s: State, i: nat, id: string, reply: Write)
    requires Enabled(s, Acquire(i, id, reply)) && Alone(environment, s)
    requires i in Next(environment, s, Acquire(i, id, reply)).sessions
    ensures forall j :: !On(s, j, id)
    ensures s.now < s.table[id].expiresAt
    ensures KeyLasts(environment, Next(environment, s, Acquire(i, id, reply)), id)
  {
  }

  /** The keys of other holds are not touched. */
  lemma KeysStep(environment: string, s: State, a: Action, id: string)
    requires Enabled(s, a) && id in s.table
    requires a.Release? ==> !On(s, a.session, id)
    ensures KeyLasts(environment, s, id) && s.now < s.table[id].expiresAt ==>
              KeyLasts(environment, Next(environment, s, a), id)
  {
    if a.Acquire? && a.id != id && K.Key(environment, a.id) == K.Key(environment, id) {
      K.KeyInjective(environment, a.id, id);
    }
    if a.Release? && K.Key(environment, s.sessions[a.session].id) == K.Key(environment, id) {
      K.KeyInjective(environment, s.sessions[a.session].id, id);
    }
    TableStep(environment, s, a, id);
  }

  lemma SessionStep(environment: string, s: State, a: Action, i: nat)
    requires Enabled(s, a) && i in Next(environment, s, a).sessions
    ensures var s' := Next(environment, s, a);
            || (a.Acquire? && a.session == i && i !in s.sessions && s'.sessions[i] == Session(a.id, None))
            || (i in s.sessions && s'.sessions[i].id == s.sessions[i].id)
    ensures s.now <= Next(environment, s, a).now
  {
  }

  lemma StepAlone(environment: string, s: State, a: Action)
    requires Enabled(s, a) && Alone(environment, s)
    ensures Alone(environment, Next(environment, s, a))
  {
    var s' := Next(environment, s, a);
    forall i, j | i in s'.sessions && j in s'.sessions && s'.sessions[i].id == s'.sessions[j].id ensures i == j {
      SessionStep(environment, s, a, i);
      SessionStep(environment, s, a, j);
      if a.Acquire? && a.session in s'.sessions && a.session !in s.sessions {
        AcquireStep(environment, s, a.session, a.id, a.reply);
        assert i in s.sessions ==> !On(s, i, a.id);
        assert j in s.sessions ==> !On(s, j, a.id);
      }
    }
    forall i | i in s'.sessions
      ensures s'.sessions[i].id in s'.table
      ensures s'.now < s'.table[s'.sessions[i].id].expiresAt ==> KeyLasts(environment, s', s'.sessions[i].id)
    {
      SessionStep(environment, s, a, i);
      var id := s'.sessions[i].id;
      TableStep(environment, s, a, id);
      if i in s.sessions {
        assert a.Release? ==> !On(s, a.session, id);
        KeysStep(environment, s, a, id);
      } else {
        AcquireStep(environment, s, i, id, a.reply);
      }
    }
  }

  lemma StoreDecodes(table: HoldTable, copy: HoldValue)
    requires I.SameHold(table, copy)
    ensures Find(Overwrite(table, copy), copy.id) == Ok(copy)
  {
    assert copy == I.Identity(copy).(status := copy.status, bookingId := copy.bookingId,
                                     releaseReason := copy.releaseReason);
  }

  lemma CopyStep(environment: string, s: State, a: Action, i: nat)
    requires Enabled(s, a) && Alone(environment, s) && CopiesCurrent(s) && HasCopy(Next(environment, s, a), i)
    ensures var s' := Next(environment, s, a); CopyCurrent(s'.table, s'.sessions[i].id, s'.sessions[i].copy.value)
  {
    if a.Store? {
      StoreStep(environment, s, a, i);
    } else if a.Load? && a.session == i {
    } else if a.Act? && a.session == i {
      assert CopyCurrent(s.table, s.sessions[i].id, s.sessions[i].copy.value);
    } else {
      OtherStep(environment, s, a, i);
    }
  }

  /** Sessions are on different holds, so a store touches no row but that of its own copy. */
  lemma StoreStep(environment: string, s: State, a: Action, i: nat)
    requires a.Store? && Enabled(s, a) && Alone(environment, s) && CopiesCurrent(s) && HasCopy(s, i)
    ensures CopyCurrent(Next(environment, s, a).table, s.sessions[i].id, s.sessions[i].copy.value)
  {
    var stored := s.sessions[a.session].copy.value;
    assert CopyCurrent(s.table, s.sessions[a.session].id, stored);
    assert CopyCurrent(s.table, s.sessions[i].id, s.sessions[i].copy.value);
    StoreDecodes(s.table, stored);
  }

  lemma OtherStep(environment: string, s: State, a: Action, i: nat)
    requires Enabled(s, a) && CopiesCurrent(s) && HasCopy(Next(environment, s, a), i) && !a.Store?
    requires (a.Load? || a.Act?) ==> a.session != i
    ensures var s' := Next(environment, s, a);
            HasCopy(s, i) && s'.sessions[i] == s.sessions[i]
                && CopyCurrent(s'.table, s.sessions[i].id, s.sessions[i].copy.value)
  {
    SessionStep(environment, s, a, i);
    assert CopyCurrent(s.table, s.sessions[i].id, s.sessions[i].copy.value);
    TableStep(environment, s, a, s.sessions[i].id);
  }

  lemma StepCopies(environment: string, s: State, a: Action)
    requires Enabled(s, a) && Alone(environment, s) && CopiesCurrent(s)
    ensures CopiesCurrent(Next(environment, s, a))
  {
    var s' := Next(environment, s, a);
    forall i | HasCopy(s', i) ensures CopyCurrent(s'.table, s'.sessions[i].id, s'.sessions[i].copy.value) {
      CopyStep(environment, s, a, i);
    }
  }

  // ---- At most one success ----

  lemma SuccessStep(environment: string, s: State, a: Action, id: string)
    requires Enabled(s, a) && CopiesCurrent(s)
    ensures var s' := Next(environment, s, a);
            Count(s'.successes, id) == Count(s.successes, id)
                + (if Succeeds(s, a) && s.sessions[a.session].id == id then 1 else 0)
  {
    if Succeeds(s, a) {
      assert CopyCurrent(s.table, s.sessions[a.session].id, s.sessions[a.session].copy.value);
      CountAppend(s.successes, s.sessions[a.session].id, id);
    }
  }

  predicate Succeeds(s: State, a: Action) {
    a.Act? && HasCopy(s, a.session) &&
    Perform(s.sessions[a.session].copy.value, a.kind, s.now, a.argument).error.None?
  }

  /** On a closed hold no command succeeds. */
  lemma ClosedRefuses(environment: string, s: State, a: Action)
    requires Enabled(s, a) && Succeeds(s, a) && Alone(environment, s) && CopiesCurrent(s)
    ensures !Closed(environment, s, s.sessions[a.session].id)
  {
    var id, copy := s.sessions[a.session].id, s.sessions[a.session].copy.value;
    assert CopyCurrent(s.table, id, copy);
    assert I.Identity(copy).expiresAt == s.table[id].expiresAt;
    assert On(s, a.session, id);
  }

  /** A successful command closes its hold. */
  lemma SuccessCloses(environment: string, s: State, a: Action)
    requires Enabled(s, a) && Succeeds(s, a) && Alone(environment, s)
    ensures Closed(environment, Next(environment, s, a), s.sessions[a.session].id)
  {
    var s' := Next(environment, s, a);
    assert On(s', a.session, s.sessions[a.session].id) && HasCopy(s', a.session);
  }

  /** Nobody gets to a hold whose key is taken. */
  lemma NoEntry(environment: string, s: State, a: Action, i: nat, id: string)
    requires Enabled(s, a) && id in s.table && !On(s, i, id)
    requires KeyLasts(environment, s, id) && s.now < s.table[id].expiresAt
    ensures !On(Next(environment, s, a), i, id)
  {
  }

  lemma StaysClosed(environment: string, s: State, a: Action, id: string)
    requires Enabled(s, a) && Alone(environment, s) && CopiesCurrent(s) && id in s.table && Closed(environment, s, id)
    ensures Closed(environment, Next(environment, s, a), id)
  {
    TableStep(environment, s, a, id);
    var s' := Next(environment, s, a);
    if s'.now >= s'.table[id].expiresAt {
    } else if Decided(s.table[id].status) {
      DecidedStep(environment, s, a, id);
    } else if i :| On(s, i, id) && HasCopy(s, i) && Decided(s.sessions[i].copy.value.status) {
      DecidedCopyStep(environment, s, a, i);
    } else {
      KeysStep(environment, s, a, id);
      forall i ensures !On(s', i, id) {
        assert !On(s, i, id);
        NoEntry(environment, s, a, i, id);
      }
    }
  }

  /** A decided hold is final: whatever is stored later shows the same. */
  lemma DecidedStep(environment: string, s: State, a: Action, id: string)
    requires Enabled(s, a) && CopiesCurrent(s) && id in s.table && Decided(s.table[id].status)
    ensures Find(Next(environment, s, a).table, id) == Find(s.table, id)
  {
    TableStep(environment, s, a, id);
    if a.Store? && s.sessions[a.session].copy.value.id == id {
      assert CopyCurrent(s.table, s.sessions[a.session].id, s.sessions[a.session].copy.value);
    }
  }

  /** A decision that only a session's copy shows ends up in the table, or takes the key with it. */
  lemma DecidedCopyStep(environment: string, s: State, a: Action, i: nat)
    requires Enabled(s, a) && Alone(environment, s) && CopiesCurrent(s)
    requires HasCopy(s, i) && Decided(s.sessions[i].copy.value.status)
    requires Next(environment, s, a).now < s.table[s.sessions[i].id].expiresAt
    ensures Closed(environment, Next(environment, s, a), s.sessions[i].id)
  {
    var s', id, copy := Next(environment, s, a), s.sessions[i].id, s.sessions[i].copy.value;
    TableStep(environment, s, a, id);
    assert CopyCurrent(s.table, id, copy);
    if a.Abandon? && a.session == i {
      forall j ensures !On(s', j, id) {
        assert On(s, j, id) ==> j == i;
      }
      assert KeyLasts(environment, s, id);
    } else if !(a.Release? && a.session == i) {
      assert On(s', i, id) && HasCopy(s', i) && s'.sessions[i].copy == s.sessions[i].copy;
    }
  }

  lemma CountStays(environment: string, s: State, a: Action, id: string)
    requires Enabled(s, a) && Inv(environment, s)
    ensures var s' := Next(environment, s, a);
            && Count(s'.successes, id) <= 1
            && (Count(s'.successes, id) == 1 ==> id in s'.table && Closed(environment, s', id))
  {
    SuccessStep(environment, s, a, id);
    if Succeeds(s, a) && s.sessions[a.session].id == id {
      ClosedRefuses(environment, s, a);
      SuccessCloses(environment, s, a);
      TableStep(environment, s, a, id);
    } else if Count(s.successes, id) == 1 {
      StaysClosed(environment, s, a, id);
      TableStep(environment, s, a, id);
    }
  }

  lemma StepKeeps(environment: string, s: State, a: Action)
    requires Enabled(s, a) && Inv(environment, s)
    ensures Inv(environment, Next(environment, s, a))
  {
    StepAlone(environment, s, a);
    StepCopies(environment, s, a);
    forall id
      ensures var s' := Next(environment, s, a);
              && Count(s'.successes, id) <= 1
              && (Count(s'.successes, id) == 1 ==> id in s'.table && Closed(environment, s', id))
    {
      CountStays(environment, s, a, id);
    }
  }

  lemma {:induction false} RunKeeps(environment: string, s: State, actions: seq<Action>)
    requires IsRun(environment, s, actions) && Inv(environment, s)
    ensures Inv(environment, Final(environment, s, actions))
    ensures forall id :: id in s.table && Decided(s.table[id].status) ==>
              Find(Final(environment, s, actions).table, id) == Find(s.table, id)
    decreases |actions|
  {
    if actions != [] {
      var next := Next(environment, s, actions[0]);
      StepKeeps(environment, s, actions[0]);
      RunKeeps(environment, next, actions[1..]);
      forall id | id in s.table && Decided(s.table[id].status)
        ensures Find(Final(environment, s, actions).table, id) == Find(s.table, id)
      {
        DecidedStep(environment, s, actions[0], id);
      }
    }
  }

  /** The actions of one caller that is not interrupted. */
  function Section(i: nat, id: string, kind: Kind, argument: string, store: bool): seq<Action> {
    [Acquire(i, id, Written), Load(i), Act(i, kind, argument)]
    + (if store then [Store(i, Written)] else []) + [Action.Release(i, Written)]
  }

  lemma OneStep(environment: string, s: State, a: Action, rest: seq<Action>)
    requires Enabled(s, a) && IsRun(environment, Next(environment, s, a), rest)
    ensures IsRun(environment, s, [a] + rest)
    ensures Final(environment, s, [a] + rest) == Final(environment, Next(environment, s, a), rest)
  {
    assert ([a] + rest)[1..] == rest;
  }

  /** Acquiring a free key and loading the hold. */
  lemma Entered(environment: string, s: State, i: nat, id: string)
    requires i !in s.sessions && id in s.table && s.now < s.table[id].expiresAt
    requires !K.Held(s.keys, K.Key(environment, id), s.now)
    ensures Enabled(s, Acquire(i, id, Written))
    ensures Enabled(Next(environment, s, Acquire(i, id, Written)), Load(i))
    ensures Next(environment, Next(environment, s, Acquire(i, id, Written)), Load(i))
         == s.(keys := s.keys[K.Key(environment, id) := s.table[id].expiresAt],
               sessions := s.sessions[i := Session(id, Some(Decode(id, s.table[id])))])
  {
  }

  /** Acting on a copy that is up to date, and storing it. */
  lemma Worked(environment: string, s: State, i: nat, id: string, kind: Kind, argument: string, storeOnError: bool)
    returns (s3: State, s4: State)
    requires id in s.table && i in s.sessions && s.sessions[i] == Session(id, Some(Decode(id, s.table[id])))
    ensures Enabled(s, Act(i, kind, argument)) && s3 == Next(environment, s, Act(i, kind, argument))
    ensures Enabled(s3, Store(i, Written))
    ensures var outcome := Perform(Decode(id, s.table[id]), kind, s.now, argument);
            && s4 == (if outcome.error.None? || storeOnError then Next(environment, s3, Store(i, Written)) else s3)
            && s4.table == HoldRuns.Step(s.table, HoldRuns.Command(id, kind, s.now, argument, storeOnError))
            && s4.keys == s.keys && s4.now == s.now
            && s4.sessions == s.sessions[i := Session(id, Some(outcome.hold))]
            && s4.successes == (if outcome.error.None? then s.successes + [id] else s.successes)
    ensures Enabled(s4, Action.Release(i, Written))
  {
    var outcome := Perform(Decode(id, s.table[id]), kind, s.now, argument);
    s3 := Next(environment, s, Act(i, kind, argument));
    s4 := if outcome.error.None? || storeOnError then Next(environment, s3, Store(i, Written)) else s3;
    DecidedStored(s.table, id, kind, s.now, argument, storeOnError);
  }

  /** A decided outcome is what the table shows after the command. */
  lemma DecidedStored(table: HoldTable, id: string, kind: Kind, now: Time, argument: string, storeOnError: bool)
    requires id in table
    ensures var outcome := Perform(Decode(id, table[id]), kind, now, argument);
            Decided(outcome.hold.status) ==>
              Find(HoldRuns.Step(table, HoldRuns.Command(id, kind, now, argument, storeOnError)), id)
                  == Ok(outcome.hold)
  {
  }

  lemma Left(environment: string, s: State, i: nat, id: string)
    requires i in s.sessions && s.sessions[i].id == id && Enabled(s, Action.Release(i, Written))
    ensures Next(environment, s, Action.Release(i, Written))
         == s.(keys := s.keys - {K.Key(environment, id)}, sessions := s.sessions - {i})
  {
  }

  /** The whole section, given its five states. */
  lemma SectionRuns(environment: string, s: State, i: nat, id: string, kind: Kind, argument: string, store: bool)
    requires Enabled(s, Acquire(i, id, Written))
    requires var s1 := Next(environment, s, Acquire(i, id, Written));
             Enabled(s1, Load(i)) &&
             var s2 := Next(environment, s1, Load(i));
             Enabled(s2, Act(i, kind, argument)) &&
             var s3 := Next(environment, s2, Act(i, kind, argument));
             Enabled(s3, Store(i, Written)) &&
             Enabled(if store then Next(environment, s3, Store(i, Written)) else s3, Action.Release(i, Written))
    ensures var s2 := Next(environment, Next(environment, s, Acquire(i, id, Written)), Load(i));
            var s3 := Next(environment, s2, Act(i, kind, argument));
            var s4 := if store then Next(environment, s3, Store(i, Written)) else s3;
            && IsRun(environment, s, Section(i, id, kind, argument, store))
            && Final(environment, s, Section(i, id, kind, argument, store))
               == Next(environment, s4, Action.Release(i, Written))
  {
    var s1 := Next(environment, s, Acquire(i, id, Written));
    var s2 := Next(environment, s1, Load(i));
    var s3 := Next(environment, s2, Act(i, kind, argument));
    var s4 := if store then Next(environment, s3, Store(i, Written)) else s3;
    var leave := [Action.Release(i, Written)];
    OneStep(environment, s4, Action.Release(i, Written), []);
    assert leave + [] == leave;
    if store {
      OneStep(environment, s3, Store(i, Written), leave);
    }
    var tail := (if store then [Store(i, Written)] else []) + leave;
    assert !store ==> tail == leave;
    OneStep(environment, s2, Act(i, kind, argument), tail);
    OneStep(environment, s1, Load(i), [Act(i, kind, argument)] + tail);
    OneStep(environment, s, Acquire(i, id, Written), [Load(i)] + ([Act(i, kind, argument)] + tail));
    assert Section(i, id, kind, argument, store)
        == [Acquire(i, id, Written)] + ([Load(i)] + ([Act(i, kind, argument)] + tail));
  }

  /** An uninterrupted section has the effect of the serial command, and frees the key. */
  lemma SectionIsCommand(environment: string, s: State, i: nat, id: string, kind: Kind, argument: string,
                         storeOnError: bool)
    requires i !in s.sessions && id in s.table && s.now < s.table[id].expiresAt
    requires !K.Held(s.keys, K.Key(environment, id), s.now)
    ensures var outcome := Perform(Decode(id, s.table[id]), kind, s.now, argument);
            var actions := Section(i, id, kind, argument, outcome.error.None? || storeOnError);
            && IsRun(environment, s, actions)
            && var s' := Final(environment, s, actions);
               && s'.table == HoldRuns.Step(s.table, HoldRuns.Command(id, kind, s.now, argument, storeOnError))
               && K.Key(environment, id) !in s'.keys && s'.sessions == s.sessions && s'.now == s.now
               && s'.successes == (if outcome.error.None? then s.successes + [id] else s.successes)
  {
    Entered(environment, s, i, id);
    var s2 := Next(environment, Next(environment, s, Acquire(i, id, Written)), Load(i));
    var s3, s4 := Worked(environment, s2, i, id, kind, argument, storeOnError);
    Left(environment, s4, i, id);
    SectionRuns(environment, s, i, id, kind, argument,
                Perform(Decode(id, s.table[id]), kind, s.now, argument).error.None? || storeOnError);
    assert s4.sessions - {i} == s.sessions;
  }

  function Start(now: Time): State {
    State(map[], map[], now, map[], [])
  }

  /** Callers that keep to the key, in any number and any interleaving, with lost replies, failed
      stores, callers that vanish in the middle and sweeps by any clock: at most one command per
      hold ever succeeds. It does not matter that a caller may go on after its key has run out,
      since no command succeeds by then. Without the key this fails
      (HoldInterleavings.BothSucceed). */
  lemma AtMostOneSuccess(environment: string, now: Time, actions: seq<Action>, id: string)
    requires IsRun(environment, Start(now), actions)
    ensures Count(Final(environment, Start(now), actions).successes, id) <= 1
  {
    RunKeeps(environment, Start(now), actions);
  }

  /** Nor is an update lost: once the table shows a hold confirmed or released, every later read
      shows the same. */
  lemma DecisionsLast(environment: string, now: Time, actions: seq<Action>, later: seq<Action>, id: string)
    requires IsRun(environment, Start(now), actions)
    requires IsRun(environment, Final(environment, Start(now), actions), later)
    requires id in Final(environment, Start(now), actions).table
    requires Decided(Final(environment, Start(now), actions).table[id].status)
    ensures var s := Final(environment, Start(now), actions);
            Find(Final(environment, s, later).table, id) == Find(s.table, id)
  {
    RunKeeps(environment, Start(now), actions);
    RunKeeps(environment, Final(environment, Start(now), actions), later);
  }
}
