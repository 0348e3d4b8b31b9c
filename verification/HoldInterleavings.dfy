/** Callers that load, change and store holds without coordination, while sweeps run: the
    repository's update overwrites whatever is there. */
module HoldInterleavings {
  import opened Wrappers
  import opened HoldDomain
  import opened HoldRepository
  import HoldRuns

  /** A successful command: a confirmation with its booking id or a release with its reason. */
  datatype Success = Success(id: string, kind: Kind, now: Time, argument: string)

  /** `sessions` are the copies callers hold. `successes` and `readings` record the successful
      commands and all clock readings so far; neither is stored by the program. */
  datatype State = State(
    table: HoldTable,
    sessions: map<nat, HoldValue>,
    successes: seq<Success>,
    readings: seq<Time>)

  const INITIAL: State := State(map[], map[], [], [])

  datatype Action =
    | Create(hold: HoldValue)
    | Load(session: nat, id: string)
    | Act(session: nat, kind: Kind, now: Time, argument: string)
    | Store(session: nat)
    | Sweep(now: Time)

  /** A hold as it is first stored. */
  predicate Fresh(hold: HoldValue) {
    hold.status.Active? && hold.bookingId == "" && hold.releaseReason == ""
  }

  predicate Enabled(s: State, a: Action) {
    match a
    case Create(hold) => Fresh(hold) && hold.id !in s.table
    case Load(_, id) => id in s.table
    case Act(session, _, _, _) => session in s.sessions
    case Store(session) => session in s.sessions
    case Sweep(_) => true
  }

  function Next(s: State, a: Action): State
    requires Enabled(s, a)
  {
    match a
    case Create(hold) => s.(table := s.table[hold.id := Encode(hold)])
    case Load(session, id) => s.(sessions := s.sessions[session := Decode(id, s.table[id])])
    case Act(session, kind, now, argument) =>
      var outcome := Perform(s.sessions[session], kind, now, argument);
      State(s.table, s.sessions[session := outcome.hold],
            if outcome.error.None? then s.successes + [Success(outcome.hold.id, kind, now, argument)] else s.successes,
            s.readings + [now])
    case Store(session) => s.(table := Overwrite(s.table, s.sessions[session]))
    case Sweep(now) => s.(table := Swept(s.table, now), readings := s.readings + [now])
  }

  ghost predicate IsRun(s: State, actions: seq<Action>)
    decreases |actions|
  {
    actions == [] || (Enabled(s, actions[0]) && IsRun(Next(s, actions[0]), actions[1..]))
  }

  ghost function Final(s: State, actions: seq<Action>): State
    requires IsRun(s, actions)
    decreases |actions|
  {
    if actions == [] then s else Final(Next(s, actions[0]), actions[1..])
  }

  // ---- What every interleaving keeps ----

  /** Status and the two optional fields agree, and no status is without its cause. */
  ghost predicate Sound(s: State, hold: HoldValue) {
    && (hold.status.Confirmed? <==> hold.bookingId != "")
    && (hold.status.Released? <==> hold.releaseReason != "")
    && (hold.status.Confirmed? ==> Caused(s.successes, hold.id, Confirm, hold.bookingId, hold.expiresAt))
    && (hold.status.Released? ==> Caused(s.successes, hold.id, Release, hold.releaseReason, hold.expiresAt))
    && (hold.status.Expired? ==> ReadAtLeast(s.readings, hold.expiresAt))
  }

  /** A successful command of that kind, with that argument, at a time before the expiry. */
  ghost predicate Caused(successes: seq<Success>, id: string, kind: Kind, argument: string, expiresAt: Time) {
    exists i :: 0 <= i < |successes| && successes[i].id == id && successes[i].kind == kind
      && successes[i].argument == argument && successes[i].now < expiresAt
  }

  ghost predicate ReadAtLeast(readings: seq<Time>, expiresAt: Time) {
    exists i :: 0 <= i < |readings| && readings[i] >= expiresAt
  }

  /** The fields no statement changes. */
  function Identity(hold: HoldValue): HoldValue {
    hold.(status := Active, bookingId := "", releaseReason := "")
  }

  ghost predicate Inv(s: State) {
    && (forall id :: id in s.table ==> Sound(s, Decode(id, s.table[id])))
    && (forall i :: i in s.sessions ==> Sound(s, s.sessions[i]))
    && (forall i :: i in s.sessions ==> SameHold(s.table, s.sessions[i]))
  }

  /** The copy is one of a stored hold. */
  ghost predicate SameHold(table: HoldTable, hold: HoldValue) {
    hold.id in table && Identity(hold) == Identity(Decode(hold.id, table[hold.id]))
  }

  lemma Remembered(s: State, s': State, hold: HoldValue)
    requires s.successes <= s'.successes && s.readings <= s'.readings && Sound(s, hold)
    ensures Sound(s', hold)
  {
    if hold.status.Confirmed? {
      var i :| 0 <= i < |s.successes| && s.successes[i].id == hold.id && s.successes[i].kind == Confirm
        && s.successes[i].argument == hold.bookingId && s.successes[i].now < hold.expiresAt;
      assert s'.successes[i] == s.successes[i];
    } else if hold.status.Released? {
      var i :| 0 <= i < |s.successes| && s.successes[i].id == hold.id && s.successes[i].kind == Release
        && s.successes[i].argument == hold.releaseReason && s.successes[i].now < hold.expiresAt;
      assert s'.successes[i] == s.successes[i];
    } else if hold.status.Expired? {
      var i :| 0 <= i < |s.readings| && s.readings[i] >= hold.expiresAt;
      assert s'.readings[i] == s.readings[i];
    }
  }

  lemma ActSound(s: State, a: Action)
    requires a.Act? && Enabled(s, a) && Sound(s, s.sessions[a.session])
    ensures Sound(Next(s, a), Next(s, a).sessions[a.session])
  {
    var s' := Next(s, a);
    var hold := s.sessions[a.session];
    assert s'.readings[|s.readings|] == a.now;
    if |s'.successes| > |s.successes| {
      assert s'.successes[|s.successes|] == Success(hold.id, a.kind, a.now, a.argument);
    }
    Remembered(s, s', hold);
  }

  /** A swept row is sound on account of the sweep's own reading. */
  lemma SweepSound(s: State, now: Time, id: string)
    requires id in s.table && Sound(s, Decode(id, s.table[id]))
    ensures Sound(Next(s, Sweep(now)), Decode(id, Swept(s.table, now)[id]))
  {
    var s' := Next(s, Sweep(now));
    assert s'.readings[|s.readings|] == now;
    Remembered(s, s', Decode(id, s.table[id]));
  }

  /** Whatever a step does to the table, stored holds stay and keep their identity. */
  lemma IdentityKept(s: State, a: Action, id: string)
    requires Enabled(s, a) && id in s.table
    ensures id in Next(s, a).table
    ensures Identity(Decode(id, Next(s, a).table[id])) == Identity(Decode(id, s.table[id]))
  {
  }

  lemma TableSound(s: State, a: Action, id: string)
    requires Enabled(s, a) && Inv(s) && id in Next(s, a).table
    ensures Sound(Next(s, a), Decode(id, Next(s, a).table[id]))
  {
    var s' := Next(s, a);
    match a {
      case Create(hold) =>
        if id != hold.id { Remembered(s, s', Decode(id, s.table[id])); }
      case Store(session) =>
        var hold := s.sessions[session];
        Remembered(s, s', hold);
        if id == hold.id {
          assert Identity(hold) == Identity(Decode(id, s.table[id]));
          assert Decode(id, s'.table[id]) == hold by {
            assert hold == Identity(hold).(status := hold.status, bookingId := hold.bookingId,
                                           releaseReason := hold.releaseReason);
          }
        } else {
          Remembered(s, s', Decode(id, s.table[id]));
        }
      case Sweep(now) => SweepSound(s, now, id);
      case _ => Remembered(s, s', Decode(id, s.table[id]));
    }
  }

  /** The session a step changes: the copy just loaded, or the copy just acted on. */
  lemma OwnSession(s: State, a: Action)
    requires Enabled(s, a) && Inv(s) && (a.Load? || a.Act?)
    ensures Sound(Next(s, a), Next(s, a).sessions[a.session])
    ensures SameHold(Next(s, a).table, Next(s, a).sessions[a.session])
  {
    if a.Act? {
      ActSound(s, a);
    } else {
      Remembered(s, Next(s, a), Decode(a.id, s.table[a.id]));
    }
  }

  lemma OtherSession(s: State, a: Action, i: nat)
    requires Enabled(s, a) && i in s.sessions && Sound(s, s.sessions[i]) && SameHold(s.table, s.sessions[i])
    ensures Sound(Next(s, a), s.sessions[i])
    ensures SameHold(Next(s, a).table, s.sessions[i])
  {
    Remembered(s, Next(s, a), s.sessions[i]);
    IdentityKept(s, a, s.sessions[i].id);
  }

  lemma SessionSound(s: State, a: Action, i: nat)
    requires Enabled(s, a) && Inv(s) && i in Next(s, a).sessions
    ensures Sound(Next(s, a), Next(s, a).sessions[i])
    ensures SameHold(Next(s, a).table, Next(s, a).sessions[i])
  {
    if (a.Load? || a.Act?) && a.session == i {
      OwnSession(s, a);
    } else {
      OtherSession(s, a, i);
    }
  }

  lemma StepKeeps(s: State, a: Action)
    requires Enabled(s, a) && Inv(s)
    ensures Inv(Next(s, a))
  {
    forall id | id in Next(s, a).table ensures Sound(Next(s, a), Decode(id, Next(s, a).table[id])) {
      TableSound(s, a, id);
    }
    forall i | i in Next(s, a).sessions
      ensures Sound(Next(s, a), Next(s, a).sessions[i]) && SameHold(Next(s, a).table, Next(s, a).sessions[i])
    {
      SessionSound(s, a, i);
    }
  }

  lemma {:induction false} RunKeeps(s: State, actions: seq<Action>)
    requires IsRun(s, actions) && Inv(s)
    ensures Inv(Final(s, actions))
    ensures forall id :: id in s.table ==>
              && id in Final(s, actions).table
              && Identity(Decode(id, Final(s, actions).table[id])) == Identity(Decode(id, s.table[id]))
    decreases |actions|
  {
    if actions != [] {
      StepKeeps(s, actions[0]);
      RunKeeps(Next(s, actions[0]), actions[1..]);
      forall id | id in s.table
        ensures id in Final(s, actions).table
        ensures Identity(Decode(id, Final(s, actions).table[id])) == Identity(Decode(id, s.table[id]))
      {
        IdentityKept(s, actions[0], id);
      }
    }
  }

  /** Every interleaving of loads, commands, overwriting stores and sweeps keeps every stored hold
      sound, lost updates included. */
  lemma HoldsStaySound(actions: seq<Action>, id: string)
    requires IsRun(INITIAL, actions) && id in Final(INITIAL, actions).table
    ensures var s := Final(INITIAL, actions); Sound(s, Decode(id, s.table[id]))
  {
    RunKeeps(INITIAL, actions);
  }

  // ---- What it does not keep ----

  lemma OneStep(s: State, a: Action, rest: seq<Action>)
    requires Enabled(s, a) && IsRun(Next(s, a), rest)
    ensures IsRun(s, [a] + rest) && Final(s, [a] + rest) == Final(Next(s, a), rest)
  {
    assert ([a] + rest)[1..] == rest;
  }

  /** The actions of a command carried out without interruption, or of a sweep. */
  function SerialActions(op: HoldRuns.Op, store: bool): seq<Action> {
    match op
    case Sweep(now) => [Sweep(now)]
    case Command(id, kind, now, argument, _) =>
      [Load(0, id)] + ([Act(0, kind, now, argument)] + if store then [Store(0)] else [])
  }

  /** A serial history is a special interleaving: each of its operations is an uninterrupted run of
      load, act and, where it stores, store, with the same effect on the table. */
  lemma SerialIsRun(s: State, op: HoldRuns.Op)
    requires op.Command? ==> op.id in s.table
    ensures var store := op.Command? &&
              (op.storeOnError || Perform(Decode(op.id, s.table[op.id]), op.kind, op.now, op.argument).error.None?);
            && IsRun(s, SerialActions(op, store))
            && Final(s, SerialActions(op, store)).table == HoldRuns.Step(s.table, op)
  {
    match op {
      case Sweep(now) =>
        assert Final(Next(s, Sweep(now)), []) == Next(s, Sweep(now));
        OneStep(s, Sweep(now), []);
        assert [Action.Sweep(now)] + [] == [Action.Sweep(now)];
      case Command(id, kind, now, argument, storeOnError) =>
        var s1 := Next(s, Load(0, id));
        var s2 := Next(s1, Act(0, kind, now, argument));
        var s3 := Next(s2, Store(0));
        var store := storeOnError || Perform(Decode(id, s.table[id]), kind, now, argument).error.None?;
        if store {
          assert Final(s3, []) == s3;
          OneStep(s2, Store(0), []);
          assert [Store(0)] + [] == [Store(0)];
        } else {
          assert Final(s2, []) == s2;
        }
        OneStep(s1, Act(0, kind, now, argument), if store then [Store(0)] else []);
        OneStep(s, Load(0, id), [Act(0, kind, now, argument)] + if store then [Store(0)] else []);
    }
  }

  /** Two callers with copies of one hold can both succeed, one confirming and one releasing it; the
      store that comes last decides, and the other success leaves no trace in the table. That only
      one command succeeds holds for serial commands (HoldRuns.AtMostOneSuccess) and for callers that
      keep to the coordination key (HoldSections.AtMostOneSuccess). */
  lemma BothSucceed() returns (actions: seq<Action>)
    ensures IsRun(INITIAL, actions)
    ensures var s := Final(INITIAL, actions);
            && s.successes == [Success("h", Confirm, 1, "b"), Success("h", Release, 2, "r")]
            && "h" in s.table && s.table["h"].status.Released? && s.table["h"].bookingId.None?
  {
    var s1 := Next(INITIAL, Create(HoldRuns.SAMPLE));
    var s2 := Next(s1, Load(0, "h"));
    var s3 := Next(s2, Load(1, "h"));
    var s4 := Next(s3, Act(0, Confirm, 1, "b"));
    var s5 := Next(s4, Act(1, Release, 2, "r"));
    var s6 := Next(s5, Store(0));
    var s7 := Next(s6, Store(1));
    actions := [];
    assert Final(s7, []) == s7;
    OneStep(s6, Store(1), actions); actions := [Store(1)] + actions;
    OneStep(s5, Store(0), actions); actions := [Store(0)] + actions;
    OneStep(s4, Act(1, Release, 2, "r"), actions); actions := [Act(1, Release, 2, "r")] + actions;
    OneStep(s3, Act(0, Confirm, 1, "b"), actions); actions := [Act(0, Confirm, 1, "b")] + actions;
    OneStep(s2, Load(1, "h"), actions); actions := [Load(1, "h")] + actions;
    OneStep(s1, Load(0, "h"), actions); actions := [Load(0, "h")] + actions;
    OneStep(INITIAL, Create(HoldRuns.SAMPLE), actions); actions := [Create(HoldRuns.SAMPLE)] + actions;
  }

  // ---- What a second success takes ----

  /** Stores a copy that still shows the hold ACTIVE over a row that does not. */
  predicate PutsBack(s: State, a: Action, id: string) {
    && a.Store? && a.session in s.sessions && s.sessions[a.session].id == id
    && s.sessions[a.session].status.Active? && id in s.table && !s.table[id].status.Active?
  }

  ghost predicate Reactivated(s: State, actions: seq<Action>, id: string)
    requires IsRun(s, actions)
    decreases |actions|
  {
    actions != [] && (PutsBack(s, actions[0], id) || Reactivated(Next(s, actions[0]), actions[1..], id))
  }

  /** The caller had an ACTIVE copy of the hold at the beginning and loads nothing. */
  ghost predicate HeldOn(s: State, actions: seq<Action>, session: nat, id: string) {
    && session in s.sessions && s.sessions[session].id == id && s.sessions[session].status.Active?
    && forall k :: 0 <= k < |actions| && actions[k].Load? ==> actions[k].session != session
  }

  /** From a row that is not ACTIVE, a copy that is comes only from before or from a row put back. */
  lemma {:induction false} ActiveCopy(s: State, actions: seq<Action>, session: nat, id: string)
    requires IsRun(s, actions) && id in s.table && !s.table[id].status.Active?
    requires session in Final(s, actions).sessions
    requires var copy := Final(s, actions).sessions[session]; copy.id == id && copy.status.Active?
    ensures Reactivated(s, actions, id) || HeldOn(s, actions, session, id)
    decreases |actions|
  {
    if actions != [] && !PutsBack(s, actions[0], id) {
      var next, rest := Next(s, actions[0]), actions[1..];
      ActiveCopy(next, rest, session, id);
      if HeldOn(next, rest, session, id) {
        forall k | 0 <= k < |actions| && actions[k].Load? ensures actions[k].session != session {
          assert k > 0 ==> actions[k] == rest[k - 1];
        }
      }
    }
  }

  /** A second success, in any interleaving: once the table shows a hold confirmed or released, some
      command has succeeded; and a later command on the hold succeeds only on a copy loaded before
      then, or after a stale store has put ACTIVE back. */
  lemma SecondSuccess(before: seq<Action>, between: seq<Action>, id: string, session: nat,
                      kind: Kind, now: Time, argument: string)
    requires IsRun(INITIAL, before) && IsRun(Final(INITIAL, before), between)
    requires id in Final(INITIAL, before).table
    requires var status := Final(INITIAL, before).table[id].status; status.Confirmed? || status.Released?
    requires session in Final(Final(INITIAL, before), between).sessions
    requires Final(Final(INITIAL, before), between).sessions[session].id == id
    ensures exists i :: 0 <= i < |Final(INITIAL, before).successes| && Final(INITIAL, before).successes[i].id == id
    ensures Perform(Final(Final(INITIAL, before), between).sessions[session], kind, now, argument).error.None? ==>
              || Reactivated(Final(INITIAL, before), between, id)
              || HeldOn(Final(INITIAL, before), between, session, id)
  {
    HoldsStaySound(before, id);
    var s := Final(INITIAL, before);
    if Perform(Final(s, between).sessions[session], kind, now, argument).error.None? {
      ActiveCopy(s, between, session, id);
    }
  }

  // ---- Two successes, whether stored or not ----

  /** The caller's last load of the hold, at a time until which the table had shown it ACTIVE throughout. */
  ghost predicate LoadedOpen(s: State, actions: seq<Action>, session: nat, id: string)
    requires IsRun(s, actions)
    decreases |actions|
  {
    && actions != [] && id in s.table && s.table[id].status.Active?
    && (|| (actions[0] == Load(session, id) && LoadsNoMore(actions[1..], session))
        || LoadedOpen(Next(s, actions[0]), actions[1..], session, id))
  }

  ghost predicate LoadsNoMore(actions: seq<Action>, session: nat) {
    forall k :: 0 <= k < |actions| && actions[k].Load? ==> actions[k].session != session
  }

  lemma HeldEarlier(s: State, actions: seq<Action>, session: nat, id: string)
    requires IsRun(s, actions) && actions != [] && HeldOn(Next(s, actions[0]), actions[1..], session, id)
    ensures HeldOn(s, actions, session, id) || (actions[0] == Load(session, id) && LoadsNoMore(actions[1..], session))
  {
    if !(actions[0].Load? && actions[0].session == session) {
      forall k | 0 <= k < |actions| && actions[k].Load? ensures actions[k].session != session {
        assert k > 0 ==> actions[k] == actions[1..][k - 1];
      }
    }
  }

  /** Where an ACTIVE copy can come from, whatever the table shows. */
  lemma {:induction false} CopySource(s: State, actions: seq<Action>, session: nat, id: string)
    requires IsRun(s, actions) && id in s.table
    requires session in Final(s, actions).sessions
    requires var copy := Final(s, actions).sessions[session]; copy.id == id && copy.status.Active?
    ensures Reactivated(s, actions, id) || HeldOn(s, actions, session, id) || LoadedOpen(s, actions, session, id)
    decreases |actions|
  {
    if !s.table[id].status.Active? {
      ActiveCopy(s, actions, session, id);
    } else if actions != [] {
      IdentityKept(s, actions[0], id);
      CopySource(Next(s, actions[0]), actions[1..], session, id);
      if HeldOn(Next(s, actions[0]), actions[1..], session, id) {
        HeldEarlier(s, actions, session, id);
      }
    }
  }

  lemma {:induction false} RunSplit(s: State, actions: seq<Action>, n: nat)
    requires IsRun(s, actions) && n <= |actions|
    ensures IsRun(s, actions[..n]) && IsRun(Final(s, actions[..n]), actions[n..])
    ensures Final(Final(s, actions[..n]), actions[n..]) == Final(s, actions)
    decreases n
  {
    if n == 0 {
      assert actions[..0] == [] && actions[0..] == actions;
    } else {
      RunSplit(Next(s, actions[0]), actions[1..], n - 1);
      assert actions[..n][1..] == actions[1..][..n - 1];
      assert actions[n..] == actions[1..][n - 1..];
    }
  }

  /** The first `m` actions lead to a command, action `m`, that succeeds on hold `id` as the `k`-th to do so. */
  ghost predicate Succeeds(actions: seq<Action>, m: nat, k: nat, id: string)
    requires IsRun(INITIAL, actions) && m < |actions|
  {
    RunSplit(INITIAL, actions, m);
    var s := Final(INITIAL, actions[..m]);
    && actions[m].Act? && actions[m].session in s.sessions
    && |s.successes| == k && |Next(s, actions[m]).successes| == k + 1
    && s.sessions[actions[m].session].id == id
  }

  lemma {:induction false} SuccessesGrow(s: State, actions: seq<Action>)
    requires IsRun(s, actions)
    ensures s.successes <= Final(s, actions).successes
    decreases |actions|
  {
    if actions != [] {
      SuccessesGrow(Next(s, actions[0]), actions[1..]);
    }
  }

  /** Every entry of `successes` has such a command. */
  lemma {:induction false} MadeBy(actions: seq<Action>, k: nat) returns (m: nat)
    requires IsRun(INITIAL, actions) && k < |Final(INITIAL, actions).successes|
    ensures m < |actions| && Succeeds(actions, m, k, Final(INITIAL, actions).successes[k].id)
    decreases |actions|
  {
    var last := |actions| - 1;
    RunSplit(INITIAL, actions, last);
    var front, s := actions[..last], Final(INITIAL, actions[..last]);
    assert actions[last..] == [actions[last]];
    assert Final(s, [actions[last]]) == Next(s, actions[last]) by {
      assert [actions[last]][1..] == [];
    }
    if k < |s.successes| {
      m := MadeBy(front, k);
      assert actions[..m] == front[..m] && actions[m] == front[m];
    } else {
      m := last;
    }
  }

  lemma SuccessesInOrder(actions: seq<Action>, m: nat, n: nat, i: nat, j: nat, id: string)
    requires IsRun(INITIAL, actions) && m < |actions| && n < |actions| && i < j
    requires Succeeds(actions, m, i, id) && Succeeds(actions, n, j, id)
    ensures m < n
  {
    if n <= m {
      RunSplit(INITIAL, actions, m);
      RunSplit(INITIAL, actions[..m], n);
      assert actions[..m][..n] == actions[..n];
      SuccessesGrow(Final(INITIAL, actions[..n]), actions[..m][n..]);
    }
  }

  /** From where the second of two successes on a hold got its ACTIVE copy, seen from the first: it had it
      already, or loaded it while the table still showed ACTIVE, or a stale store had put ACTIVE back. */
  ghost predicate Explained(actions: seq<Action>, m: nat, n: nat, id: string)
    requires IsRun(INITIAL, actions) && m < n < |actions|
  {
    Segment(actions, m + 1, n);
    var s, between := Final(INITIAL, actions[..m + 1]), actions[m + 1..][..n - m - 1];
    && actions[n].Act?
    && (|| HeldOn(s, between, actions[n].session, id)
        || LoadedOpen(s, between, actions[n].session, id)
        || Reactivated(s, between, id))
  }

  /** The actions from `m` to `n` lead from the state after the first `m` to that after the first `n`. */
  lemma Segment(actions: seq<Action>, m: nat, n: nat)
    requires IsRun(INITIAL, actions) && m <= n <= |actions|
    ensures IsRun(INITIAL, actions[..m]) && IsRun(INITIAL, actions[..n])
    ensures IsRun(Final(INITIAL, actions[..m]), actions[m..][..n - m])
    ensures Final(Final(INITIAL, actions[..m]), actions[m..][..n - m]) == Final(INITIAL, actions[..n])
  {
    RunSplit(INITIAL, actions, n);
    RunSplit(INITIAL, actions[..n], m);
    assert actions[..n][..m] == actions[..m] && actions[..n][m..] == actions[m..][..n - m];
  }

  /** The copy on which a command succeeds shows the hold ACTIVE. */
  lemma SuccessfulCopy(actions: seq<Action>, n: nat, j: nat, id: string)
    requires IsRun(INITIAL, actions) && n < |actions| && IsRun(INITIAL, actions[..n])
    requires Succeeds(actions, n, j, id)
    ensures actions[n].Act? && actions[n].session in Final(INITIAL, actions[..n]).sessions
    ensures var copy := Final(INITIAL, actions[..n]).sessions[actions[n].session]; copy.id == id && copy.status.Active?
  {
  }

  lemma SecondExplained(actions: seq<Action>, m: nat, n: nat, i: nat, j: nat, id: string)
    requires IsRun(INITIAL, actions) && m < n < |actions|
    requires Succeeds(actions, m, i, id) && Succeeds(actions, n, j, id)
    ensures Explained(actions, m, n, id)
  {
    Segment(actions, m + 1, n);
    HoldThere(actions, m, i, id);
    SuccessfulCopy(actions, n, j, id);
    CopySource(Final(INITIAL, actions[..m + 1]), actions[m + 1..][..n - m - 1], actions[n].session, id);
  }

  lemma HoldThere(actions: seq<Action>, m: nat, i: nat, id: string)
    requires IsRun(INITIAL, actions) && m < |actions| && Succeeds(actions, m, i, id)
    requires IsRun(INITIAL, actions[..m + 1])
    ensures id in Final(INITIAL, actions[..m + 1]).table
  {
    RunSplit(INITIAL, actions, m);
    RunSplit(INITIAL, actions[..m + 1], m);
    assert actions[..m + 1][..m] == actions[..m] && actions[..m + 1][m..] == [actions[m]];
    var s := Final(INITIAL, actions[..m]);
    RunKeeps(INITIAL, actions[..m]);
    assert [actions[m]][1..] == [];
    assert Final(s, [actions[m]]) == Next(s, actions[m]);
  }

  /** Two successes on one hold, in any interleaving, stored or not. */
  lemma TwoSuccesses(actions: seq<Action>, i: nat, j: nat) returns (m: nat, n: nat)
    requires IsRun(INITIAL, actions) && i < j < |Final(INITIAL, actions).successes|
    requires Final(INITIAL, actions).successes[i].id == Final(INITIAL, actions).successes[j].id
    ensures var id := Final(INITIAL, actions).successes[i].id;
            && m < n < |actions|
            && Succeeds(actions, m, i, id) && Succeeds(actions, n, j, id)
            && Explained(actions, m, n, id)
  {
    var id := Final(INITIAL, actions).successes[i].id;
    m := MadeBy(actions, i);
    n := MadeBy(actions, j);
    SuccessesInOrder(actions, m, n, i, j, id);
    SecondExplained(actions, m, n, i, j, id);
  }
}
