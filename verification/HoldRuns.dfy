/** Serial commands on stored holds, with sweeps in between: when expiry found by looking at the
    clock and expiry written down are the same thing to every caller, and when they are not. */
module HoldRuns {
  import opened Wrappers
  import opened HoldDomain
  import opened HoldRepository

  /** A command finds the hold, performs, and stores what it got; whether the hold is also stored
      after an error is the caller's choice, command by command. */
  datatype Op =
    | Command(id: string, kind: Kind, now: Time, argument: string, storeOnError: bool)
    | Sweep(now: Time)

  datatype Answer = NotFound | Done | Failed(error: HoldError)

  function AnswerOf(error: Option<HoldError>): Answer {
    if error.None? then Done else Failed(error.value)
  }

  function Step(table: HoldTable, op: Op): HoldTable {
    match op
    case Sweep(now) => Swept(table, now)
    case Command(id, kind, now, argument, storeOnError) =>
      match Find(table, id)
      case Err(_) => table
      case Ok(hold) =>
        var outcome := Perform(hold, kind, now, argument);
        if outcome.error.None? || storeOnError then Overwrite(table, outcome.hold) else table
  }

  function Reply(table: HoldTable, op: Op): seq<Answer> {
    match op
    case Sweep(_) => []
    case Command(id, kind, now, argument, _) =>
      match Find(table, id)
      case Err(_) => [NotFound]
      case Ok(hold) => [AnswerOf(Perform(hold, kind, now, argument).error)]
  }

  function Final(table: HoldTable, ops: seq<Op>): HoldTable
    decreases |ops|
  {
    if ops == [] then table else Final(Step(table, ops[0]), ops[1..])
  }

  /** The results of the commands, in order. */
  function Answers(table: HoldTable, ops: seq<Op>): seq<Answer>
    decreases |ops|
  {
    if ops == [] then [] else Reply(table, ops[0]) + Answers(Step(table, ops[0]), ops[1..])
  }

  /** The commands of a history: no sweeps, nothing stored after an error. */
  function Commands(ops: seq<Op>): (commands: seq<Op>)
    ensures forall k :: 0 <= k < |commands| ==> commands[k].Command?
  {
    if ops == [] then []
    else (if ops[0].Sweep? then [] else [ops[0].(storeOnError := false)]) + Commands(ops[1..])
  }

  // ---- One hold in a history ----

  /** A command on the hold, with an argument, before the expiry `e`. */
  predicate Timely(op: Op, id: string, e: Time) {
    op.Command? && op.id == id && op.argument != "" && op.now < e
  }

  /** Writes the expiry `e` down if it finds the hold ACTIVE. */
  predicate WritesExpiry(op: Op, id: string, e: Time) {
    match op
    case Sweep(now) => e <= now
    case Command(other, _, now, argument, storeOnError) => other == id && argument != "" && e <= now && storeOnError
  }

  /** The first timely command on the hold, or the length if there is none. */
  function FirstTimely(ops: seq<Op>, id: string, e: Time): (n: nat)
    ensures n <= |ops|
    ensures n < |ops| ==> Timely(ops[n], id, e)
  {
    if ops == [] || Timely(ops[0], id, e) then 0 else 1 + FirstTimely(ops[1..], id, e)
  }

  lemma {:induction false} NoneBefore(ops: seq<Op>, id: string, e: Time, i: nat)
    requires i < FirstTimely(ops, id, e)
    ensures !Timely(ops[i], id, e)
  {
    if i > 0 {
      NoneBefore(ops[1..], id, e, i - 1);
    }
  }

  ghost predicate Written(ops: seq<Op>, n: nat, id: string, e: Time)
    requires n <= |ops|
  {
    exists i :: 0 <= i < n && WritesExpiry(ops[i], id, e)
  }

  /** Some operation whose clock has reached the expiry writes it down, and only then comes the first
      command whose clock has not. */
  ghost predicate Overtaken(ops: seq<Op>, id: string, e: Time) {
    FirstTimely(ops, id, e) < |ops| && Written(ops, FirstTimely(ops, id, e), id, e)
  }

  lemma WrittenStep(ops: seq<Op>, n: nat, id: string, e: Time)
    requires 0 < n <= |ops|
    ensures Written(ops, n, id, e) <==> WritesExpiry(ops[0], id, e) || Written(ops[1..], n - 1, id, e)
  {
    if i :| 0 < i < n && WritesExpiry(ops[i], id, e) {
      assert ops[1..][i - 1] == ops[i];
    }
    if i :| 0 <= i < n - 1 && WritesExpiry(ops[1..][i], id, e) {
      assert ops[i + 1] == ops[1..][i];
    }
  }

  lemma OvertakenStep(ops: seq<Op>, id: string, e: Time)
    requires ops != [] && !Timely(ops[0], id, e)
    ensures FirstTimely(ops, id, e) == 1 + FirstTimely(ops[1..], id, e)
    ensures Overtaken(ops, id, e) <==>
              if WritesExpiry(ops[0], id, e) then FirstTimely(ops, id, e) < |ops| else Overtaken(ops[1..], id, e)
  {
    WrittenStep(ops, FirstTimely(ops, id, e), id, e);
  }

  /** The hold after one operation of a history. */
  function AfterOp(hold: HoldValue, op: Op): HoldValue {
    if !hold.status.Active? then hold
    else if Timely(op, hold.id, hold.expiresAt) then Perform(hold, op.kind, op.now, op.argument).hold
    else if WritesExpiry(op, hold.id, hold.expiresAt) then hold.(status := Expired)
    else hold
  }

  lemma HoldStep(table: HoldTable, op: Op, hold: HoldValue)
    requires Find(table, hold.id) == Ok(hold)
    ensures Find(Step(table, op), hold.id) == Ok(AfterOp(hold, op))
  {
  }

  // ---- The closed form of a history ----

  function MissingArgument(kind: Kind): Answer {
    Failed(if kind.Confirm? then ErrBookingIDRequired else ErrReleaseReasonRequired)
  }

  /** The answer of the `k`-th command if the `d`-th is the first timely one on its hold: that one
      succeeds unless it is overtaken; before it, and always if it is overtaken, the hold has expired;
      after it, the hold is not active. */
  function Judge(status: HoldStatus, command: Op, k: nat, d: nat, overtaken: bool): Answer
    requires command.Command?
  {
    if command.argument == "" then MissingArgument(command.kind)
    else if status.Expired? then Failed(ErrHoldExpired)
    else if !status.Active? then Failed(ErrHoldNotActive)
    else if k < d || overtaken then Failed(ErrHoldExpired)
    else if k == d then Done
    else Failed(ErrHoldNotActive)
  }

  /** What the `k`-th command of a history answers on a hold with this status and expiry, read off the
      history alone. */
  ghost function Verdict(status: HoldStatus, e: Time, ops: seq<Op>, k: nat): Answer
    requires k < |Commands(ops)|
  {
    var id := Commands(ops)[k].id;
    Judge(status, Commands(ops)[k], k, FirstTimely(Commands(ops), id, e), Overtaken(ops, id, e))
  }

  lemma CommandsStep(ops: seq<Op>)
    requires ops != []
    ensures Commands(ops) == (if ops[0].Sweep? then [] else [ops[0].(storeOnError := false)]) + Commands(ops[1..])
    ensures !ops[0].Sweep? ==> Commands(ops) != [] && Commands(ops)[1..] == Commands(ops[1..])
    ensures ops[0].Sweep? ==> Commands(ops) == Commands(ops[1..])
  {
  }

  /** The first timely command is the same in a history and in its commands. */
  lemma {:induction false} TimelyKept(ops: seq<Op>, id: string, e: Time)
    ensures var n, d := FirstTimely(ops, id, e), FirstTimely(Commands(ops), id, e);
            && (n < |ops| <==> d < |Commands(ops)|)
            && (n < |ops| ==> ops[n].(storeOnError := false) == Commands(ops)[d])
    decreases |ops|
  {
    if ops != [] {
      TimelyKept(ops[1..], id, e);
      CommandsStep(ops);
    }
  }

  /** `d` is the place of the first timely command on the hold among `count` commands, `late` says whether
      it is overtaken; `d'`, `late'` and `count'` are the same without the first operation. */
  predicate Course(op: Op, id: string, e: Time, d: nat, late: bool, count: nat, d': nat, late': bool, count': nat) {
    && d' <= count'
    && count == (if op.Sweep? then 0 else 1) + count'
    && d == (if op.Sweep? then d' else if Timely(op, id, e) then 0 else 1 + d')
    && (late <==> if Timely(op, id, e) then false else if WritesExpiry(op, id, e) then d < count else late')
  }

  lemma CourseStep(ops: seq<Op>, id: string, e: Time)
    requires ops != []
    ensures Course(ops[0], id, e, FirstTimely(Commands(ops), id, e), Overtaken(ops, id, e), |Commands(ops)|,
                   FirstTimely(Commands(ops[1..]), id, e), Overtaken(ops[1..], id, e), |Commands(ops[1..])|)
  {
    CommandsStep(ops);
    TimelyKept(ops, id, e);
    if !Timely(ops[0], id, e) {
      OvertakenStep(ops, id, e);
    }
  }

  /** Carrying the first operation out on the hold instead of counting it in does not change how a later
      command is judged. */
  lemma JudgeStep(hold: HoldValue, op: Op, command: Op, k: nat, rest: nat,
                  d: nat, late: bool, count: nat, d': nat, late': bool, count': nat)
    requires command.Command? && rest < count' && k == rest + if op.Sweep? then 0 else 1
    requires Course(op, hold.id, hold.expiresAt, d, late, count, d', late', count')
    ensures Judge(hold.status, command, k, d, late) == Judge(AfterOp(hold, op).status, command, rest, d', late')
  {
  }

  lemma {:induction false} AnswersLength(table: HoldTable, ops: seq<Op>)
    ensures |Answers(table, ops)| == |Commands(ops)|
    decreases |ops|
  {
    if ops != [] {
      AnswersLength(Step(table, ops[0]), ops[1..]);
      CommandsStep(ops);
    }
  }

  /** The `k`-th command of the history answers its verdict. */
  ghost predicate AsJudged(table: HoldTable, ops: seq<Op>, k: nat) {
    && k < |Commands(ops)| == |Answers(table, ops)|
    && var id := Commands(ops)[k].id;
       Answers(table, ops)[k] ==
         if id in table then Verdict(table[id].status, table[id].expiresAt, ops, k) else NotFound
  }

  lemma LaterVerdict(hold: HoldValue, ops: seq<Op>, k: nat, rest: nat)
    requires ops != [] && k < |Commands(ops)| && rest < |Commands(ops[1..])| && Commands(ops)[k].id == hold.id
    requires Commands(ops)[k] == Commands(ops[1..])[rest] && k == rest + if ops[0].Sweep? then 0 else 1
    ensures Verdict(hold.status, hold.expiresAt, ops, k)
         == Verdict(AfterOp(hold, ops[0]).status, hold.expiresAt, ops[1..], rest)
  {
    var id, e := hold.id, hold.expiresAt;
    CourseStep(ops, id, e);
    JudgeStep(hold, ops[0], Commands(ops)[k], k, rest,
              FirstTimely(Commands(ops), id, e), Overtaken(ops, id, e), |Commands(ops)|,
              FirstTimely(Commands(ops[1..]), id, e), Overtaken(ops[1..], id, e), |Commands(ops[1..])|);
  }

  lemma AnswersLater(table: HoldTable, ops: seq<Op>, k: nat, rest: nat)
    requires ops != [] && rest < |Commands(ops[1..])| && k == rest + if ops[0].Sweep? then 0 else 1
    ensures k < |Answers(table, ops)| == |Commands(ops)| && rest < |Answers(Step(table, ops[0]), ops[1..])|
    ensures Answers(table, ops)[k] == Answers(Step(table, ops[0]), ops[1..])[rest]
  {
    AnswersLength(table, ops);
    AnswersLength(Step(table, ops[0]), ops[1..]);
    CommandsStep(ops);
  }

  lemma StatusStep(table: HoldTable, op: Op, id: string)
    requires id in table
    ensures id in Step(table, op) && Step(table, op)[id].expiresAt == table[id].expiresAt
    ensures Step(table, op)[id].status == AfterOp(Decode(id, table[id]), op).status
  {
    HoldStep(table, op, Decode(id, table[id]));
  }

  lemma LaterAnswer(table: HoldTable, ops: seq<Op>, k: nat, rest: nat)
    requires ops != [] && k < |Commands(ops)| && rest < |Commands(ops[1..])|
    requires Commands(ops)[k] == Commands(ops[1..])[rest] && k == rest + if ops[0].Sweep? then 0 else 1
    requires AsJudged(Step(table, ops[0]), ops[1..], rest)
    ensures AsJudged(table, ops, k)
  {
    var id := Commands(ops)[k].id;
    AnswersLater(table, ops, k, rest);
    if id in table {
      StatusStep(table, ops[0], id);
      LaterVerdict(Decode(id, table[id]), ops, k, rest);
    }
  }

  lemma FirstJudged(hold: HoldValue, op: Op)
    requires op.Command? && op.id == hold.id
    ensures AnswerOf(Perform(hold, op.kind, op.now, op.argument).error)
         == Judge(hold.status, op, 0, if Timely(op, hold.id, hold.expiresAt) then 0 else 1, false)
  {
  }

  lemma FirstAnswer(table: HoldTable, ops: seq<Op>)
    requires ops != [] && ops[0].Command?
    ensures AsJudged(table, ops, 0)
  {
    AnswersLength(table, ops);
    CommandsStep(ops);
    var id := ops[0].id;
    if id in table {
      CourseStep(ops, id, table[id].expiresAt);
      FirstJudged(Decode(id, table[id]), ops[0]);
    }
  }

  /** Closed form: whatever the clocks do, wherever sweeps stand and whichever failed commands store,
      each command answers its verdict. */
  lemma {:induction false} ClosedForm(table: HoldTable, ops: seq<Op>, k: nat)
    requires k < |Commands(ops)|
    ensures |Answers(table, ops)| == |Commands(ops)|
    ensures var id := Commands(ops)[k].id;
            Answers(table, ops)[k] ==
              if id in table then Verdict(table[id].status, table[id].expiresAt, ops, k) else NotFound
    decreases |ops|
  {
    CommandsStep(ops);
    if ops[0].Sweep? || k > 0 {
      var rest := if ops[0].Sweep? then k else k - 1;
      ClosedForm(Step(table, ops[0]), ops[1..], rest);
      LaterAnswer(table, ops, k, rest);
    } else {
      FirstAnswer(table, ops);
    }
    assert AsJudged(table, ops, k);
  }

  /** The hold at the end of a history. */
  ghost function End(hold: HoldValue, ops: seq<Op>): HoldValue {
    var d := FirstTimely(ops, hold.id, hold.expiresAt);
    if !hold.status.Active? then hold
    else if d < |ops| && !Overtaken(ops, hold.id, hold.expiresAt) then
      Perform(hold, ops[d].kind, ops[d].now, ops[d].argument).hold
    else if Written(ops, |ops|, hold.id, hold.expiresAt) then hold.(status := Expired)
    else hold
  }

  lemma EndStep(hold: HoldValue, ops: seq<Op>)
    requires ops != []
    ensures End(hold, ops) == End(AfterOp(hold, ops[0]), ops[1..])
  {
    WrittenStep(ops, |ops|, hold.id, hold.expiresAt);
    if !Timely(ops[0], hold.id, hold.expiresAt) {
      OvertakenStep(ops, hold.id, hold.expiresAt);
    }
  }

  /** Closed form of what is stored, for all fields. */
  lemma {:induction false} StoredForm(table: HoldTable, ops: seq<Op>, hold: HoldValue)
    requires Find(table, hold.id) == Ok(hold)
    ensures Find(Final(table, ops), hold.id) == Ok(End(hold, ops))
    decreases |ops|
  {
    if ops != [] {
      HoldStep(table, ops[0], hold);
      StoredForm(Step(table, ops[0]), ops[1..], AfterOp(hold, ops[0]));
      EndStep(hold, ops);
    }
  }

  /** Of the commands on one hold in a history at most one ever succeeds, under any clocks. */
  lemma AtMostOneSuccess(table: HoldTable, ops: seq<Op>, i: nat, j: nat)
    requires i < |Commands(ops)| && j < |Commands(ops)| && Commands(ops)[i].id == Commands(ops)[j].id
    requires |Answers(table, ops)| == |Commands(ops)|
    requires Answers(table, ops)[i].Done? && Answers(table, ops)[j].Done?
    ensures i == j
  {
    ClosedForm(table, ops, i);
    ClosedForm(table, ops, j);
  }

  // ---- Lazy and eager expiry ----

  /** Same holds, and nobody who looks at time `t` can tell one table's copy from the other's. */
  ghost predicate Alike(a: HoldTable, b: HoldTable, t: Time) {
    && a.Keys == b.Keys
    && forall id :: id in a ==> Settled(Decode(id, a[id]), t) == Settled(Decode(id, b[id]), t)
  }

  /** The two histories overtake the same ACTIVE holds. */
  ghost predicate SameOvertaken(table: HoldTable, first: seq<Op>, second: seq<Op>) {
    forall id :: id in table && table[id].status.Active? ==>
      (Overtaken(first, id, table[id].expiresAt) <==> Overtaken(second, id, table[id].expiresAt))
  }

  /** Lazy and eager expiry are indistinguishable, exactly: two histories with the same commands on the
      same table give the same answers if and only if they overtake the same holds. Nothing is said
      about clocks, sweeps or which failed commands store; two histories under clocks that never go
      back overtake nothing (ClocksInOrder). */
  lemma LazyIsEager(table: HoldTable, first: seq<Op>, second: seq<Op>)
    requires Commands(first) == Commands(second)
    ensures Answers(table, first) == Answers(table, second) <==> SameOvertaken(table, first, second)
  {
    AnswersLength(table, first);
    AnswersLength(table, second);
    if SameOvertaken(table, first, second) {
      forall k | 0 <= k < |Commands(first)| ensures Answers(table, first)[k] == Answers(table, second)[k] {
        ClosedForm(table, first, k);
        ClosedForm(table, second, k);
      }
    } else {
      var id :| id in table && table[id].status.Active?
        && Overtaken(first, id, table[id].expiresAt) != Overtaken(second, id, table[id].expiresAt);
      var d := FirstTimely(Commands(first), id, table[id].expiresAt);
      TimelyKept(first, id, table[id].expiresAt);
      TimelyKept(second, id, table[id].expiresAt);
      ClosedForm(table, first, d);
      ClosedForm(table, second, d);
    }
  }

  /** What a history without overtaking answers is what its commands alone answer, and only then. */
  lemma BareCommands(table: HoldTable, ops: seq<Op>)
    ensures Answers(table, ops) == Answers(table, Commands(ops)) <==>
            forall id :: id in table && table[id].status.Active? ==> !Overtaken(ops, id, table[id].expiresAt)
  {
    CommandsTwice(ops);
    LazyIsEager(table, ops, Commands(ops));
  }

  lemma {:induction false} CommandsTwice(ops: seq<Op>)
    ensures Commands(Commands(ops)) == Commands(ops)
    ensures forall i :: 0 <= i < |Commands(ops)| ==> !Commands(ops)[i].storeOnError
    decreases |ops|
  {
    if ops != [] {
      CommandsTwice(ops[1..]);
      CommandsStep(ops);
      if !ops[0].Sweep? {
        CommandsStep(Commands(ops));
      }
    }
  }

  /** All clock readings are at `t` or before. */
  predicate ReadBy(ops: seq<Op>, t: Time) {
    forall i :: 0 <= i < |ops| ==> ops[i].now <= t
  }

  lemma EndAlike(hold: HoldValue, first: seq<Op>, second: seq<Op>, t: Time)
    requires Commands(first) == Commands(second) && ReadBy(first, t) && ReadBy(second, t)
    requires hold.status.Active? ==>
               (Overtaken(first, hold.id, hold.expiresAt) <==> Overtaken(second, hold.id, hold.expiresAt))
    ensures Settled(End(hold, first), t) == Settled(End(hold, second), t)
  {
    TimelyKept(first, hold.id, hold.expiresAt);
    TimelyKept(second, hold.id, hold.expiresAt);
  }

  lemma {:induction false} HoldsStay(table: HoldTable, ops: seq<Op>)
    ensures Final(table, ops).Keys == table.Keys
    decreases |ops|
  {
    if ops != [] {
      KeysStay(table, ops[0]);
      HoldsStay(Step(table, ops[0]), ops[1..]);
    }
  }

  /** Two histories with the same commands and the same answers leave tables that nobody can tell apart
      at or after their last reading: same effective status, booking id and release reason. */
  lemma AlikeAfterwards(table: HoldTable, first: seq<Op>, second: seq<Op>, t: Time)
    requires Commands(first) == Commands(second) && Answers(table, first) == Answers(table, second)
    requires ReadBy(first, t) && ReadBy(second, t)
    ensures Alike(Final(table, first), Final(table, second), t)
  {
    LazyIsEager(table, first, second);
    HoldsStay(table, first);
    HoldsStay(table, second);
    forall id | id in table
      ensures Settled(Decode(id, Final(table, first)[id]), t) == Settled(Decode(id, Final(table, second)[id]), t)
    {
      var hold := Decode(id, table[id]);
      StoredForm(table, first, hold);
      StoredForm(table, second, hold);
      EndAlike(hold, first, second, t);
    }
  }

  lemma RepliesAlike(a: HoldTable, b: HoldTable, t: Time, op: Op)
    requires Alike(a, b, t) && t <= op.now
    ensures Reply(a, op) == Reply(b, op)
  {
    if op.Command? && op.id in a {
      var h, g := Decode(op.id, a[op.id]), Decode(op.id, b[op.id]);
      SettledAgree(h, g, t, op.now);
      PerformSettled(h, g, op.kind, op.now, op.argument);
    }
  }

  lemma KeysStay(table: HoldTable, op: Op)
    ensures Step(table, op).Keys == table.Keys
  {
  }

  /** One operation, read at `t` or later, on two tables that are alike at `t`: the same answer, and tables
      that are still alike. */
  lemma StaysAlike(a: HoldTable, b: HoldTable, t: Time, op: Op)
    requires Alike(a, b, t) && t <= op.now
    ensures Reply(a, op) == Reply(b, op)
    ensures Alike(Step(a, op), Step(b, op), t)
  {
    RepliesAlike(a, b, t, op);
    KeysStay(a, op);
    KeysStay(b, op);
    forall id | id in a ensures Settled(Decode(id, Step(a, op)[id]), t) == Settled(Decode(id, Step(b, op)[id]), t) {
      RowAlike(a, b, t, op, id);
    }
  }

  lemma RowAlike(a: HoldTable, b: HoldTable, t: Time, op: Op, id: string)
    requires Alike(a, b, t) && t <= op.now && id in a
    ensures id in Step(a, op) && id in Step(b, op)
    ensures Settled(Decode(id, Step(a, op)[id]), t) == Settled(Decode(id, Step(b, op)[id]), t)
  {
    HoldStep(a, op, Decode(id, a[id]));
    HoldStep(b, op, Decode(id, b[id]));
    AfterOpAlike(Decode(id, a[id]), Decode(id, b[id]), t, op);
  }

  lemma AfterOpAlike(h: HoldValue, g: HoldValue, t: Time, op: Op)
    requires h.id == g.id && Settled(h, t) == Settled(g, t) && t <= op.now
    ensures Settled(AfterOp(h, op), t) == Settled(AfterOp(g, op), t)
  {
    SettledAgree(h, g, t, op.now);
    assert h.(status := Active) == Settled(h, t).(status := Active);
    assert g.(status := Active) == Settled(g, t).(status := Active);
  }

  /** Nobody can tell tables that are alike at `t` apart from then on: every later history, under whatever
      clocks at `t` or after, gives the same answers on both and leaves them alike. */
  lemma {:induction false} NobodyCanTell(a: HoldTable, b: HoldTable, t: Time, ops: seq<Op>)
    requires Alike(a, b, t) && forall i :: 0 <= i < |ops| ==> t <= ops[i].now
    ensures Answers(a, ops) == Answers(b, ops) && Alike(Final(a, ops), Final(b, ops), t)
    decreases |ops|
  {
    if ops != [] {
      StaysAlike(a, b, t, ops[0]);
      NobodyCanTell(Step(a, ops[0]), Step(b, ops[0]), t, ops[1..]);
    }
  }

  // ---- Clocks that never go back ----

  predicate Clocked(ops: seq<Op>) {
    forall i, j :: 0 <= i < j < |ops| ==> ops[i].now <= ops[j].now
  }

  /** The first command on the hold that has an argument, or the length if none has. */
  function FirstWithArgument(ops: seq<Op>, id: string): (n: nat)
    ensures n <= |ops|
    ensures n < |ops| ==> ops[n].Command? && ops[n].id == id && ops[n].argument != ""
    ensures forall i :: 0 <= i < n ==> !(ops[i].Command? && ops[i].id == id && ops[i].argument != "")
  {
    if ops == [] || (ops[0].Command? && ops[0].id == id && ops[0].argument != "") then 0
    else 1 + FirstWithArgument(ops[1..], id)
  }

  /** Then nothing is overtaken, and the first command with an argument decides: if it is not timely,
      none is. */
  lemma ClocksInOrder(ops: seq<Op>, id: string, e: Time)
    requires Clocked(ops)
    ensures !Overtaken(ops, id, e)
    ensures var n := FirstWithArgument(ops, id);
            FirstTimely(ops, id, e) == if n < |ops| && ops[n].now < e then n else |ops|
  {
    var n, d := FirstWithArgument(ops, id), FirstTimely(ops, id, e);
    if n < d && ops[n].now < e {
      NoneBefore(ops, id, e, n);
    }
  }

  lemma {:induction false} CommandsClocked(ops: seq<Op>)
    requires Clocked(ops)
    ensures Clocked(Commands(ops))
    ensures forall k :: 0 <= k < |Commands(ops)| ==> ops != [] && ops[0].now <= Commands(ops)[k].now
    decreases |ops|
  {
    if ops != [] {
      CommandsClocked(ops[1..]);
      CommandsStep(ops);
      assert ops[1..] != [] ==> ops[0].now <= ops[1..][0].now;
    }
  }

  /** Closed form under clocks that never go back, for an ACTIVE hold: the first command with an
      argument succeeds if and only if the hold has not expired by then, and all later ones are
      refused, as not active after a success and as expired after an expiry. */
  lemma ClockedClosedForm(table: HoldTable, ops: seq<Op>, k: nat)
    requires Clocked(ops) && k < |Commands(ops)|
    requires Commands(ops)[k].id in table && table[Commands(ops)[k].id].status.Active?
    ensures |Answers(table, ops)| == |Commands(ops)|
    ensures var commands, command := Commands(ops), Commands(ops)[k];
            var d := FirstWithArgument(commands, command.id);
            Answers(table, ops)[k] ==
              if command.argument == "" then MissingArgument(command.kind)
              else if d < |commands| && commands[d].now < table[command.id].expiresAt then
                if k == d then Done else Failed(ErrHoldNotActive)
              else Failed(ErrHoldExpired)
  {
    var id := Commands(ops)[k].id;
    ClosedForm(table, ops, k);
    CommandsClocked(ops);
    ClocksInOrder(ops, id, table[id].expiresAt);
    ClocksInOrder(Commands(ops), id, table[id].expiresAt);
  }

  // ---- Clocks that do ----

  /** A sweep changes the answer of the next command exactly if the hold is ACTIVE, the command has an
      argument, and the expiry lies after the command's reading and not after the sweep's. */
  lemma SweepNoticed(table: HoldTable, command: Op, t: Time)
    requires command.Command?
    ensures Reply(Swept(table, t), command) != Reply(table, command) <==>
            && command.id in table && table[command.id].status.Active?
            && command.argument != "" && command.now < table[command.id].expiresAt <= t
  {
  }

  const SAMPLE: HoldValue := HoldValue("h", "q", "c", "s", 7, Active, "", "")

  /** A sweep whose clock runs ahead of a later command's takes away a confirmation that would have
      succeeded. */
  lemma SkewedClocksDiffer()
    ensures var table := map["h" := Encode(SAMPLE)];
            var confirm := Command("h", Confirm, 5, "b", false);
            && Commands([Sweep(10), confirm]) == Commands([confirm])
            && Answers(table, [confirm]) == [Done]
            && Answers(table, [Sweep(10), confirm]) == [Failed(ErrHoldExpired)]
  {
    var table := map["h" := Encode(SAMPLE)];
    var confirm := Command("h", Confirm, 5, "b", false);
    assert [Sweep(10), confirm][1..] == [confirm];
    assert [confirm][1..] == [];
    assert Reply(table, confirm) == [Done];
    assert Reply(Swept(table, 10), confirm) == [Failed(ErrHoldExpired)];
    assert Answers(table, [confirm]) == Reply(table, confirm) + [];
    assert Answers(Swept(table, 10), [confirm]) == Reply(Swept(table, 10), confirm) + [];
    assert Answers(table, [Sweep(10), confirm]) == [] + Answers(Swept(table, 10), [confirm]);
  }
}
