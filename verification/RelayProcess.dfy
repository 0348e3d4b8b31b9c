/** One relay process as a whole: the worker's flag and timer above, the batches it starts below. */
module RelayProcess {
  import opened Wrappers
  import opened Outbox
  import opened Kafka
  import opened RelaySystem
  import opened RelayAttempts
  import W = RelayWorker

  /** `waiting` calls of `publishBatch` have not run their claim yet, `working` ones have and have not
      settled. */
  datatype Process = Process(worker: W.WorkerState, waiting: nat, working: nat)

  /** The process has just started; `begun` calls were made by its predecessors, none of which is left. */
  function Fresh(begun: nat): Process {
    Process(W.WorkerState(false, 0, begun, begun), 0, 0)
  }

  datatype Host = Host(system: State, process: Process)

  /** A timer tick or the start-up call; an action of the relay system; a claim transaction that fails
      before or after it has locked rows; a batch that settles; the process stopping and starting anew. */
  datatype Event =
    | Tick
    | Step(action: Action)
    | ClaimFails
    | ClaimAborts
    | Settle(rejected: bool)
    | Restart

  predicate Own(a: Action, r: nat) {
    !a.Enqueue? && a.relay == r
  }

  /** The process may run as many claims as it has calls waiting: nothing here says that a batch must be
      over before the next one claims. */
  ghost predicate Allowed(h: Host, r: nat, e: Event) {
    match e
    case Tick => true
    case Step(a) =>
      if a.Open? && Own(a, r) then h.process.waiting > 0 && IsClaim(h.system.rows, Locked(h.system), a.claim)
      else Enabled(h.system, a) && !(a.Crash? && Own(a, r))
    case ClaimFails => h.process.waiting > 0
    case ClaimAborts => RelayOf(h.system, r).Claiming?
    case Settle(_) => h.process.working > 0 && RelayOf(h.system, r).Idle?
    case Restart => true
  }

  function ProcessAfter(p: Process, r: nat, e: Event): Process
    requires match e
             case Step(a) => a.Open? && Own(a, r) ==> p.waiting > 0
             case ClaimFails => p.waiting > 0
             case Settle(_) => p.working > 0
             case _ => true
  {
    match e
    case Tick =>
      var worker := W.WorkerNext(p.worker, W.Tick);
      Process(worker, p.waiting + (if worker.begun > p.worker.begun then 1 else 0), p.working)
    case Step(a) => if a.Open? && Own(a, r) then p.(waiting := p.waiting - 1, working := p.working + 1) else p
    case ClaimFails => p.(waiting := p.waiting - 1, working := p.working + 1)
    case ClaimAborts => p
    case Settle(rejected) => Process(W.WorkerNext(p.worker, W.BatchSettled(rejected)), p.waiting, p.working - 1)
    case Restart => Fresh(p.worker.begun)
  }

  ghost function SystemAfter(cluster: Cluster, h: Host, r: nat, e: Event): State
    requires Allowed(h, r, e)
  {
    match e
    case Step(a) => if a.Open? && Own(a, r) then Move(h.system, r, Claiming(a.claim)) else Next(cluster, h.system, a)
    case ClaimAborts => Move(h.system, r, Idle)
    case Restart => Move(h.system, r, Idle)
    case _ => h.system
  }

  ghost function After(cluster: Cluster, h: Host, r: nat, e: Event): Host
    requires Allowed(h, r, e)
  {
    Host(SystemAfter(cluster, h, r, e), ProcessAfter(h.process, r, e))
  }

  ghost predicate IsHostRun(cluster: Cluster, h: Host, r: nat, events: seq<Event>)
    decreases |events|
  {
    events == [] || (Allowed(h, r, events[0]) && IsHostRun(cluster, After(cluster, h, r, events[0]), r, events[1..]))
  }

  ghost function End(cluster: Cluster, h: Host, r: nat, events: seq<Event>): Host
    requires IsHostRun(cluster, h, r, events)
    decreases |events|
  {
    if events == [] then h else End(cluster, After(cluster, h, r, events[0]), r, events[1..])
  }

  /** The worker knows of every call, and a batch under way is one of those that work. */
  ghost predicate InStep(h: Host, r: nat) {
    && W.OneBatch(h.process.worker)
    && h.process.worker.inFlight == h.process.waiting + h.process.working
    && (!RelayOf(h.system, r).Idle? ==> h.process.working > 0)
  }

  /** Nobody else moves the process's relay. */
  lemma OthersLeave(cluster: Cluster, s: State, a: Action, r: nat)
    requires Enabled(s, a) && !Own(a, r)
    ensures RelayOf(Next(cluster, s, a), r) == RelayOf(s, r)
  {
  }

  lemma OwnIsBusy(s: State, a: Action, r: nat)
    requires Enabled(s, a) && Own(a, r) && !a.Open? && !a.Crash?
    ensures !RelayOf(s, r).Idle?
  {
  }

  /** With a call waiting, no batch is under way: there is only ever one. */
  lemma WaitingIsIdle(h: Host, r: nat)
    requires InStep(h, r) && h.process.waiting > 0
    ensures RelayOf(h.system, r).Idle? && h.process.waiting == 1 && h.process.working == 0
  {
  }

  lemma ActionInStep(cluster: Cluster, h: Host, r: nat, a: Action)
    requires Allowed(h, r, Step(a)) && InStep(h, r)
    ensures Enabled(h.system, a)
    ensures After(cluster, h, r, Step(a)).system == Next(cluster, h.system, a)
    ensures InStep(After(cluster, h, r, Step(a)), r)
  {
    if !Own(a, r) {
      OthersLeave(cluster, h.system, a, r);
    } else if a.Open? {
      WaitingIsIdle(h, r);
    } else {
      OwnIsBusy(h.system, a, r);
    }
  }

  lemma WorkerInStep(cluster: Cluster, h: Host, r: nat, e: Event)
    requires Allowed(h, r, e) && InStep(h, r) && (e.Tick? || e.Settle? || e.ClaimFails?)
    ensures After(cluster, h, r, e).system == h.system && InStep(After(cluster, h, r, e), r)
  {
  }

  lemma IdleInStep(s: State, p: Process, r: nat)
    requires W.OneBatch(p.worker) && p.worker.inFlight == p.waiting + p.working
    ensures InStep(Host(Move(s, r, Idle), p), r)
  {
    assert RelayOf(Move(s, r, Idle), r) == Idle;
  }

  lemma AbortInStep(cluster: Cluster, h: Host, r: nat)
    requires Allowed(h, r, ClaimAborts) && InStep(h, r)
    ensures After(cluster, h, r, ClaimAborts) == Host(Move(h.system, r, Idle), h.process)
    ensures InStep(After(cluster, h, r, ClaimAborts), r)
  {
    IdleInStep(h.system, h.process, r);
  }

  lemma RestartInStep(cluster: Cluster, h: Host, r: nat)
    ensures Allowed(h, r, Restart)
    ensures After(cluster, h, r, Restart) == Host(Move(h.system, r, Idle), Fresh(h.process.worker.begun))
    ensures InStep(After(cluster, h, r, Restart), r)
  {
    IdleInStep(h.system, Fresh(h.process.worker.begun), r);
  }

  lemma CrashMoves(cluster: Cluster, s: State, r: nat)
    ensures Enabled(s, Crash(r)) && Next(cluster, s, Crash(r)) == Move(s, r, Idle)
  {
  }

  /** What an event does in the relay system. */
  function SystemAction(e: Event, r: nat): seq<Action> {
    match e
    case Step(a) => [a]
    case ClaimAborts => [Crash(r)]
    case Restart => [Crash(r)]
    case _ => []
  }

  function SystemActions(events: seq<Event>, r: nat): seq<Action> {
    if events == [] then [] else SystemAction(events[0], r) + SystemActions(events[1..], r)
  }

  /** The event's effect on the relay system is that of its action, if it has one. */
  ghost predicate Acts(cluster: Cluster, s: State, actions: seq<Action>, s': State) {
    if actions == [] then s' == s
    else |actions| == 1 && Enabled(s, actions[0]) && s' == Next(cluster, s, actions[0])
  }

  lemma EventIsRun(cluster: Cluster, h: Host, r: nat, e: Event)
    requires Allowed(h, r, e) && InStep(h, r)
    ensures InStep(After(cluster, h, r, e), r)
    ensures Acts(cluster, h.system, SystemAction(e, r), After(cluster, h, r, e).system)
  {
    if e.Step? {
      ActionInStep(cluster, h, r, e.action);
    } else if e.ClaimAborts? {
      AbortInStep(cluster, h, r);
      CrashMoves(cluster, h.system, r);
    } else if e.Restart? {
      RestartInStep(cluster, h, r);
      CrashMoves(cluster, h.system, r);
    } else {
      WorkerInStep(cluster, h, r, e);
    }
  }

  lemma Prepend(cluster: Cluster, s: State, first: seq<Action>, rest: seq<Action>, s': State)
    requires Acts(cluster, s, first, s') && IsRun(cluster, s', rest)
    ensures IsRun(cluster, s, first + rest) && Final(cluster, s, first + rest) == Final(cluster, s', rest)
  {
    if first == [] {
      assert first + rest == rest;
    } else {
      assert (first + rest)[1..] == rest;
    }
  }

  /** A process under its worker is a relay of the system: whatever the timer, failing claims, settling
      batches and restarts do, the actions form a run of the relay system, in which a batch is claimed only
      when none is under way. */
  lemma {:induction false} ProcessIsRelay(cluster: Cluster, h: Host, r: nat, events: seq<Event>)
    requires IsHostRun(cluster, h, r, events) && InStep(h, r)
    ensures IsRun(cluster, h.system, SystemActions(events, r))
    ensures Final(cluster, h.system, SystemActions(events, r)) == End(cluster, h, r, events).system
    ensures InStep(End(cluster, h, r, events), r)
    decreases |events|
  {
    if events != [] {
      var next := After(cluster, h, r, events[0]);
      EventIsRun(cluster, h, r, events[0]);
      ProcessIsRelay(cluster, next, r, events[1..]);
      Prepend(cluster, h.system, SystemAction(events[0], r), SystemActions(events[1..], r), next.system);
    }
  }

  /** No other relay acts. */
  predicate Alone(events: seq<Event>, r: nat) {
    forall i :: 0 <= i < |events| && events[i].Step? ==> By(events[i].action, r)
  }

  lemma {:induction false} AloneActions(events: seq<Event>, r: nat)
    requires Alone(events, r)
    ensures OnlyRelay(SystemActions(events, r), r)
    decreases |events|
  {
    if events != [] {
      forall i | 0 <= i < |events[1..]| && events[1..][i].Step? ensures By(events[1..][i].action, r) {
        assert events[1..][i] == events[i + 1];
      }
      AloneActions(events[1..], r);
    }
  }

  /** So a single process, started on the empty system, has what holds for one relay: its counters are
      exact. */
  lemma OneProcessExact(cluster: Cluster, r: nat, events: seq<Event>, id: string)
    requires IsHostRun(cluster, Host(INITIAL, Fresh(0)), r, events) && Alone(events, r)
    requires id in End(cluster, Host(INITIAL, Fresh(0)), r, events).system.rows
    ensures var s := End(cluster, Host(INITIAL, Fresh(0)), r, events).system;
            s.rows[id].attempts == Bookings(s, id)
  {
    ProcessIsRelay(cluster, Host(INITIAL, Fresh(0)), r, events);
    AloneActions(events, r);
    OneRelayExact(cluster, SystemActions(events, r), r, id);
  }
}
