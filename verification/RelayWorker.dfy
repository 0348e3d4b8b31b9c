/** `OutboxRelayWorker`: a timer and a start-up call drive batches that must not overlap. */
module RelayWorker {
  import opened Wrappers

  const DEFAULT_INTERVAL: int := 5000
  const MINIMUM_INTERVAL: int := 250

  /** `configured` is what `parseInt` makes of the setting; absent stands for NaN. */
  function PollInterval(configured: Option<int>): (interval: int)
    ensures interval >= 250
    ensures configured.Some? && configured.value >= 250 ==> interval == configured.value
    ensures configured.None? || configured.value < 250 ==> interval == 5000
  {
    if configured.Some? && configured.value >= MINIMUM_INTERVAL then configured.value else DEFAULT_INTERVAL
  }

  // ---- Whole runs of one process ----

  /** A timer tick or the start-up call; or the settling of a batch in flight. */
  datatype WorkerEvent = Tick | BatchSettled(rejected: bool)

  datatype WorkerState = WorkerState(running: bool, inFlight: nat, begun: nat, settled: nat)

  const STARTED: WorkerState := WorkerState(false, 0, 0, 0)

  function WorkerNext(s: WorkerState, e: WorkerEvent): WorkerState {
    match e
    case Tick => if s.running then s else WorkerState(true, s.inFlight + 1, s.begun + 1, s.settled)
    case BatchSettled(_) => if s.inFlight == 0 then s else WorkerState(false, s.inFlight - 1, s.begun, s.settled + 1)
  }

  function WorkerRun(s: WorkerState, events: seq<WorkerEvent>): WorkerState {
    if events == [] then s else WorkerNext(WorkerRun(s, events[..|events| - 1]), events[|events| - 1])
  }

  /** The flag is set exactly when one batch is in flight, there is never a second one, and every
      batch begun has settled but the one in flight. */
  ghost predicate OneBatch(s: WorkerState) {
    && s.inFlight <= 1
    && (s.running <==> s.inFlight == 1)
    && s.begun == s.settled + s.inFlight
  }

  /** One batch per process, after any sequence of ticks and settlings. */
  lemma {:induction false} OneBatchPerProcess(events: seq<WorkerEvent>)
    ensures OneBatch(WorkerRun(STARTED, events))
  {
    if events != [] {
      OneBatchPerProcess(events[..|events| - 1]);
    }
  }

  /** A batch that ends, even by throwing, never blocks the next: the tick that follows it starts one. */
  lemma TickAfterSettling(events: seq<WorkerEvent>, rejected: bool)
    ensures var s := WorkerRun(STARTED, events);
            s.inFlight > 0 ==>
              WorkerRun(STARTED, events + [BatchSettled(rejected)] + [Tick]).begun == s.begun + 1
  {
    OneBatchPerProcess(events);
    var settled := events + [BatchSettled(rejected)];
    assert settled[..|settled| - 1] == events;
    assert (settled + [Tick])[..|settled|] == settled;
  }

  class OutboxRelayWorker {
    var running: bool
    var timer: Option<int>
    // What the program does not store: calls of `publishBatch` not yet settled, begun and settled.
    ghost var inFlight: nat
    ghost var begun: nat
    ghost var settled: nat

    ghost function State(): WorkerState
      reads this
    {
      WorkerState(running, inFlight, begun, settled)
    }

    ghost predicate Valid()
      reads this
    {
      OneBatch(State())
    }

    constructor ()
      ensures State() == STARTED && timer.None?
    {
      running, timer := false, None;
      inFlight, begun, settled := 0, 0, 0;
    }

    method OnModuleInit(enabled: bool, configured: Option<int>)
      requires Valid()
      modifies this
      ensures Valid()
      ensures timer == if enabled then Some(PollInterval(configured)) else old(timer)
      ensures State() == if enabled then WorkerNext(old(State()), Tick) else old(State())
      ensures enabled ==> running && inFlight == 1 && begun == old(begun) + (1 - old(inFlight))
    {
      if !enabled {
        return;
      }
      timer := Some(PollInterval(configured));
      var _ := RunOnce();
    }

    method OnModuleDestroy()
      modifies this`timer
      ensures timer.None? && State() == old(State())
    {
      timer := None;
    }

    /** The synchronous part of `runOnce`, up to the await of `publishBatch`. */
    method RunOnce() returns (starts: bool)
      requires Valid()
      modifies this`running, this`inFlight, this`begun
      ensures Valid()
      ensures starts <==> old(inFlight) == 0
      ensures State() == WorkerNext(old(State()), Tick)
      ensures running && inFlight == 1 && begun == old(begun) + if starts then 1 else 0
    {
      if running {
        return false;
      }
      running := true;
      inFlight, begun := inFlight + 1, begun + 1;
      starts := true;
    }

    /** `publishBatch` settles, fulfilled or rejected alike. */
    method Settle(rejected: bool)
      requires Valid() && inFlight > 0
      modifies this`running, this`inFlight, this`settled
      ensures Valid()
      ensures State() == WorkerNext(old(State()), BatchSettled(rejected))
      ensures !running && inFlight == 0
    {
      inFlight, settled := inFlight - 1, settled + 1;
      running := false;
    }
  }
}
