/** The same streaming call under concurrency: one worker writes the response while
any number of scheduler threads poll for a disconnected client. Each step below is
one access to shared state; a schedule interleaves them in any order. */
module StreamRace {

  /** What the worker was asked to publish. */
  datatype Kind = Event | Error | Closing

  /** Where the worker is in write, finish or finish_with_error. */
  datatype Worker =
    | Ready
    | Acquire(kind: Kind)     // about to lock in start_stream
    | Check(kind: Kind)       // lock held, reading stream_started_
    | Create(kind: Kind)      // creating the progressive attachment
    | Headers(kind: Kind)     // setting the response headers
    | Mark(kind: Kind)        // setting stream_started_
    | Unlock(kind: Kind, first: bool)
    | CallDone(kind: Kind)    // lock released, about to run `done`
    | InDone(kind: Kind)      // inside `done`, which may poll
    | Publish(kind: Kind)
    | Reject                  // writing a plain HTTP error
  {
    predicate Locked() { Check? || Create? || Headers? || Mark? || Unlock? }
  }

  /** Where a thread is in is_disconnected. */
  datatype Poller = Away | Waiting | Reading | Asking {
    predicate Locked() { Reading? || Asking? }
  }

  datatype Owner = Free | Worker | Poller(id: nat)
  datatype Life = Alive | Dying | Gone

  /** What happens to the HTTP controller. */
  datatype Access = Touch | RunDone

  datatype State = State(
    lock: Owner,
    started: bool,
    finished: bool,
    connected: bool,
    worker: Worker,
    pollers: map<nat, Poller>,
    life: Life,
    log: seq<Access>)
  {
    function At(id: nat): Poller { if id in pollers then pollers[id] else Away }

    function Touched(): State { this.(log := log + [Touch]) }

    function DoneRun(): State { this.(log := log + [RunDone]) }
  }

  datatype Step =
    | Begin(kind: Kind, serializes: bool)  // the worker enters write, finish or finish_with_error
    | Work(written: bool)                  // its next step; whether a write to the attachment succeeds
    | BeginPoll(id: nat)
    | Poll(id: nat)
    | Release                              // the last owner lets the call go

  const INITIAL: State := State(Free, false, false, true, Ready, map[], Alive, [])

  // ---------------------------------------------------------------------
  // The steps.

  predicate Enabled(s: State, step: Step) {
    match step
    case Begin(_, _) => s.life.Alive? && s.worker.Ready?
    case Work(_) => !s.worker.Ready? && (s.worker.Acquire? ==> s.lock.Free?)
    case BeginPoll(id) => s.life.Alive? && s.At(id).Away?
    case Poll(id) => !s.At(id).Away? && (s.At(id).Waiting? ==> s.lock.Free?)
    case Release =>
      || s.life.Dying?
      || (s.life.Alive? && s.worker.Ready? && forall id | id in s.pollers :: s.pollers[id].Away?)
  }

  function Next(s: State, step: Step): State
    requires Enabled(s, step)
  {
    match step
    case Begin(kind, serializes) => Entered(s, if kind.Event? && !serializes then Error else kind)
    case Work(written) => Worked(s, written)
    case BeginPoll(id) => s.(pollers := s.pollers[id := Waiting])
    case Poll(id) => Polled(s, id)
    case Release =>
      if s.life.Alive? then
        // record_result asks the controller only while the call owns it
        (if s.started then s else s.Touched()).(life := Dying)
      else
        (if s.started then s else s.DoneRun()).(life := Gone)
  }

  function Entered(s: State, kind: Kind): State
  {
    if s.finished then s
    else if !kind.Error? then s.(worker := Acquire(kind))
    else if s.started then s.(worker := Publish(Error))
    else s.(worker := Reject)
  }

  function Worked(s: State, written: bool): State
    requires !s.worker.Ready?
  {
    match s.worker
    case Acquire(kind) => s.(lock := Owner.Worker, worker := Check(kind))
    case Check(kind) => s.(worker := if s.started then Unlock(kind, false) else Create(kind))
    case Create(kind) => s.Touched().(worker := Headers(kind))
    case Headers(kind) => s.Touched().(worker := Mark(kind))
    case Mark(kind) => s.(started := true, worker := Unlock(kind, true))
    case Unlock(kind, first) => s.(lock := Free, worker := if first then CallDone(kind) else Publish(kind))
    case CallDone(kind) => s.DoneRun().(worker := InDone(kind))
    case InDone(kind) => s.(worker := Publish(kind))
    case Publish(kind) =>
      s.(connected := s.connected && written, finished := !kind.Event?, worker := Ready)
    case Reject => s.Touched().(finished := true, worker := Ready)
  }

  function Polled(s: State, id: nat): State
    requires !s.At(id).Away?
  {
    match s.At(id)
    case Waiting => s.(lock := Owner.Poller(id), pollers := s.pollers[id := Reading])
    case Reading =>
      if s.connected && !s.started then s.(pollers := s.pollers[id := Asking])
      else s.(lock := Free, pollers := s.pollers[id := Away])
    case Asking => s.Touched().(lock := Free, pollers := s.pollers[id := Away])
  }

  /** A schedule; steps that are not enabled are passed over. */
  function Run(s: State, schedule: seq<Step>): State
    decreases |schedule|
  {
    if schedule == [] then s
    else Run(if Enabled(s, schedule[0]) then Next(s, schedule[0]) else s, schedule[1..])
  }

  // ---------------------------------------------------------------------
  // The invariant.

  /** Whether `done` has run: after the stream opened and its callback was called,
  or when a call that never opened was destroyed. */
  predicate DoneHasRun(s: State) {
    if s.started then !(s.worker.Unlock? && s.worker.first) && !s.worker.CallDone? else s.life.Gone?
  }

  predicate LockInv(s: State) {
    && (s.lock.Worker? <==> s.worker.Locked())
    && (forall id | id in s.pollers :: s.pollers[id].Locked() <==> s.lock == Owner.Poller(id))
    && (s.lock.Poller? ==> s.lock.id in s.pollers)
  }

  predicate StartInv(s: State) {
    && (s.worker.Create? || s.worker.Headers? || s.worker.Mark? || s.worker.Reject? ==> !s.started)
    && (s.worker.CallDone? || s.worker.InDone? || s.worker.Publish? || s.worker.Unlock? ==> s.started)
    && (forall id | id in s.pollers && s.pollers[id].Asking? :: !s.started)
    && (!s.life.Alive? ==> s.worker.Ready? && forall id | id in s.pollers :: s.pollers[id].Away?)
  }

  /** `done` ran at most once, and the controller was not touched after it. */
  predicate LogInv(s: State) {
    && (forall i | 0 <= i < |s.log| && s.log[i].RunDone? :: i == |s.log| - 1)
    && (DoneHasRun(s) <==> s.log != [] && s.log[|s.log| - 1].RunDone?)
  }

  predicate Inv(s: State) { LockInv(s) && StartInv(s) && LogInv(s) }

  /** A step adds one access to the log at most. */
  lemma {:induction false} LogGrows(s: State, step: Step)
    requires Enabled(s, step)
    ensures var t := Next(s, step); t.log == s.log || t.log == s.log + [Touch] || t.log == s.log + [RunDone]
  {
    hide Entered, Worked, Polled;
    match step {
      case Begin(kind, serializes) => EnteredLog(s, if kind.Event? && !serializes then Error else kind);
      case Work(written) => WorkedLog(s, written);
      case Poll(id) => PolledLog(s, id);
      case _ =>
    }
  }

  lemma {:induction false} EnteredLog(s: State, kind: Kind)
    ensures Entered(s, kind).log == s.log
  {
  }

  lemma {:induction false} WorkedLog(s: State, written: bool)
    requires !s.worker.Ready?
    ensures var t := Worked(s, written); t.log == s.log || t.log == s.log + [Touch] || t.log == s.log + [RunDone]
  {
  }

  lemma {:induction false} PolledLog(s: State, id: nat)
    requires !s.At(id).Away?
    ensures var t := Polled(s, id); t.log == s.log || t.log == s.log + [Touch]
  {
  }

  /** An access to the controller comes before `done`. */
  lemma {:induction false} AccessBeforeDone(s: State, step: Step)
    requires StartInv(s) && Enabled(s, step)
    ensures Next(s, step).log != s.log ==> !DoneHasRun(s)
  {
  }

  /** `done` is logged when it runs. */
  lemma {:induction false} DoneIsLogged(s: State, step: Step)
    requires StartInv(s) && Enabled(s, step)
    ensures var t := Next(s, step);
      DoneHasRun(t) <==> DoneHasRun(s) || (|t.log| == |s.log| + 1 && t.log[|s.log|].RunDone?)
  {
  }

  lemma {:induction false} StepKeepsLog(s: State, step: Step)
    requires Inv(s) && Enabled(s, step)
    ensures LogInv(Next(s, step))
  {
    hide Next, Enabled, DoneHasRun, StartInv, LockInv;
    LogGrows(s, step);
    AccessBeforeDone(s, step);
    DoneIsLogged(s, step);
    var t := Next(s, step);
    assert forall i | 0 <= i < |s.log| :: t.log[i] == s.log[i];
  }

  lemma {:induction false} WorkKeeps(s: State, written: bool)
    requires LockInv(s) && StartInv(s) && Enabled(s, Work(written))
    ensures LockInv(Worked(s, written)) && StartInv(Worked(s, written))
  {
    assert Worked(s, written).pollers == s.pollers;
  }

  lemma {:induction false} PollKeeps(s: State, id: nat)
    requires LockInv(s) && StartInv(s) && Enabled(s, Poll(id))
    ensures LockInv(Polled(s, id)) && StartInv(Polled(s, id))
  {
  }

  lemma {:induction false} EnterKeeps(s: State, step: Step)
    requires LockInv(s) && StartInv(s) && Enabled(s, step) && !step.Work? && !step.Poll?
    ensures LockInv(Next(s, step)) && StartInv(Next(s, step))
  {
  }

  lemma {:induction false} StepKeeps(s: State, step: Step)
    requires Inv(s) && Enabled(s, step)
    ensures Inv(Next(s, step))
  {
    StepKeepsLog(s, step);
    hide LogInv, LockInv, StartInv, Polled, Worked, Entered;
    match step {
      case Work(written) => WorkKeeps(s, written);
      case Poll(id) => PollKeeps(s, id);
      case _ => EnterKeeps(s, step);
    }
  }

  lemma {:induction false} RunKeeps(s: State, schedule: seq<Step>)
    requires Inv(s)
    ensures Inv(Run(s, schedule))
    decreases |schedule|
  {
    hide Inv, Enabled;
    if schedule != [] {
      if Enabled(s, schedule[0]) {
        StepKeeps(s, schedule[0]);
        RunKeeps(Next(s, schedule[0]), schedule[1..]);
      } else {
        RunKeeps(s, schedule[1..]);
      }
    }
  }

  // ---------------------------------------------------------------------
  // Main results.

  /** In every interleaving `done` runs at most once, and exactly once when the
  call has been destroyed; and no thread touches the controller after it. */
  lemma {:induction false} DoneOnceAndLast(schedule: seq<Step>)
    ensures var s := Run(INITIAL, schedule);
      && (forall i | 0 <= i < |s.log| && s.log[i].RunDone? :: i == |s.log| - 1)
      && (s.life.Gone? ==> s.log != [] && s.log[|s.log| - 1].RunDone?)
  {
    RunKeeps(INITIAL, schedule);
  }

  /** Nor can any next step do so: once `done` has run, no enabled step touches the
  controller or runs `done` again. */
  lemma {:induction false} ReleasedForGood(schedule: seq<Step>, step: Step)
    requires RunDone in Run(INITIAL, schedule).log && Enabled(Run(INITIAL, schedule), step)
    ensures Next(Run(INITIAL, schedule), step).log == Run(INITIAL, schedule).log
  {
    var s := Run(INITIAL, schedule);
    RunKeeps(INITIAL, schedule);
    StepKeeps(s, step);
    LogGrows(s, step);
    hide Next, DoneHasRun, LockInv, StartInv, Run;
    var t := Next(s, step);
    var i :| 0 <= i < |s.log| && s.log[i].RunDone?;
    assert t.log[i] == s.log[i];
  }

  /** No deadlock: while the worker or a poller is inside an operation, some thread
  inside one can take its next step; the worker never holds the lock inside
  `done`, so a callback that polls gets its answer. */
  lemma {:induction false} NeverStuck(schedule: seq<Step>)
    ensures var s := Run(INITIAL, schedule);
      && (s.worker.InDone? || s.worker.CallDone? ==> !s.lock.Worker?)
      && (!s.worker.Ready? || (exists id :: !s.At(id).Away?)
          ==> Enabled(s, Work(true)) || exists id :: Enabled(s, Poll(id)))
  {
    var s := Run(INITIAL, schedule);
    RunKeeps(INITIAL, schedule);
    match s.lock {
      case Worker => assert Enabled(s, Work(true));
      case Poller(id) => assert s.At(id).Locked() && Enabled(s, Poll(id));
      case Free =>
        if s.worker.Ready? && exists id :: !s.At(id).Away? {
          var id :| !s.At(id).Away?;
          assert Enabled(s, Poll(id));
        }
    }
  }
}
