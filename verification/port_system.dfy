// One port under every interleaving. Each call into the port (submit, dispatch, worker
// thread, delayed thread, terminate) is an activity with its own program counter; a step
// is one lock-held section, one condition-variable action, or the start or return of one
// callback. A call made from inside a callback is simply another activity, so nested
// calls are covered by letting activities interleave freely.

module PortSystem {
  import opened Basics
  import opened TaskOrder
  import opened PortSections

  // Why an activity holds callbacks that it will run.
  datatype Role = Inline | Worker | Dispatcher(deadline: int)

  datatype Call =
    | Returned
    // submit: owner flag read, deadline computed, lock not yet taken
    | Submitting(owner: nat, ownerTerminated: bool, due: Option<int>)
    // submit: unlocked, `ready` not yet notified
    | NotifyingReady
    // wait_for_task: about to take the lock, or parked on `ready` until a bound
    | Seeking(role: Role)
    | ParkedReady(role: Role, until: Option<int>)
    // holding callbacks taken off the queue: `todo` not yet invoked, at most one running,
    // `owed` still counted in `inFlight`; `drained` once no further snapshot will be taken
    | Executing(role: Role, todo: seq<Task>, running: Option<Task>, owed: nat, drained: bool)
    // unlocked after accounting, `drained` not yet notified
    | NotifyingDrained(role: Role)
    // the thread that carries a delayed callback of an Immediate port
    | Sleeping(task: Task)
    | Woken(task: Task, canceled: bool)
    | RunningDelayed(task: Task)
    // terminate: owner flag stored, lock not yet taken
    | Terminating(owner: nat, wait: bool)
    // terminate: cancelling what was pulled; `rest` while the remainder is still to drain
    | Cancelling(owner: nat, wait: bool, notified: bool, todo: seq<Task>, running: Option<Task>, rest: bool)
    // terminate(wait): about to test `inFlight`, or parked on `drained`
    | AwaitingDrain(owner: nat)
    | ParkedDrained(owner: nat)

  // A context is flagged when `terminate` has stored its flag and ended when the section
  // that removes it from the port has run.
  datatype ContextPhase = Live | Flagged | Ended

  datatype Sys = Sys(
    mode: Mode,
    parallelism: Option<nat>,
    now: int,
    port: PortState,
    contexts: seq<ContextPhase>,
    calls: seq<Call>,
    accepted: seq<Task>,   // every callback a submit took, in acceptance order
    ran: seq<nat>,         // ids invoked with canceled = false, in start order
    cancelled: seq<nat>,   // ids invoked with canceled = true, in start order
    pulled: nat)           // callbacks taken off the queue by termination

  datatype Step =
    | Tick(elapsed: nat)
    | AddContext
    | BeginSubmit(owner: nat, delay: nat)
    | Submit(c: nat)
    | NotifyReady(c: nat)
    | BeginDispatch(timeout: nat)
    | TryTake(c: nat, n1: int, n2: int)
    | Unpark(c: nat)
    | Invoke(c: nat)
    | CallbackReturns(c: nat)
    | Drain(c: nat)
    | Finish(c: nat)
    | NotifyDrained(c: nat)
    | ReadPortFlag(c: nat)
    | BeginTerminate(owner: nat, wait: bool)
    | Terminate(c: nat)
    | DrainRest(c: nat)
    | LeaveCancelling(c: nat)
    | TestInFlight(c: nat)

  function Initial(mode: Mode, parallelism: Option<nat>, now: int): Sys {
    Sys(mode, parallelism, now, EMPTY_PORT, [], [], [], [], [], 0)
  }

  function Deadline(role: Role): Option<int> {
    if role.Dispatcher? then Some(role.deadline) else None
  }

  function With(s: Sys, c: nat, call: Call): Sys
    requires c < |s.calls|
  {
    s.(calls := s.calls[c := call])
  }

  function WakeReady(call: Call): Call {
    if call.ParkedReady? then Seeking(call.role) else call
  }

  function WakeDrained(call: Call): Call {
    if call.ParkedDrained? then AwaitingDrain(call.owner) else call
  }

  function WakeAllReady(calls: seq<Call>): (r: seq<Call>)
    ensures |r| == |calls| && forall i :: 0 <= i < |calls| ==> r[i] == WakeReady(calls[i])
  {
    seq(|calls|, i requires 0 <= i < |calls| => WakeReady(calls[i]))
  }

  function WakeAllDrained(calls: seq<Call>): (r: seq<Call>)
    ensures |r| == |calls| && forall i :: 0 <= i < |calls| ==> r[i] == WakeDrained(calls[i])
  {
    seq(|calls|, i requires 0 <= i < |calls| => WakeDrained(calls[i]))
  }

  function Workers(n: nat): (r: seq<Call>)
    ensures |r| == n && forall i :: 0 <= i < n ==> r[i] == Seeking(Worker)
  {
    seq(n, i => Seeking(Worker))
  }

  // ---- when a step can happen --------------------------------------------------------

  predicate Enabled(s: Sys, step: Step) {
    if IsEntry(step) then
      && (step.BeginSubmit? ==> step.owner < |s.contexts|)
      // a context is terminated at most once
      && (step.BeginTerminate? ==> step.owner < |s.contexts| && s.contexts[step.owner].Live?)
    else step.c < |s.calls| && Ready(s, step, s.calls[step.c])
  }

  // The passage of time, a new context, and the beginning of a call: no call's own step.
  predicate IsEntry(step: Step) {
    step.Tick? || step.AddContext? || step.BeginSubmit? || step.BeginDispatch? || step.BeginTerminate?
  }

  // Between an unlock and the `ready.notify_all` it owes.
  predicate GivesReadyNotice(call: Call) {
    call.NotifyingReady? || (call.Cancelling? && !call.notified)
  }

  predicate CanInvoke(call: Call) {
    match call
    case Executing(_, todo, running, _, _) => todo != [] && running.None?
    case Cancelling(_, _, notified, todo, running, _) => notified && todo != [] && running.None?
    case Woken(_, _) => true
    case _ => false
  }

  predicate CanDrain(call: Call) {
    call.Executing? && call.todo == [] && call.running.None? && !call.drained
  }

  predicate CanFinish(call: Call) {
    call.Executing? && call.todo == [] && call.running.None? && call.drained
  }

  predicate CanDrainRest(call: Call) {
    call.Cancelling? && call.notified && call.todo == [] && call.running.None? && call.rest
  }

  predicate InCallback(call: Call) {
    match call
    case Executing(_, _, running, _, _) => running.Some?
    case Cancelling(_, _, _, _, running, _) => running.Some?
    case RunningDelayed(_) => true
    case _ => false
  }

  predicate Ready(s: Sys, step: Step, call: Call)
    requires !IsEntry(step)
  {
    match step
    case Submit(_) => call.Submitting?
    case NotifyReady(_) => GivesReadyNotice(call)
    case TryTake(_, n1, n2) => call.Seeking? && s.now <= n1 <= n2
    // a notified, timed-out or spurious wake: the waiter re-tests under the lock
    case Unpark(_) => call.ParkedReady? || call.ParkedDrained?
    case Invoke(_) => CanInvoke(call)
    case CallbackReturns(_) => InCallback(call)
    case Drain(_) => CanDrain(call)
    case Finish(_) => CanFinish(call)
    case NotifyDrained(_) => call.NotifyingDrained?
    case ReadPortFlag(_) => call.Sleeping? && ReadyAt(call.task, s.now)
    case Terminate(_) => call.Terminating? && call.owner < |s.contexts|
    case DrainRest(_) => CanDrainRest(call)
    case LeaveCancelling(_) => call.Cancelling? && call.notified && call.todo == [] && call.running.None? && !call.rest
    case TestInFlight(_) => call.AwaitingDrain?
  }

  // ---- what it does ------------------------------------------------------------------

  function DoSubmit(s: Sys, c: nat): Sys
    requires c < |s.calls| && s.calls[c].Submitting?
  {
    var call := s.calls[c];
    var t := Task(|s.accepted|, call.owner, call.due);
    var (port, verdict) := SubmitSection(s.port, s.mode, s.parallelism, call.ownerTerminated, t);
    match verdict
    case Refused => With(s, c, Returned)
    case RunInline => With(s, c, Executing(Inline, [t], None, 1, true)).(port := port, accepted := s.accepted + [t])
    case SpawnDelayed =>
      s.(calls := s.calls[c := Returned] + [Sleeping(t)], accepted := s.accepted + [t])
    case Queued(workers) =>
      s.(calls := s.calls[c := NotifyingReady] + Workers(workers), port := port, accepted := s.accepted + [t])
  }

  function DoTryTake(s: Sys, c: nat, n1: int, n2: int): Sys
    requires c < |s.calls| && s.calls[c].Seeking?
  {
    var role := s.calls[c].role;
    var (port, take) := TakeSection(s.port, Deadline(role), n1, n2);
    var after := match take
      case Gone => Returned
      case TimedOut => Returned
      case Took(t) => Executing(role, [t], None, 1, !role.Dispatcher?)
      case Park(until) => ParkedReady(role, until)
      case Again => Seeking(role);
    With(s, c, after).(port := port, now := n2)
  }

  function DoNotifyReady(s: Sys, c: nat): Sys
    requires c < |s.calls| && (s.calls[c].NotifyingReady? || s.calls[c].Cancelling?)
  {
    var call := s.calls[c];
    var after := if call.NotifyingReady? then Returned else call.(notified := true);
    s.(calls := WakeAllReady(s.calls[c := after]))
  }

  function DoUnpark(s: Sys, c: nat): Sys
    requires c < |s.calls|
  {
    With(s, c, WakeDrained(WakeReady(s.calls[c])))
  }

  function DoInvoke(s: Sys, c: nat): Sys
    requires c < |s.calls| && CanInvoke(s.calls[c])
  {
    var call := s.calls[c];
    match call
    case Executing(role, todo, _, owed, drained) =>
      With(s, c, Executing(role, todo[1..], Some(todo[0]), owed, drained)).(ran := s.ran + [todo[0].id])
    case Cancelling(owner, wait, notified, todo, _, rest) =>
      With(s, c, Cancelling(owner, wait, notified, todo[1..], Some(todo[0]), rest))
        .(cancelled := s.cancelled + [todo[0].id])
    case Woken(t, canceled) =>
      if canceled then With(s, c, RunningDelayed(t)).(cancelled := s.cancelled + [t.id])
      else With(s, c, RunningDelayed(t)).(ran := s.ran + [t.id])
  }

  function DoCallbackReturns(s: Sys, c: nat): Sys
    requires c < |s.calls| && InCallback(s.calls[c])
  {
    var call := s.calls[c];
    With(s, c, if call.RunningDelayed? then Returned else call.(running := None))
  }

  function DoDrain(s: Sys, c: nat): Sys
    requires c < |s.calls| && s.calls[c].Executing?
  {
    var call := s.calls[c];
    var (port, batch) := DrainSection(s.port, s.now);
    With(s, c, Executing(call.role, batch, None, call.owed + |batch|, true)).(port := port)
  }

  function DoFinish(s: Sys, c: nat): Sys
    requires c < |s.calls| && s.calls[c].Executing?
  {
    var call := s.calls[c];
    With(s, c, NotifyingDrained(call.role)).(port := FinishSection(s.port, call.owed, s.now))
  }

  function DoNotifyDrained(s: Sys, c: nat): Sys
    requires c < |s.calls| && s.calls[c].NotifyingDrained?
  {
    var after := if s.calls[c].role.Worker? then Seeking(Worker) else Returned;
    s.(calls := WakeAllDrained(s.calls[c := after]))
  }

  function DoTerminate(s: Sys, c: nat): Sys
    requires c < |s.calls| && s.calls[c].Terminating? && s.calls[c].owner < |s.contexts|
  {
    var call := s.calls[c];
    var (port, pending, last) := TerminateSection(s.port, call.owner);
    With(s, c, Cancelling(call.owner, call.wait, false, pending, None, last))
      .(port := port, contexts := s.contexts[call.owner := Ended], pulled := s.pulled + |pending|)
  }

  function DoDrainRest(s: Sys, c: nat): Sys
    requires c < |s.calls| && s.calls[c].Cancelling?
  {
    var rest := s.port.tasks;
    With(s, c, s.calls[c].(todo := rest, rest := false))
      .(port := s.port.(tasks := []), pulled := s.pulled + |rest|)
  }

  function DoLeaveCancelling(s: Sys, c: nat): Sys
    requires c < |s.calls| && s.calls[c].Cancelling?
  {
    With(s, c, if s.calls[c].wait then AwaitingDrain(s.calls[c].owner) else Returned)
  }

  function DoTestInFlight(s: Sys, c: nat): Sys
    requires c < |s.calls| && s.calls[c].AwaitingDrain?
  {
    With(s, c, if s.port.inFlight > 0 then ParkedDrained(s.calls[c].owner) else Returned)
  }

  function Apply(s: Sys, step: Step): Sys
    requires Enabled(s, step)
  {
    match step
    case Tick(elapsed) => s.(now := s.now + elapsed)
    case AddContext =>
      s.(contexts := s.contexts + [Live], port := s.port.(activeContexts := s.port.activeContexts + 1))
    case BeginSubmit(owner, delay) =>
      var due := if delay == 0 then None else Some(s.now + delay);
      s.(calls := s.calls + [Submitting(owner, !s.contexts[owner].Live?, due)])
    case Submit(c) => DoSubmit(s, c)
    case NotifyReady(c) => DoNotifyReady(s, c)
    case BeginDispatch(timeout) => s.(calls := s.calls + [Seeking(Dispatcher(s.now + timeout))])
    case TryTake(c, n1, n2) => DoTryTake(s, c, n1, n2)
    case Unpark(c) => DoUnpark(s, c)
    case Invoke(c) => DoInvoke(s, c)
    case CallbackReturns(c) => DoCallbackReturns(s, c)
    case Drain(c) => DoDrain(s, c)
    case Finish(c) => DoFinish(s, c)
    case NotifyDrained(c) => DoNotifyDrained(s, c)
    case ReadPortFlag(c) => With(s, c, Woken(s.calls[c].task, s.port.terminated))
    case BeginTerminate(owner, wait) =>
      s.(contexts := s.contexts[owner := Flagged], calls := s.calls + [Terminating(owner, wait)])
    case Terminate(c) => DoTerminate(s, c)
    case DrainRest(c) => DoDrainRest(s, c)
    case LeaveCancelling(c) => DoLeaveCancelling(s, c)
    case TestInFlight(c) => DoTestInFlight(s, c)
  }

  // ---- runs --------------------------------------------------------------------------

  // `steps` is a run from `s`: every step enabled where it is taken.
  ghost predicate IsRun(s: Sys, steps: seq<Step>)
    decreases |steps|
  {
    steps == [] || (Enabled(s, steps[0]) && IsRun(Apply(s, steps[0]), steps[1..]))
  }

  ghost function After(s: Sys, steps: seq<Step>): Sys
    requires IsRun(s, steps)
    decreases |steps|
  {
    if steps == [] then s else After(Apply(s, steps[0]), steps[1..])
  }
}
