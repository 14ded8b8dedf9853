// The port's state and its lock-held sections as functions: what one critical section of
// `Port` makes of the state under the mutex. The class in port.dfy computes them step by
// step; the transition system in port_system.dfy interleaves them.

module PortSections {
  import opened Basics
  import opened TaskOrder

  datatype Mode = Manual | ThreadPool | SerializedThreadPool | Immediate

  datatype PortState = PortState(
    tasks: seq<Task>,
    submitted: nat,
    dispatched: nat,
    lastDispatch: Option<int>,
    terminated: bool,
    activeContexts: nat,
    inFlight: int,
    workersStarted: bool)

  const EMPTY_PORT := PortState([], 0, 0, None, false, 0, 0, false)

  // What `submit` decides under the lock. `Queued` carries how many workers it starts.
  datatype Verdict = Refused | RunInline | SpawnDelayed | Queued(workers: nat)

  // What one pass of the wait loop decides under the lock.
  datatype Take = Gone | Took(task: Task) | Park(until: Option<int>) | TimedOut | Again

  // `min(4)` of the machine's parallelism, 2 when that is unknown.
  function PoolSize(parallelism: Option<nat>): nat {
    match parallelism
    case None => 2
    case Some(n) => if n < 4 then n else 4
  }

  function WorkersFor(mode: Mode, parallelism: Option<nat>): nat {
    match mode
    case SerializedThreadPool => 1
    case ThreadPool => PoolSize(parallelism)
    case _ => 0
  }

  function HasWorkers(mode: Mode): bool {
    mode.SerializedThreadPool? || mode.ThreadPool?
  }

  function SubmitSection(p: PortState, mode: Mode, parallelism: Option<nat>, ownerTerminated: bool, t: Task)
    : (PortState, Verdict)
  {
    if p.terminated || ownerTerminated then (p, Refused)
    else if mode.Immediate? && t.due.None? then (p.(inFlight := p.inFlight + 1), RunInline)
    else if mode.Immediate? then (p, SpawnDelayed)
    else
      (p.(submitted := p.submitted + 1,
          tasks := Insert(p.tasks, t),
          workersStarted := p.workersStarted || HasWorkers(mode)),
       Queued(if p.workersStarted then 0 else WorkersFor(mode, parallelism)))
  }

  // Returns the state, the callbacks pulled out to be cancelled, and whether this was the
  // last live context.
  function TerminateSection(p: PortState, owner: nat): (PortState, seq<Task>, bool) {
    var active := if p.activeContexts > 0 then p.activeContexts - 1 else 0;
    var last := active == 0 && !p.terminated;
    (p.(activeContexts := active,
        tasks := NotOwnedBy(p.tasks, owner),
        terminated := p.terminated || last),
     OwnedBy(p.tasks, owner),
     last)
  }

  function EarlierOf(a: Option<int>, b: Option<int>): Option<int> {
    match (a, b)
    case (Some(x), Some(y)) => Some(if x <= y then x else y)
    case (Some(_), None) => a
    case (None, _) => b
  }

  // One pass of the wait loop. The clock is read twice, `n1` to test the head and `n2`
  // to compute the wait.
  function TakeSection(p: PortState, deadline: Option<int>, n1: int, n2: int): (PortState, Take) {
    if p.terminated then (p, Gone)
    else if p.tasks != [] && ReadyAt(p.tasks[0], n1) then
      (p.(inFlight := p.inFlight + 1, tasks := p.tasks[1..]), Took(p.tasks[0]))
    else
      var nextDue := if p.tasks == [] then None else p.tasks[0].due;
      match EarlierOf(deadline, nextDue)
      case None => (p, Park(None))
      case Some(until) =>
        if until > n2 then (p, Park(Some(until)))
        else if deadline.Some? && deadline.value <= n2 then (p, TimedOut)
        else (p, Again)
  }

  function DrainSection(p: PortState, now: int): (PortState, seq<Task>) {
    var n := ReadyCount(p.tasks, now);
    (p.(tasks := p.tasks[n..], inFlight := p.inFlight + n), p.tasks[..n])
  }

  function FinishSection(p: PortState, n: nat, now: int): PortState {
    if n == 0 then p
    else p.(dispatched := p.dispatched + n, lastDispatch := Some(now), inFlight := p.inFlight - n)
  }
}
