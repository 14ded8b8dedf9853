// `Port` itself: the mutable object, its critical sections with the loops the program
// runs, and the two operations that run callbacks on the calling thread.

module PortObject {
  import opened Basics
  import opened TaskOrder
  import opened PortSections

  // `Instant::now()`: some later-or-equal reading every time.
  class Clock {
    var time: int

    constructor ()
    {
      time := *;
    }

    method SleepUntil(until: int)
      modifies this
      ensures old(time) <= time && until <= time
    {
      var late: int :| 0 <= late;
      time := (if time < until then until else time) + late;
    }

    method Now() returns (t: int)
      modifies this
      ensures old(time) <= t == time
    {
      var elapsed: int :| 0 <= elapsed;
      time := time + elapsed;
      t := time;
    }
  }

  // What was invoked, in order, and whether as cancelled.
  type Log = seq<(Task, bool)>

  function Invoked(q: seq<Task>, canceled: bool): (log: Log)
    ensures |log| == |q| && forall i :: 0 <= i < |q| ==> log[i] == (q[i], canceled)
  {
    seq(|q|, i requires 0 <= i < |q| => (q[i], canceled))
  }

  lemma InvokedSnoc(q: seq<Task>, k: nat, canceled: bool)
    requires k < |q|
    ensures Invoked(q[..k], canceled) + [(q[k], canceled)] == Invoked(q[..k + 1], canceled)
  {
  }

  // The callbacks' side: whoever is called back may submit any number of callbacks to the
  // same port before returning, and other threads may while a dispatch sleeps.
  class Host {
    ghost var log: Log
    // the state each callback left the port in when it returned
    ghost var left: seq<PortState>

    constructor ()
      ensures log == [] && left == []
    {
      log, left := [], [];
    }

    method Run(port: Port, task: Task, canceled: bool)
      requires !port.mode.Immediate?
      modifies this, port
      ensures log == old(log) + [(task, canceled)]
      ensures left == old(left) + [port.State()]
      ensures OnlySubmissions(old(port.State()), port.State())
    {
      log := log + [(task, canceled)];
      Elsewhere(port);
      left := left + [port.State()];
    }

    method Elsewhere(port: Port)
      requires !port.mode.Immediate?
      modifies port
      ensures OnlySubmissions(old(port.State()), port.State())
    {
      var more: nat := *;
      while more > 0
        invariant OnlySubmissions(old(port.State()), port.State())
      {
        var t: Task := *;
        var ownerTerminated: bool := *;
        var v := port.SubmitLocked(ownerTerminated, t);
        more := more - 1;
      }
    }
  }

  // Submissions queue callbacks and touch no other account; a terminated port takes none.
  predicate OnlySubmissions(p: PortState, r: PortState) {
    && r.inFlight == p.inFlight && r.dispatched == p.dispatched && r.lastDispatch == p.lastDispatch
    && r.terminated == p.terminated && r.activeContexts == p.activeContexts
    && (p.terminated ==> r.tasks == p.tasks)
  }

  class Port {
    const mode: Mode
    const parallelism: Option<nat>
    const clock: Clock
    var tasks: seq<Task>
    var submitted: nat
    var dispatched: nat
    var lastDispatch: Option<int>
    var terminated: bool
    var activeContexts: nat
    var inFlight: int
    var workersStarted: bool

    function State(): PortState
      reads this
    {
      PortState(tasks, submitted, dispatched, lastDispatch, terminated, activeContexts, inFlight, workersStarted)
    }

    predicate HeadReady(now: int)
      reads this
    {
      tasks != [] && ReadyAt(tasks[0], now)
    }

    constructor (mode: Mode, parallelism: Option<nat>)
      ensures State() == EMPTY_PORT && this.mode == mode && this.parallelism == parallelism
      ensures fresh(clock)
    {
      this.mode := mode;
      this.parallelism := parallelism;
      clock := new Clock();
      tasks, submitted, dispatched, lastDispatch := [], 0, 0, None;
      terminated, activeContexts, inFlight, workersStarted := false, 0, 0, false;
    }

    method AddContext()
      modifies this
      ensures State() == old(State()).(activeContexts := old(activeContexts) + 1)
    {
      activeContexts := activeContexts + 1;
    }

    method SubmitLocked(ownerTerminated: bool, t: Task) returns (v: Verdict)
      modifies this
      ensures (State(), v) == SubmitSection(old(State()), mode, parallelism, ownerTerminated, t)
    {
      if terminated || ownerTerminated {
        return Refused;
      }
      if mode.Immediate? && t.due.None? {
        inFlight := inFlight + 1;
        return RunInline;
      }
      if mode.Immediate? {
        return SpawnDelayed;
      }
      submitted := submitted + 1;
      var position := 0;
      while position < |tasks| && !Overtakes(tasks[position], t)
        invariant position <= |tasks|
        invariant forall i :: 0 <= i < position ==> !Overtakes(tasks[i], t)
      {
        position := position + 1;
      }
      assert position == Position(tasks, t);
      tasks := tasks[..position] + [t] + tasks[position..];
      var started := StartWorkers();
      v := Queued(started);
    }

    method StartWorkers() returns (started: nat)
      modifies this`workersStarted
      ensures workersStarted == (old(workersStarted) || HasWorkers(mode))
      ensures started == if old(workersStarted) then 0 else WorkersFor(mode, parallelism)
    {
      started := 0;
      if workersStarted {
        return;
      }
      var count;
      match mode {
        case SerializedThreadPool => count := 1;
        case ThreadPool => count := PoolSize(parallelism);
        case _ => return;
      }
      workersStarted := true;
      while started < count
        invariant started <= count
      {
        started := started + 1;
      }
    }

    method TerminateLocked(owner: nat) returns (pending: seq<Task>, drainRest: bool)
      modifies this
      ensures (State(), pending, drainRest) == TerminateSection(old(State()), owner)
    {
      pending, drainRest := [], false;
      if activeContexts > 0 {
        activeContexts := activeContexts - 1;
      }
      ghost var active := activeContexts;
      ghost var before := tasks;
      var keep := tasks;
      tasks := [];
      ghost var done := 0;
      while keep != []
        invariant done <= |before| && keep == before[done..]
        invariant pending == OwnedBy(before[..done], owner)
        invariant tasks == NotOwnedBy(before[..done], owner)
        invariant State() == old(State()).(activeContexts := active, tasks := tasks)
        decreases |keep|
      {
        var front := keep[0];
        keep := keep[1..];
        assert before[..done + 1][..done] == before[..done];
        if front.owner == owner {
          pending := pending + [front];
        } else {
          tasks := tasks + [front];
        }
        done := done + 1;
      }
      assert before[..done] == before;
      if activeContexts == 0 && !terminated {
        terminated := true;
        drainRest := true;
      }
    }

    method DrainRest() returns (rest: seq<Task>)
      modifies this
      ensures rest == old(tasks)
      ensures State() == old(State()).(tasks := [])
    {
      rest := tasks;
      tasks := [];
    }

    // The wait loop up to the point where it parks or leaves: `Again` is the loop's
    // `continue`. At most two passes are ever needed.
    method TakeOrPark(deadline: Option<int>) returns (r: Take, ghost n1: int, ghost n2: int)
      modifies this, clock
      ensures old(clock.time) <= n1 <= n2 <= clock.time
      ensures (State(), r) == TakeSection(old(State()), deadline, n1, n2)
      ensures !r.Again?
      // what is ready at the entry is taken; it comes away with nothing from a terminated port,
      // or when the deadline has passed and the head was not ready
      ensures !old(terminated) && old(HeadReady(clock.time)) ==> r == Took(old(tasks)[0]) && tasks == old(tasks)[1..]
      ensures r.Gone? <==> old(terminated)
      ensures r.TimedOut? ==> deadline.Some? && deadline.value <= n2 && !HeadReady(n1)
      ensures r.Park? ==> (deadline.Some? ==> r.until.Some? && r.until.value <= deadline.value) && !HeadReady(n1)
    {
      var passes := 2;
      while true
        invariant State() == old(State())
        invariant old(clock.time) <= clock.time
        invariant passes == 2 || (passes == 1 && !terminated && tasks != [] && ReadyAt(tasks[0], clock.time))
        decreases passes
      {
        if terminated {
          n1, n2 := clock.time, clock.time;
          return Gone, n1, n2;
        }
        var now := clock.Now();
        n1, n2 := now, now;
        if tasks != [] && ReadyAt(tasks[0], now) {
          inFlight := inFlight + 1;
          var head := tasks[0];
          tasks := tasks[1..];
          return Took(head), n1, n2;
        }
        var nextDue := if tasks == [] then None else tasks[0].due;
        var waitUntil := EarlierOf(deadline, nextDue);
        if waitUntil.None? {
          return Park(None), n1, n2;
        }
        now := clock.Now();
        n2 := now;
        if waitUntil.value > now {
          return Park(waitUntil), n1, n2;
        }
        if deadline.Some? && deadline.value <= now {
          return TimedOut, n1, n2;
        }
        passes := passes - 1;
      }
    }

    method DrainReady() returns (batch: seq<Task>, ghost now: int)
      modifies this, clock
      ensures old(clock.time) <= now <= clock.time
      ensures (State(), batch) == DrainSection(old(State()), now)
    {
      var instant := clock.Now();
      now := instant;
      batch := [];
      ghost var before := tasks;
      while tasks != [] && ReadyAt(tasks[0], instant)
        invariant |batch| <= |before|
        invariant batch == before[..|batch|] && tasks == before[|batch|..]
        invariant forall i :: 0 <= i < |batch| ==> ReadyAt(before[i], instant)
        invariant State() == old(State()).(tasks := tasks, inFlight := old(inFlight) + |batch|)
        invariant clock.time == instant
        decreases |tasks|
      {
        var task := tasks[0];
        tasks := tasks[1..];
        inFlight := inFlight + 1;
        batch := batch + [task];
      }
      assert |batch| == ReadyCount(before, instant);
    }

    method FinishN(n: nat) returns (ghost now: int)
      modifies this, clock
      ensures old(clock.time) <= now <= clock.time
      ensures State() == FinishSection(old(State()), n, now)
    {
      now := clock.time;
      if n == 0 {
        return;
      }
      dispatched := dispatched + n;
      var instant := clock.Now();
      now := instant;
      lastDispatch := Some(instant);
      inFlight := inFlight - n;
    }

    // `wait_for_task` with a deadline. `early` bounds how often the sleep is cut short by a
    // notification or a spurious wake.
    method WaitForTask(host: Host, deadline: int, early: nat) returns (t: Option<Task>, ghost seen: int)
      requires !mode.Immediate?
      modifies this, clock
      // nothing is taken only off a terminated port, or when the head was not ready at a reading
      // of the clock and the deadline had passed after it; what is ready at the entry is taken
      ensures old(clock.time) <= seen <= clock.time
      ensures t.None? ==> terminated || (deadline <= clock.time && !HeadReady(seen))
      ensures !old(terminated) && old(HeadReady(clock.time)) ==> t == Some(old(tasks)[0])
      ensures old(terminated) ==> t.None?
      ensures dispatched == old(dispatched)
      ensures inFlight == old(inFlight) + if t.Some? then 1 else 0
      ensures old(clock.time) <= clock.time
      ensures t.Some? ==> ReadyAt(t.value, clock.time)
      ensures early == 0 && t.Some? ==> old(tasks) != [] && t.value == old(tasks)[0] && tasks == old(tasks)[1..]
      ensures early == 0 && t.None? ==> State() == old(State())
    {
      var wakes, slept := early, false;
      seen := clock.time;
      while true
        invariant old(clock.time) <= seen <= clock.time
        invariant old(terminated) || old(HeadReady(clock.time)) ==> State() == old(State()) && !slept
        invariant wakes <= early && (early == 0 ==> State() == old(State()))
        invariant dispatched == old(dispatched) && inFlight == old(inFlight)
        invariant old(clock.time) <= clock.time
        invariant slept ==> terminated || deadline <= clock.time || (tasks != [] && ReadyAt(tasks[0], clock.time))
        decreases wakes, !slept
      {
        var take, n1, n2 := TakeOrPark(Some(deadline));
        seen := n1;
        match take {
          case Took(task) => return Some(task), seen;
          case Gone => return None, seen;
          case TimedOut => return None, seen;
          case Again =>
          case Park(until) =>
            if wakes > 0 {
              wakes, slept := wakes - 1, false;
              host.Elsewhere(this);
            } else {
              clock.SleepUntil(until.value);
              slept := true;
            }
        }
      }
    }

    // `XTaskQueueDispatch`: the first callback, then exactly the snapshot taken after it,
    // however much the callbacks themselves submit; all accounted for at the end.
    method Dispatch(host: Host, timeout: nat, early: nat)
      returns (ran: bool, ghost first: Task, ghost at: int)
      requires !mode.Immediate? && |host.log| == |host.left|
      modifies this, clock, host
      ensures inFlight == old(inFlight) && |host.log| == |host.left|
      ensures !ran ==> host.log == old(host.log) && dispatched == old(dispatched)
      // it runs something unless the port has ended, or the timeout is over and nothing was ready
      ensures !old(terminated) && old(HeadReady(clock.time)) ==> ran && first == old(tasks)[0]
      ensures !ran ==> terminated || (old(clock.time) + timeout <= clock.time && !HeadReady(at))
      ensures !ran ==> old(clock.time) <= at <= clock.time
      ensures early == 0 && ran ==> old(tasks) != [] && first == old(tasks)[0]
      // the snapshot is of the state the first callback left behind
      ensures ran ==> |host.log| > |old(host.log)| && old(clock.time) <= at <= clock.time
      ensures ran ==>
                var batch := DrainSection(host.left[|old(host.log)|], at).1;
                && host.log == old(host.log) + [(first, false)] + Invoked(batch, false)
                && dispatched == old(dispatched) + 1 + |batch|
    {
      var entered := clock.Now();
      var found;
      found, at := WaitForTask(host, entered + timeout, early);
      first := Task(0, 0, None);
      if found.None? {
        return false, first, at;
      }
      first := found.value;
      host.Run(this, found.value, false);
      ghost var snapshot := State();
      ghost var now;
      var batch;
      batch, now := DrainReady();
      at := now;
      ghost var log0 := host.log;
      var i := 0;
      while i < |batch|
        invariant i <= |batch|
        invariant host.log == log0 + Invoked(batch[..i], false) && |host.log| == |host.left|
        invariant at <= clock.time
        invariant |host.left| > |old(host.log)| && host.left[|old(host.log)|] == snapshot
        invariant inFlight == old(inFlight) + 1 + |batch| && dispatched == old(dispatched)
      {
        host.Run(this, batch[i], false);
        InvokedSnoc(batch, i, false);
        i := i + 1;
      }
      assert batch[..i] == batch;
      var settled := FinishN(1 + |batch|);
      ran := true;
    }

    method RunAll(host: Host, q: seq<Task>)
      requires !mode.Immediate?
      modifies this, host
      ensures host.log == old(host.log) + Invoked(q, true)
      ensures OnlySubmissions(old(State()), State())
    {
      var i := 0;
      while i < |q|
        invariant i <= |q|
        invariant host.log == old(host.log) + Invoked(q[..i], true)
        invariant OnlySubmissions(old(State()), State())
      {
        host.Run(this, q[i], true);
        InvokedSnoc(q, i, true);
        i := i + 1;
      }
      assert q[..i] == q;
    }

    // `terminate_context` without the wait: the context's queued callbacks are invoked as
    // cancelled, in queue order; if it was the last context the port is dead and everything
    // else queued follows. Nothing is skipped and nothing else is invoked.
    method TerminateContext(host: Host, owner: nat)
      requires !mode.Immediate?
      modifies this, host
      ensures var (p, pending, last) := TerminateSection(old(State()), owner);
              && host.log == old(host.log) + Invoked(pending, true) + (if last then Invoked(p.tasks, true) else [])
              && terminated == p.terminated && activeContexts == p.activeContexts
              && (last ==> tasks == [])
      ensures inFlight == old(inFlight) && dispatched == old(dispatched)
    {
      var pending, drainRest := TerminateLocked(owner);
      RunAll(host, pending);
      if drainRest {
        var rest := DrainRest();
        RunAll(host, rest);
      }
    }
  }
}
