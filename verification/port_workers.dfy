// The threads of a pool port: how many there are at any time, and that a callback that is
// ready is never left to threads that all sleep.

module PortWorkers {
  import opened Basics
  import opened TaskOrder
  import opened PortSections
  import opened PortSystem
  import opened Ledger
  import opened PortLedger
  import opened PortInvariant
  import opened PortRuns
  import opened PortTheorems

  predicate IsWorker(call: Call) {
    match call
    case Executing(role, _, _, _, _) => role.Worker?
    case Seeking(role) => role.Worker?
    case ParkedReady(role, _) => role.Worker?
    case NotifyingDrained(role) => role.Worker?
    case _ => false
  }

  // How many pool threads there are.
  function Threads(calls: seq<Call>): nat {
    if calls == [] then 0 else Threads(calls[..|calls| - 1]) + Once(IsWorker(calls[|calls| - 1]))
  }

  lemma {:induction false} ThreadsAreAgents(calls: seq<Call>)
    ensures Total(calls, 0).agents == Threads(calls)
  {
    if calls != [] {
      var rest, last := calls[..|calls| - 1], calls[|calls| - 1];
      ThreadsAreAgents(rest);
      TotalAppend(rest, [last], 0);
      TotalSingle(last, 0);
      assert calls == rest + [last];
    }
  }

  lemma ThreadsUpdate(calls: seq<Call>, c: nat, call: Call)
    requires c < |calls|
    ensures Threads(calls[c := call]) + Once(IsWorker(calls[c])) == Threads(calls) + Once(IsWorker(call))
  {
    ThreadsAreAgents(calls);
    ThreadsAreAgents(calls[c := call]);
    TotalUpdate(calls, c, call, 0);
  }

  lemma ThreadsAppend(a: seq<Call>, b: seq<Call>)
    ensures Threads(a + b) == Threads(a) + Threads(b)
  {
    ThreadsAreAgents(a);
    ThreadsAreAgents(b);
    ThreadsAreAgents(a + b);
    TotalAppend(a, b, 0);
  }

  lemma ThreadsWake(calls: seq<Call>)
    ensures Threads(WakeAllReady(calls)) == Threads(calls) == Threads(WakeAllDrained(calls))
  {
    ThreadsAreAgents(calls);
    ThreadsAreAgents(WakeAllReady(calls));
    ThreadsAreAgents(WakeAllDrained(calls));
    TotalWake(calls, 0);
  }

  lemma ThreadsOne(call: Call)
    ensures Threads([call]) == Once(IsWorker(call))
  {
    assert [call][..0] == [];
  }

  lemma ThreadsOfWorkers(n: nat)
    ensures Threads(Workers(n)) == n
  {
    ThreadsAreAgents(Workers(n));
    TotalWorkers(n, 0);
  }

  // Threads are started with the first callback queued, and stay until the port ends.
  ghost predicate Staffed(s: Sys) {
    && (s.port.workersStarted <==> HasWorkers(s.mode) && s.port.submitted > 0)
    && (!s.port.terminated ==>
          Threads(s.calls) == if s.port.workersStarted then WorkersFor(s.mode, s.parallelism) else 0)
  }

  predicate SameBooks(p: PortState, r: PortState) {
    r.workersStarted == p.workersStarted && r.submitted == p.submitted && (p.terminated ==> r.terminated)
  }

  lemma StaffedMove(s: Sys, r: Sys, c: nat, call: Call)
    requires Staffed(s) && c < |s.calls| && r.calls == s.calls[c := call] && SameBooks(s.port, r.port)
    requires r.mode == s.mode && r.parallelism == s.parallelism
    requires s.port.terminated || IsWorker(call) == IsWorker(s.calls[c])
    ensures Staffed(r)
  {
    ThreadsUpdate(s.calls, c, call);
  }

  // A worker leaves only when the port has ended.
  lemma WorkersStay(s: Sys, c: nat, n1: int, n2: int, r: Sys)
    requires c < |s.calls| && s.calls[c].Seeking? && r == DoTryTake(s, c, n1, n2)
    ensures s.port.terminated || IsWorker(r.calls[c]) == s.calls[c].role.Worker?
  {
  }

  lemma StaffedTake(s: Sys, c: nat, n1: int, n2: int, r: Sys)
    requires Staffed(s) && c < |s.calls| && s.calls[c].Seeking? && r == DoTryTake(s, c, n1, n2)
    ensures Staffed(r)
  {
    WorkersStay(s, c, n1, n2, r);
    StaffedMove(s, r, c, r.calls[c]);
  }

  lemma StaffedNotifyReady(s: Sys, c: nat, r: Sys)
    requires Staffed(s) && c < |s.calls| && GivesReadyNotice(s.calls[c]) && r == DoNotifyReady(s, c)
    ensures Staffed(r)
  {
    var after := if s.calls[c].NotifyingReady? then Returned else s.calls[c].(notified := true);
    StaffedMove(s, With(s, c, after), c, after);
    ThreadsWake(s.calls[c := after]);
  }

  lemma StaffedNotifyDrained(s: Sys, c: nat, r: Sys)
    requires Staffed(s) && c < |s.calls| && s.calls[c].NotifyingDrained? && r == DoNotifyDrained(s, c)
    ensures Staffed(r)
  {
    var after := if s.calls[c].role.Worker? then Seeking(Worker) else Returned;
    StaffedMove(s, With(s, c, after), c, after);
    ThreadsWake(s.calls[c := after]);
  }

  lemma StaffedEntry(s: Sys, step: Step, r: Sys)
    requires Staffed(s) && Enabled(s, step) && (step.BeginSubmit? || step.BeginDispatch? || step.BeginTerminate?)
    requires r == Apply(s, step)
    ensures Staffed(r)
  {
    var last := r.calls[|s.calls|];
    assert r.calls == s.calls + [last];
    ThreadsAppend(s.calls, [last]);
    ThreadsOne(last);
  }

  lemma StaffedSubmit(s: Sys, c: nat)
    requires Staffed(s) && c < |s.calls| && s.calls[c].Submitting?
    ensures Staffed(DoSubmit(s, c))
  {
    var r := DoSubmit(s, c);
    var t := Task(|s.accepted|, s.calls[c].owner, s.calls[c].due);
    ThreadsUpdate(s.calls, c, r.calls[c]);
    var more := r.calls[|s.calls|..];
    assert r.calls == s.calls[c := r.calls[c]] + more;
    ThreadsAppend(s.calls[c := r.calls[c]], more);
    var verdict := SubmitSection(s.port, s.mode, s.parallelism, s.calls[c].ownerTerminated, t).1;
    if verdict.Queued? {
      assert more == Workers(verdict.workers);
      ThreadsOfWorkers(verdict.workers);
    } else if verdict.SpawnDelayed? {
      assert more == [Sleeping(t)];
      ThreadsOne(Sleeping(t));
    } else {
      assert more == [];
    }
  }

  lemma StaffedOwn(s: Sys, step: Step, r: Sys)
    requires Staffed(s) && Enabled(s, step) && r == Apply(s, step)
    requires || step.Unpark? || step.Invoke? || step.CallbackReturns? || step.Drain? || step.Finish?
             || step.ReadPortFlag? || step.Terminate? || step.DrainRest? || step.LeaveCancelling? || step.TestInFlight?
    ensures Staffed(r)
  {
    StaffedMove(s, r, step.c, r.calls[step.c]);
  }

  lemma StaffedSpecial(s: Sys, step: Step, r: Sys)
    requires Staffed(s) && Enabled(s, step) && r == Apply(s, step)
    requires step.Submit? || step.NotifyReady? || step.NotifyDrained? || step.TryTake?
    ensures Staffed(r)
  {
    if step.Submit? {
      StaffedSubmit(s, step.c);
    } else if step.NotifyReady? {
      StaffedNotifyReady(s, step.c, r);
    } else if step.NotifyDrained? {
      StaffedNotifyDrained(s, step.c, r);
    } else {
      StaffedTake(s, step.c, step.n1, step.n2, r);
    }
  }

  lemma StaffedStep(s: Sys, step: Step, r: Sys)
    requires Staffed(s) && Enabled(s, step) && r == Apply(s, step)
    ensures Staffed(r)
  {
    if step.Submit? || step.NotifyReady? || step.NotifyDrained? || step.TryTake? {
      StaffedSpecial(s, step, r);
    } else if step.BeginSubmit? || step.BeginDispatch? || step.BeginTerminate? {
      StaffedEntry(s, step, r);
    } else if !step.Tick? && !step.AddContext? {
      StaffedOwn(s, step, r);
    }
  }

  lemma {:induction false} StaffedRun(s: Sys, steps: seq<Step>)
    requires Staffed(s) && IsRun(s, steps)
    ensures Staffed(After(s, steps))
    decreases |steps|
  {
    if steps != [] {
      var r := Apply(s, steps[0]);
      StaffedStep(s, steps[0], r);
      StaffedRun(r, steps[1..]);
    }
  }

  lemma ReachableStaffed(s: Sys)
    requires Reachable(s)
    ensures Staffed(s)
  {
    var mode, parallelism, now, steps :|
      IsRun(Initial(mode, parallelism, now), steps) && s == After(Initial(mode, parallelism, now), steps);
    StaffedRun(Initial(mode, parallelism, now), steps);
  }

  // At every moment of a port's life it has exactly its threads: none before a callback has
  // been queued, and none ever on a manual or an immediate port; then one if serialized; else
  // as many as the machine runs at once, but four at most, and two when that is unknown.
  lemma ThreadsExactly(s: Sys)
    requires Reachable(s) && !s.port.terminated
    ensures s.port.submitted == 0 || s.mode.Manual? || s.mode.Immediate? ==> Threads(s.calls) == 0
    ensures s.port.submitted > 0 && s.mode.SerializedThreadPool? ==> Threads(s.calls) == 1
    ensures s.port.submitted > 0 && s.mode.ThreadPool? && s.parallelism.None? ==> Threads(s.calls) == 2
    ensures s.port.submitted > 0 && s.mode.ThreadPool? && s.parallelism.Some? ==>
              && Threads(s.calls) <= 4 && Threads(s.calls) <= s.parallelism.value
              && (Threads(s.calls) == 4 || Threads(s.calls) == s.parallelism.value)
  {
    ReachableStaffed(s);
  }

  lemma {:induction false} SomeThread(calls: seq<Call>) returns (c: nat)
    requires Threads(calls) > 0
    ensures c < |calls| && IsWorker(calls[c])
    decreases |calls|
  {
    var n := |calls| - 1;
    if IsWorker(calls[n]) {
      c := n;
    } else {
      c := SomeThread(calls[..n]);
    }
  }

  // A callback that is ready is not left to sleepers: unless somebody is about to notify, some
  // thread is awake, or sleeps no longer than until now.
  lemma ReadyIsServed(s: Sys, t: Task) returns (c: nat)
    requires Reachable(s) && !s.port.terminated && s.parallelism != Some(0)
    requires s.mode.ThreadPool? || s.mode.SerializedThreadPool?
    requires t in s.port.tasks && ReadyAt(t, s.now)
    requires forall i :: 0 <= i < |s.calls| ==> !GivesReadyNotice(s.calls[i])
    ensures c < |s.calls| && IsWorker(s.calls[c])
    ensures s.calls[c].ParkedReady? ==> t.due.Some? && s.calls[c].until.Some? && s.calls[c].until.value <= s.now
  {
    ReachableInv(s);
    ThreadsExactly(s);
    c := SomeThread(s.calls);
    if s.calls[c].ParkedReady? {
      NoLostWakeup(s, c);
    }
  }
}
