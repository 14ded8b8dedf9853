// A serialized thread-pool port that nobody dispatches by hand: one callback at a time,
// undelayed callbacks in submission order.

module PortSerialized {
  import opened Basics
  import opened TaskOrder
  import opened PortSections
  import opened PortSystem
  import opened Ledger
  import opened PortLedger
  import opened PortInvariant
  import opened PortRuns
  import opened PortTheorems

  ghost predicate NobodyDispatches(steps: seq<Step>) {
    forall i :: 0 <= i < |steps| ==> !steps[i].BeginDispatch?
  }

  predicate ByDispatch(call: Call) {
    match call
    case Seeking(role) => role.Dispatcher?
    case ParkedReady(role, _) => role.Dispatcher?
    case Executing(role, _, _, _, _) => role.Dispatcher?
    case NotifyingDrained(role) => role.Dispatcher?
    case _ => false
  }

  predicate Undelayed(s: Sys, id: nat) {
    id < |s.accepted| && s.accepted[id].due.None?
  }

  // The undelayed callbacks started so far are in submission order, come before the one in
  // hand, and that one before everything undelayed in the queue.
  ghost predicate InTurn(s: Sys) {
    && s.mode.SerializedThreadPool?
    && (forall c :: 0 <= c < |s.calls| ==> !ByDispatch(s.calls[c]))
    && (forall i, j :: 0 <= i < j < |s.ran| && Undelayed(s, s.ran[i]) && Undelayed(s, s.ran[j]) ==> s.ran[i] < s.ran[j])
    && (forall i, t :: 0 <= i < |s.ran| && Undelayed(s, s.ran[i]) && t in s.port.tasks && t.due.None? ==>
         s.ran[i] < t.id)
    && (forall c, t :: 0 <= c < |s.calls| && s.calls[c].Executing? && t in s.calls[c].todo ==> HeldInTurn(s, t))
    && (forall i :: 0 <= i < |s.ran| ==> s.ran[i] < |s.accepted|)
  }

  ghost predicate HeldInTurn(s: Sys, t: Task) {
    && t.id < |s.accepted| && s.accepted[t.id] == t
    && (t.due.None? ==>
      && (forall i :: 0 <= i < |s.ran| && Undelayed(s, s.ran[i]) ==> s.ran[i] < t.id)
      && (forall u :: u in s.port.tasks && u.due.None? ==> t.id < u.id))
  }

  // One worker, so at most one activity executes, and it has one callback at most.
  lemma OneExecutes(s: Sys, c: nat, d: nat)
    requires Inv(s) && s.mode.SerializedThreadPool?
    requires c < |s.calls| && s.calls[c].Executing? && !ByDispatch(s.calls[c])
    requires d < |s.calls| && s.calls[d].Executing? && !ByDispatch(s.calls[d])
    ensures c == d && |s.calls[c].todo| <= 1
    ensures s.calls[c].running.Some? ==> s.calls[c].todo == []
  {
    assert CallOk(s, s.calls[c]) && CallOk(s, s.calls[d]);
    var ws := Weights(s.calls, 0);
    if c < d {
      SumTwo(ws, c, d);
    } else if d < c {
      SumTwo(ws, d, c);
    }
  }

  // Nothing is in a worker's hand while it is about to take.
  lemma NoneExecutesWhileSeeking(s: Sys, c: nat, d: nat)
    requires Inv(s) && s.mode.SerializedThreadPool?
    requires c < |s.calls| && s.calls[c].Seeking? && !ByDispatch(s.calls[c])
    requires d < |s.calls| && !ByDispatch(s.calls[d])
    ensures !s.calls[d].Executing?
  {
    assert CallOk(s, s.calls[c]) && CallOk(s, s.calls[d]);
    var ws := Weights(s.calls, 0);
    if c < d {
      SumTwo(ws, c, d);
    } else if d < c {
      SumTwo(ws, d, c);
    }
  }

  lemma NoSnapshots(s: Sys, c: nat)
    requires Inv(s) && InTurn(s) && c < |s.calls|
    ensures !CanDrain(s.calls[c])
  {
    assert CallOk(s, s.calls[c]);
  }

  // Steps that start nothing and queue nothing.
  lemma InTurnStill(s: Sys, r: Sys)
    requires InTurn(s)
    requires r.mode == s.mode && r.ran == s.ran && r.accepted == s.accepted
    requires forall t :: t in r.port.tasks ==> t in s.port.tasks
    requires forall c :: 0 <= c < |r.calls| ==> !ByDispatch(r.calls[c])
    requires forall c, t :: 0 <= c < |r.calls| && r.calls[c].Executing? && t in r.calls[c].todo ==>
               c < |s.calls| && s.calls[c].Executing? && t in s.calls[c].todo
    ensures InTurn(r)
  {
    forall c, t | 0 <= c < |r.calls| && r.calls[c].Executing? && t in r.calls[c].todo
      ensures HeldInTurn(r, t)
    {
      assert HeldInTurn(s, t);
    }
  }

  // The worker takes the head while nothing executes.
  lemma InTurnTook(s: Sys, r: Sys, c: nat)
    requires InTurn(s) && c < |s.calls| && s.port.tasks != [] && s.port.tasks[0].id < |s.accepted|
    requires s.accepted[s.port.tasks[0].id] == s.port.tasks[0]
    requires r == s.(calls := r.calls, port := r.port, now := r.now) && r.port.tasks == s.port.tasks[1..]
    requires r.calls == s.calls[c := Executing(Worker, [s.port.tasks[0]], None, 1, true)]
    requires forall d :: 0 <= d < |s.calls| ==> !s.calls[d].Executing?
    requires forall u :: u in s.port.tasks[1..] ==> u in s.port.tasks && Before(s.port.tasks[0], u)
    ensures InTurn(r)
  {
    assert s.port.tasks[0] in s.port.tasks;
    assert HeldInTurn(r, s.port.tasks[0]);
  }

  lemma InTurnTake(s: Sys, c: nat, n1: int, n2: int)
    requires Inv(s) && InTurn(s) && c < |s.calls| && s.calls[c].Seeking? && s.now <= n1 <= n2
    ensures InTurn(DoTryTake(s, c, n1, n2))
  {
    var r := DoTryTake(s, c, n1, n2);
    var q := s.port.tasks;
    if r.calls[c].Executing? {
      HeadFirst(q);
      forall d | 0 <= d < |s.calls|
        ensures !s.calls[d].Executing?
      {
        NoneExecutesWhileSeeking(s, c, d);
      }
      InTurnTook(s, r, c);
    } else {
      InTurnStill(s, r);
    }
  }

  lemma InTurnInvoke(s: Sys, c: nat)
    requires Inv(s) && InTurn(s) && c < |s.calls| && CanInvoke(s.calls[c])
    ensures InTurn(DoInvoke(s, c))
  {
    var r := DoInvoke(s, c);
    assert CallOk(s, s.calls[c]);
    if s.calls[c].Executing? {
      var t := s.calls[c].todo[0];
      assert HeldInTurn(s, t);
      OneExecutes(s, c, c);
      forall d | 0 <= d < |r.calls| && r.calls[d].Executing?
        ensures r.calls[d].todo == []
      {
        OneExecutes(s, c, d);
      }
    } else {
      InTurnStill(s, r);
    }
  }

  lemma InTurnSubmit(s: Sys, c: nat)
    requires Inv(s) && InTurn(s) && c < |s.calls| && s.calls[c].Submitting?
    ensures InTurn(DoSubmit(s, c))
  {
    var r := DoSubmit(s, c);
    var t := Task(|s.accepted|, s.calls[c].owner, s.calls[c].due);
    if r.accepted == s.accepted {
      InTurnStill(s, r);
    } else {
      forall u
        ensures u in r.port.tasks <==> u in s.port.tasks || u == t
      {
        InsertMember(s.port.tasks, t, u);
      }
      assert forall i :: 0 <= i < |s.ran| ==> (Undelayed(r, s.ran[i]) <==> Undelayed(s, s.ran[i]));
      assert forall d :: 0 <= d < |r.calls| && r.calls[d].Executing? ==> d < |s.calls| && r.calls[d] == s.calls[d];
      forall d, x | 0 <= d < |r.calls| && r.calls[d].Executing? && x in r.calls[d].todo
        ensures HeldInTurn(r, x)
      {
        assert HeldInTurn(s, x);
      }
    }
  }

  lemma InTurnQuiet(s: Sys, step: Step)
    requires InTurn(s) && Enabled(s, step)
    requires step.Unpark? || step.CallbackReturns? || step.ReadPortFlag? || step.LeaveCancelling? || step.TestInFlight?
    ensures InTurn(Apply(s, step))
  {
    InTurnStill(s, Apply(s, step));
  }

  lemma InTurnEntry(s: Sys, step: Step)
    requires InTurn(s) && Enabled(s, step)
    requires step.Tick? || step.AddContext? || step.BeginSubmit? || step.BeginTerminate?
    ensures InTurn(Apply(s, step))
  {
    InTurnStill(s, Apply(s, step));
  }

  lemma InTurnNotify(s: Sys, step: Step)
    requires InTurn(s) && Enabled(s, step)
    requires step.NotifyReady? || step.NotifyDrained? || step.Finish? || step.DrainRest?
    ensures InTurn(Apply(s, step))
  {
    InTurnStill(s, Apply(s, step));
  }

  lemma InTurnTerminate(s: Sys, c: nat)
    requires InTurn(s) && c < |s.calls| && s.calls[c].Terminating? && s.calls[c].owner < |s.contexts|
    ensures InTurn(DoTerminate(s, c))
  {
    FilterSplits(s.port.tasks, s.calls[c].owner);
    InTurnStill(s, DoTerminate(s, c));
  }

  lemma InTurnStep(s: Sys, step: Step)
    requires Inv(s) && InTurn(s) && Enabled(s, step) && !step.BeginDispatch?
    ensures InTurn(Apply(s, step))
  {
    if step.TryTake? {
      InTurnTake(s, step.c, step.n1, step.n2);
    } else if step.Invoke? {
      InTurnInvoke(s, step.c);
    } else if step.Submit? {
      InTurnSubmit(s, step.c);
    } else if step.Terminate? {
      InTurnTerminate(s, step.c);
    } else if step.Drain? {
      NoSnapshots(s, step.c);
    } else if step.Tick? || step.AddContext? || step.BeginSubmit? || step.BeginTerminate? {
      InTurnEntry(s, step);
    } else if step.NotifyReady? || step.NotifyDrained? || step.Finish? || step.DrainRest? {
      InTurnNotify(s, step);
    } else {
      InTurnQuiet(s, step);
    }
  }

  lemma {:induction false} InTurnRun(s: Sys, steps: seq<Step>)
    requires Inv(s) && InTurn(s) && IsRun(s, steps) && NobodyDispatches(steps)
    ensures InTurn(After(s, steps))
    decreases |steps|
  {
    if steps != [] {
      assert !steps[0].BeginDispatch?;
      StepKeepsInv(s, steps[0]);
      InTurnStep(s, steps[0]);
      InTurnRun(Apply(s, steps[0]), steps[1..]);
    }
  }

  // At most one callback is being run, whatever a terminating thread is invoking as
  // cancelled meanwhile, and undelayed callbacks start in the order in which they were
  // accepted.
  lemma SerializedRunsInOrder(parallelism: Option<nat>, now: int, steps: seq<Step>, s: Sys)
    requires IsRun(Initial(SerializedThreadPool, parallelism, now), steps) && NobodyDispatches(steps)
    requires s == After(Initial(SerializedThreadPool, parallelism, now), steps)
    ensures forall c, d :: 0 <= c < d < |s.calls| ==> !(s.calls[c].Executing? && s.calls[d].Executing?)
    ensures forall i, j :: 0 <= i < j < |s.ran| && Undelayed(s, s.ran[i]) && Undelayed(s, s.ran[j]) ==>
              s.ran[i] < s.ran[j]
    ensures forall i, t :: 0 <= i < |s.ran| && Undelayed(s, s.ran[i]) && t in s.port.tasks && t.due.None? ==>
              s.ran[i] < t.id
  {
    InitialInv(SerializedThreadPool, parallelism, now);
    RunKeepsInv(Initial(SerializedThreadPool, parallelism, now), steps);
    InTurnRun(Initial(SerializedThreadPool, parallelism, now), steps);
    forall c, d | 0 <= c < d < |s.calls|
      ensures !(s.calls[c].Executing? && s.calls[d].Executing?)
    {
      if s.calls[c].Executing? && s.calls[d].Executing? {
        OneExecutes(s, c, d);
      }
    }
  }

  // What is queued does not precede the head of the queue.
  lemma NothingBeforeTheHead(s: Sys, u: Task)
    requires Inv(s) && u in s.accepted && Occurs(s.port.tasks, u.id) > 0
    ensures s.port.tasks != [] && !Before(u, s.port.tasks[0])
  {
    var q := s.port.tasks;
    OccursExactly(q, u.id);
    var i :| 0 <= i < |q| && q[i].id == u.id;
    assert q[i] in q && q[i] == u;
    assert i == 0 || Before(q[0], q[i]);
  }

  // The one worker of a port nobody dispatches takes callbacks in queue order, delayed ones
  // included: when it takes one, every accepted callback that precedes it in that order has
  // been started already, or a termination has cancelled it or is about to.
  lemma StartsInQueueOrder(
    parallelism: Option<nat>, now: int, steps: seq<Step>, s: Sys, c: nat, n1: int, n2: int, u: Task)
    requires IsRun(Initial(SerializedThreadPool, parallelism, now), steps) && NobodyDispatches(steps)
    requires s == After(Initial(SerializedThreadPool, parallelism, now), steps)
    requires Enabled(s, TryTake(c, n1, n2)) && DoTryTake(s, c, n1, n2).port.tasks != s.port.tasks
    requires u in s.accepted && s.port.tasks != [] && Before(u, s.port.tasks[0])
    ensures || u.id in s.ran || u.id in s.cancelled
            || exists d :: 0 <= d < |s.calls| && s.calls[d].Cancelling? && Holds(s.calls[d], u.id)
  {
    InitialInv(SerializedThreadPool, parallelism, now);
    RunKeepsInv(Initial(SerializedThreadPool, parallelism, now), steps);
    InTurnRun(Initial(SerializedThreadPool, parallelism, now), steps);
    PrecedingStarted(s, c, u);
  }

  // The same of any state in which the one worker looks.
  lemma PrecedingStarted(s: Sys, c: nat, u: Task)
    requires Inv(s) && InTurn(s) && c < |s.calls| && s.calls[c].Seeking?
    requires u in s.accepted && s.port.tasks != [] && Before(u, s.port.tasks[0])
    ensures || u.id in s.ran || u.id in s.cancelled
            || exists d :: 0 <= d < |s.calls| && s.calls[d].Cancelling? && Holds(s.calls[d], u.id)
  {
    if Occurs(s.port.tasks, u.id) > 0 {
      NothingBeforeTheHead(s, u);
    }
    assert u.id < |s.accepted| && Places(s, u.id) == Once(u.id < |s.accepted|);
    if Total(s.calls, u.id).held > 0 {
      HeldBySomebody(s.calls, u.id);
      var d :| 0 <= d < |s.calls| && Holds(s.calls[d], u.id);
      NoneExecutesWhileSeeking(s, c, d);
      assert CallOk(s, s.calls[d]);
    } else {
      CountedIsPresent(s.ran, u.id);
      CountedIsPresent(s.cancelled, u.id);
    }
  }

  lemma {:induction false} CountedIsPresent(ids: seq<nat>, id: nat)
    ensures Count(ids, id) > 0 ==> id in ids
  {
    if ids != [] {
      CountedIsPresent(ids[..|ids| - 1], id);
    }
  }
}
