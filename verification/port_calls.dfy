// What each call into a port promises whoever makes it, from the call's beginning to its
// return and through every run in between: a dispatch or a worker takes what is ready, a
// `terminate(wait)` waits, a submit is taken or refused.

module PortCalls {
  import opened Basics
  import opened TaskOrder
  import opened PortSections
  import opened PortSystem
  import opened Ledger
  import opened PortLedger
  import opened PortInvariant
  import opened PortRuns
  import opened PortTheorems
  import opened PortOrderly

  // ---- a step of a run ---------------------------------------------------------------

  // Step `k` of the run is `step`, taken in state `m`.
  ghost predicate StepAt(s: Sys, steps: seq<Step>, k: nat, step: Step, m: Sys) {
    && IsRun(s, steps) && k < |steps| && steps[k] == step
    && IsRun(s, steps[..k]) && After(s, steps[..k]) == m
  }

  lemma FirstStepAt(s: Sys, steps: seq<Step>)
    requires IsRun(s, steps) && steps != []
    ensures StepAt(s, steps, 0, steps[0], s)
  {
    assert steps[..0] == [];
  }

  lemma LaterStepAt(s: Sys, steps: seq<Step>, k: nat, step: Step, m: Sys)
    requires IsRun(s, steps) && steps != [] && StepAt(Apply(s, steps[0]), steps[1..], k, step, m)
    ensures StepAt(s, steps, k + 1, step, m)
  {
    assert steps[..k + 1][1..] == steps[1..][..k];
  }

  lemma EarlierStepAt(s: Sys, steps: seq<Step>, k: nat, step: Step, m: Sys)
    requires StepAt(s, steps, k, step, m) && k > 0
    ensures StepAt(Apply(s, steps[0]), steps[1..], k - 1, step, m)
  {
    assert steps[..k][1..] == steps[1..][..k - 1];
  }

  // ---- taking a callback -------------------------------------------------------------

  // Nothing queued is ready.
  ghost predicate NoneReady(s: Sys, now: int) {
    forall t :: t in s.port.tasks ==> !ReadyAt(t, now)
  }

  lemma HeadDecides(s: Sys, now: int)
    requires Inv(s)
    ensures NoneReady(s, now) <==> s.port.tasks == [] || !ReadyAt(s.port.tasks[0], now)
  {
    var q := s.port.tasks;
    if q != [] {
      HeadFirst(q);
      assert q[0] in q;
      forall t | t in q
        ensures t == q[0] || t in q[1..]
      {
      }
    }
  }

  predicate Looks(call: Call) {
    call.Seeking? || call.ParkedReady?
  }

  // The call has a callback in its hands.
  ghost predicate TookOne(call: Call, role: Role, t: Task) {
    call == Executing(role, [t], None, 1, !role.Dispatcher?)
  }

  // One look at the queue, on a live port: if anything queued is ready, the caller takes one
  // that is; otherwise it takes nothing.
  lemma TakesIfReady(s: Sys, c: nat, n1: int, n2: int, r: Sys)
    requires Reachable(s) && Enabled(s, TryTake(c, n1, n2)) && r == Apply(s, TryTake(c, n1, n2))
    requires !s.port.terminated && c < |r.calls|
    ensures && (!NoneReady(s, n1) ==>
                  && r.port.inFlight == s.port.inFlight + 1
                  && exists t :: t in s.port.tasks && ReadyAt(t, n1) && TookOne(r.calls[c], s.calls[c].role, t))
            && (NoneReady(s, n1) ==> r.port == s.port && !r.calls[c].Executing?)
  {
    ReachableInv(s);
    HeadDecides(s, n1);
    if !NoneReady(s, n1) {
      assert s.port.tasks[0] in s.port.tasks;
    }
  }

  // And if it takes nothing: a terminated port sends everybody away; only a dispatch whose
  // time is up leaves otherwise; whoever parks does so until its deadline or the first
  // callback comes due, whichever is earlier; whoever goes round again has seen something
  // come due in between.
  lemma TakesNothing(s: Sys, c: nat, n1: int, n2: int, role: Role, r: Sys)
    requires Reachable(s) && Enabled(s, TryTake(c, n1, n2)) && r == Apply(s, TryTake(c, n1, n2))
    requires s.calls[c] == Seeking(role) && c < |r.calls| && (s.port.terminated || NoneReady(s, n1))
    ensures && (r.calls[c].Returned? <==>
                  s.port.terminated || (role.Dispatcher? && role.deadline <= n2))
            && (r.calls[c].Returned? || (Looks(r.calls[c]) && r.calls[c].role == role))
            && (r.calls[c].ParkedReady? ==> EarliestBound(s, role, r.calls[c].until))
            && (r.calls[c].ParkedReady? && r.calls[c].until.Some? ==> n2 < r.calls[c].until.value)
            && (r.calls[c].Seeking? ==> !NoneReady(s, n2))
  {
    ReachableInv(s);
    HeadDecides(s, n1);
    HeadDecides(s, n2);
    if s.port.tasks != [] {
      HeadFirst(s.port.tasks);
      assert s.port.tasks[0] in s.port.tasks;
    }
  }

  // The bound is the deadline or a queued callback's, and no later than either.
  ghost predicate EarliestBound(s: Sys, role: Role, until: Option<int>) {
    && (role.Dispatcher? ==> until.Some? && until.value <= role.deadline)
    && (forall t :: t in s.port.tasks ==> DueBy(t, until))
    && (until.Some? ==>
          || (role.Dispatcher? && until.value == role.deadline)
          || exists t :: t in s.port.tasks && t.due == until)
  }

  // Somebody else's step leaves a call where it is, or wakes it.
  lemma OthersOnlyWake(s: Sys, step: Step, r: Sys, c: nat)
    requires Enabled(s, step) && r == Apply(s, step) && c < |s.calls|
    requires IsEntry(step) || step.c != c
    ensures c < |r.calls|
    ensures r.calls[c] == s.calls[c] || r.calls[c] == WakeReady(s.calls[c]) || r.calls[c] == WakeDrained(s.calls[c])
  {
    if step.Submit? {
      assert DoSubmit(s, step.c).calls[c] == s.calls[c];
    }
  }

  predicate StillLooking(s: Sys, c: nat, role: Role) {
    c < |s.calls| && Looks(s.calls[c]) && s.calls[c].role == role
  }

  // Somebody looking for a callback stops only at a look of its own.
  lemma LookingGoesOn(s: Sys, step: Step, r: Sys, c: nat, role: Role)
    requires Enabled(s, step) && r == Apply(s, step) && StillLooking(s, c, role)
    requires !(step.TryTake? && step.c == c)
    ensures StillLooking(r, c, role)
  {
    if IsEntry(step) || step.c != c {
      OthersOnlyWake(s, step, r, c);
    } else {
      assert step.Unpark?;
    }
  }

  // A dispatch that has stopped looking stopped at a look that took a ready callback, or at
  // one that found the port terminated, or nothing ready and its own time up; none of this is
  // so of a worker but for termination.
  ghost predicate StopsLooking(m: Sys, c: nat, n1: int, n2: int, role: Role) {
    && c < |m.calls| && m.calls[c] == Seeking(role)
    && var r := DoTryTake(m, c, n1, n2);
       || (!m.port.terminated && exists t :: t in m.port.tasks && ReadyAt(t, n1) && TookOne(r.calls[c], role, t))
       || (m.port.terminated && r.calls[c].Returned?)
       || (NoneReady(m, n1) && role.Dispatcher? && role.deadline <= n2 && r.calls[c].Returned?)
  }

  lemma LookKeepsRole(s: Sys, c: nat, n1: int, n2: int, r: Sys)
    requires c < |s.calls| && s.calls[c].Seeking? && r == DoTryTake(s, c, n1, n2) && Looks(r.calls[c])
    ensures r.calls[c].role == s.calls[c].role
  {
  }

  lemma LookStops(s: Sys, c: nat, n1: int, n2: int, role: Role, r: Sys)
    requires Reachable(s) && Enabled(s, TryTake(c, n1, n2)) && s.calls[c] == Seeking(role)
    requires r == DoTryTake(s, c, n1, n2) && !Looks(r.calls[c])
    ensures StopsLooking(s, c, n1, n2, role)
  {
    if s.port.terminated || NoneReady(s, n1) {
      TakesNothing(s, c, n1, n2, role, r);
    } else {
      TakesIfReady(s, c, n1, n2, r);
    }
  }

  lemma LookStep(s: Sys, step: Step, r: Sys, c: nat, role: Role)
    requires Reachable(s) && Enabled(s, step) && r == Apply(s, step) && StillLooking(s, c, role)
    ensures || StillLooking(r, c, role)
            || (step.TryTake? && step.c == c && StopsLooking(s, c, step.n1, step.n2, role))
  {
    if step.TryTake? && step.c == c {
      if Looks(r.calls[c]) {
        LookKeepsRole(s, c, step.n1, step.n2, r);
      } else {
        LookStops(s, c, step.n1, step.n2, role, r);
      }
    } else {
      LookingGoesOn(s, step, r, c, role);
    }
  }

  lemma {:induction false} LooksUntil(s: Sys, steps: seq<Step>, c: nat, role: Role)
    returns (k: nat, m: Sys, n1: int, n2: int)
    requires Reachable(s) && IsRun(s, steps) && StillLooking(s, c, role)
    ensures || StillLooking(After(s, steps), c, role)
            || (StepAt(s, steps, k, TryTake(c, n1, n2), m) && StopsLooking(m, c, n1, n2, role))
    decreases |steps|
  {
    k, m, n1, n2 := 0, s, 0, 0;
    if steps != [] {
      var r := Apply(s, steps[0]);
      LookStep(s, steps[0], r, c, role);
      if StillLooking(r, c, role) {
        ReachableStep(s, steps[0]);
        k, m, n1, n2 := LooksUntil(r, steps[1..], c, role);
        if !StillLooking(After(r, steps[1..]), c, role) {
          LaterStepAt(s, steps, k, TryTake(c, n1, n2), m);
          k := k + 1;
        }
      } else {
        n1, n2 := steps[0].n1, steps[0].n2;
        FirstStepAt(s, steps);
      }
    }
  }

  // `XTaskQueueDispatch` from its beginning: through every run it is either still looking,
  // with the deadline of its entry, or it has stopped in one of these ways.
  lemma DispatchStopsFor(s: Sys, timeout: nat, s0: Sys, steps: seq<Step>) returns (k: nat, m: Sys, n1: int, n2: int)
    requires Reachable(s) && s0 == Apply(s, BeginDispatch(timeout)) && IsRun(s0, steps)
    ensures var c, role := |s.calls|, Dispatcher(s.now + timeout);
            || StillLooking(After(s0, steps), c, role)
            || (StepAt(s0, steps, k, TryTake(c, n1, n2), m) && StopsLooking(m, c, n1, n2, role))
  {
    ReachableStep(s, BeginDispatch(timeout));
    k, m, n1, n2 := LooksUntil(s0, steps, |s.calls|, Dispatcher(s.now + timeout));
  }

  // ---- terminate(wait) ---------------------------------------------------------------

  // The call is a termination of `owner`'s context that is not through, and whether it is to
  // wait.
  predicate Terminates(call: Call, owner: nat, wait: bool) {
    match call
    case Terminating(o, w) => o == owner && w == wait
    case Cancelling(o, w, _, _, _, _) => o == owner && w == wait
    case AwaitingDrain(o) => o == owner && wait
    case ParkedDrained(o) => o == owner && wait
    case _ => false
  }

  // A termination keeps its word, step by step: one that is to wait returns only where
  // nothing is in flight; one that is not to wait never comes to a wait, and everything it
  // pulled out is invoked before it returns.
  lemma TerminationKeepsItsWord(s: Sys, step: Step, r: Sys, c: nat, owner: nat, wait: bool)
    requires Reachable(s) && Enabled(s, step) && r == Apply(s, step)
    requires c < |s.calls| && Terminates(s.calls[c], owner, wait)
    ensures c < |r.calls|
    ensures || Terminates(r.calls[c], owner, wait)
            || (r.calls[c].Returned? && (if wait then step == TestInFlight(c) && s.port.inFlight == 0
                                         else step == LeaveCancelling(c) && s.calls[c].todo == [] && !s.calls[c].rest))
  {
    if IsEntry(step) || step.c != c {
      OthersOnlyWake(s, step, r, c);
    } else {
      InFlightNeverUnderflows(s, c);
    }
  }

  lemma NobodyExecutes(s: Sys)
    requires Inv(s) && s.port.inFlight == 0
    ensures forall i :: 0 <= i < |s.calls| ==> !s.calls[i].Executing?
  {
    forall i | 0 <= i < |s.calls|
      ensures !s.calls[i].Executing?
    {
      assert CallOk(s, s.calls[i]);
      SumBounds(Weights(s.calls, 0), i);
    }
  }

  // A waiting termination that finds nothing in flight and nobody executing.
  ghost predicate DrainedAt(m: Sys, c: nat, owner: nat) {
    && c < |m.calls| && m.calls[c] == AwaitingDrain(owner)
    && m.port.inFlight == 0 && forall i :: 0 <= i < |m.calls| ==> !m.calls[i].Executing?
  }

  // So through every run: a `terminate(wait)` that has returned did so in a state with nothing
  // in flight.
  ghost predicate StillTerminating(s: Sys, c: nat, owner: nat) {
    c < |s.calls| && Terminates(s.calls[c], owner, true)
  }

  lemma StopsWaiting(s: Sys, step: Step, r: Sys, c: nat, owner: nat)
    requires Reachable(s) && Enabled(s, step) && r == Apply(s, step) && StillTerminating(s, c, owner)
    ensures || StillTerminating(r, c, owner)
            || (step == TestInFlight(c) && DrainedAt(s, c, owner))
  {
    TerminationKeepsItsWord(s, step, r, c, owner, true);
    if s.port.inFlight == 0 {
      ReachableInv(s);
      NobodyExecutes(s);
    }
  }

  lemma {:induction false} WaitsUntilDrained(s: Sys, steps: seq<Step>, c: nat, owner: nat) returns (k: nat, m: Sys)
    requires Reachable(s) && IsRun(s, steps) && StillTerminating(s, c, owner)
    ensures || StillTerminating(After(s, steps), c, owner)
            || (StepAt(s, steps, k, TestInFlight(c), m) && DrainedAt(m, c, owner))
    decreases |steps|
  {
    k, m := 0, s;
    if steps != [] {
      var r := Apply(s, steps[0]);
      StopsWaiting(s, steps[0], r, c, owner);
      if StillTerminating(r, c, owner) {
        ReachableStep(s, steps[0]);
        k, m := WaitsUntilDrained(r, steps[1..], c, owner);
        if !StillTerminating(After(r, steps[1..]), c, owner) {
          LaterStepAt(s, steps, k, TestInFlight(c), m);
          k := k + 1;
        }
      } else {
        FirstStepAt(s, steps);
      }
    }
  }

  lemma {:induction false} OrderlyPrefix(s: Sys, steps: seq<Step>, k: nat, owner: nat)
    requires IsRun(s, steps) && OrderlyRun(s, steps, owner) && k <= |steps| && IsRun(s, steps[..k])
    ensures OrderlyRun(s, steps[..k], owner)
    decreases |steps|
  {
    if k > 0 {
      assert steps[..k][1..] == steps[1..][..k - 1];
      OrderlyPrefix(Apply(s, steps[0]), steps[1..], k - 1, owner);
    }
  }

  // `terminate(wait)` from its beginning, as step `b` of a run: once it is through, the run
  // passed through a state, where it returned, with nothing in flight and nobody executing a
  // callback.
  lemma {:induction false} ReturnsDrained(s: Sys, steps: seq<Step>, b: nat, owner: nat, before: Sys)
    returns (k: nat, m: Sys)
    requires Reachable(s) && StepAt(s, steps, b, BeginTerminate(owner, true), before)
    requires !StillTerminating(After(s, steps), |before.calls|, owner)
    ensures b < k && StepAt(s, steps, k, TestInFlight(|before.calls|), m) && DrainedAt(m, |before.calls|, owner)
    decreases b
  {
    var r := Apply(s, steps[0]);
    ReachableStep(s, steps[0]);
    if b == 0 {
      assert steps[..0] == [];
      k, m := WaitsUntilDrained(r, steps[1..], |before.calls|, owner);
    } else {
      EarlierStepAt(s, steps, b, BeginTerminate(owner, true), before);
      k, m := ReturnsDrained(r, steps[1..], b - 1, owner, before);
    }
    LaterStepAt(s, steps, k, TestInFlight(|before.calls|), m);
    k := k + 1;
  }

  // And if, when the context was terminated, no submit through it was under way or the port
  // ended, no callback of the context was queued or held there, nor ever is again.
  lemma TerminateWaitDrains(
    mode: Mode, parallelism: Option<nat>, now: int, steps: seq<Step>, b: nat, owner: nat, before: Sys)
    returns (k: nat, m: Sys)
    requires StepAt(Initial(mode, parallelism, now), steps, b, BeginTerminate(owner, true), before)
    requires !StillTerminating(After(Initial(mode, parallelism, now), steps), |before.calls|, owner)
    ensures b < k && StepAt(Initial(mode, parallelism, now), steps, k, TestInFlight(|before.calls|), m)
    ensures DrainedAt(m, |before.calls|, owner)
    ensures OrderlyRun(Initial(mode, parallelism, now), steps, owner) ==>
              Avoids(m.port.tasks, owner) && (!mode.Immediate? ==> AbsentForGood(m, owner))
  {
    var s0 := Initial(mode, parallelism, now);
    InitialReachable(mode, parallelism, now);
    k, m := ReturnsDrained(s0, steps, b, owner, before);
    if OrderlyRun(s0, steps, owner) {
      OrderlyPrefix(s0, steps, k, owner);
      RunKeepsMode(s0, steps[..k]);
      WaitReturnsDrained(mode, parallelism, now, steps[..k], m, |before.calls|, owner);
    }
  }

  lemma {:induction false} RunKeepsMode(s: Sys, steps: seq<Step>)
    requires IsRun(s, steps)
    ensures After(s, steps).mode == s.mode && After(s, steps).parallelism == s.parallelism
    decreases |steps|
  {
    if steps != [] {
      var r := Apply(s, steps[0]);
      StepKeepsMode(s, steps[0], r);
      RunKeepsMode(r, steps[1..]);
    }
  }

  lemma StepKeepsMode(s: Sys, step: Step, r: Sys)
    requires Enabled(s, step) && r == Apply(s, step)
    ensures r.mode == s.mode && r.parallelism == s.parallelism
  {
  }

  // ---- nobody is stuck ---------------------------------------------------------------

  // The next step of a call, if it is not at its end.
  function NextStep(s: Sys, c: nat): Step
    requires c < |s.calls|
  {
    match s.calls[c]
    case Submitting(_, _, _) => Submit(c)
    case NotifyingReady => NotifyReady(c)
    case Seeking(_) => TryTake(c, s.now, s.now)
    case ParkedReady(_, _) => Unpark(c)
    case Executing(_, todo, running, _, drained) =>
      if running.Some? then CallbackReturns(c)
      else if todo != [] then Invoke(c)
      else if drained then Finish(c)
      else Drain(c)
    case NotifyingDrained(_) => NotifyDrained(c)
    case Sleeping(_) => ReadPortFlag(c)
    case Woken(_, _) => Invoke(c)
    case RunningDelayed(_) => CallbackReturns(c)
    case Terminating(_, _) => Terminate(c)
    case Cancelling(_, _, notified, todo, running, rest) =>
      if !notified then NotifyReady(c)
      else if running.Some? then CallbackReturns(c)
      else if todo != [] then Invoke(c)
      else if rest then DrainRest(c)
      else LeaveCancelling(c)
    case AwaitingDrain(_) => TestInFlight(c)
    case ParkedDrained(_) => Unpark(c)
    case Returned => Tick(0)
  }

  // Every call that has not returned can go on: at once, or, if it is a delayed callback's
  // thread, once the callback is due.
  lemma NobodyIsStuck(s: Sys, c: nat)
    requires Reachable(s) && c < |s.calls| && !s.calls[c].Returned?
    ensures !IsEntry(NextStep(s, c)) && NextStep(s, c).c == c
    ensures Enabled(s, NextStep(s, c)) || (s.calls[c].Sleeping? && !ReadyAt(s.calls[c].task, s.now))
  {
    if s.calls[c].Terminating? {
      ReachableInv(s);
      assert CallOk(s, s.calls[c]);
    }
  }

  // ---- when it last dispatched -------------------------------------------------------

  predicate Dated(s: Sys) {
    && (s.port.lastDispatch.Some? <==> s.port.dispatched > 0)
    && (s.port.lastDispatch.Some? ==> s.port.lastDispatch.value <= s.now)
  }

  lemma DatedStep(s: Sys, step: Step, r: Sys)
    requires Dated(s) && Enabled(s, step) && r == Apply(s, step)
    ensures Dated(r)
    ensures r.port.dispatched != s.port.dispatched ==> r.port.lastDispatch == Some(s.now)
  {
    if !step.Finish? {
      assert r.port.dispatched == s.port.dispatched;
    }
  }

  lemma {:induction false} DatedRun(s: Sys, steps: seq<Step>)
    requires Dated(s) && IsRun(s, steps)
    ensures Dated(After(s, steps))
    decreases |steps|
  {
    if steps != [] {
      var r := Apply(s, steps[0]);
      DatedStep(s, steps[0], r);
      DatedRun(r, steps[1..]);
    }
  }

  // The port knows when it last accounted for callbacks, exactly if it ever has.
  lemma LastDispatchIsDated(s: Sys, step: Step, r: Sys)
    requires Reachable(s) && Enabled(s, step) && r == Apply(s, step)
    ensures s.port.lastDispatch.Some? <==> s.port.dispatched > 0
    ensures r.port.dispatched != s.port.dispatched ==> r.port.lastDispatch == Some(s.now)
  {
    var mode, parallelism, now, steps :|
      IsRun(Initial(mode, parallelism, now), steps) && s == After(Initial(mode, parallelism, now), steps);
    DatedRun(Initial(mode, parallelism, now), steps);
    DatedStep(s, step, r);
  }
}
