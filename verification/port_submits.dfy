// What becomes of a submitted callback: whether it is taken, and that it is not run before its
// time. A delayed callback of an immediate port waits on a thread of its own.

module PortSubmits {
  import opened Basics
  import opened TaskOrder
  import opened PortSections
  import opened PortSystem
  import opened PortInvariant
  import opened PortRuns
  import opened PortCalls

  // ---- taken or refused --------------------------------------------------------------

  // The queue with the callback somewhere in it.
  ghost predicate QueuedIn(longer: seq<Task>, q: seq<Task>, t: Task) {
    exists p :: 0 <= p <= |q| && longer == q[..p] + [t] + q[p..]
  }

  // Where an accepted callback goes, by its port's mode: onto the queue in its place, to be
  // announced; or, on an immediate port, to this very call if it is not delayed, and to a
  // thread of its own if it is.
  ghost predicate TakenIn(s: Sys, r: Sys, c: nat, t: Task)
    requires c < |s.calls|
  {
    if !s.mode.Immediate? then
      QueuedIn(r.port.tasks, s.port.tasks, t) && Sorted(r.port.tasks)
      && c < |r.calls| && r.calls[c] == NotifyingReady
    else if t.due.None? then r.calls == s.calls[c := Executing(Inline, [t], None, 1, true)]
    else r.calls == s.calls[c := Returned] + [Sleeping(t)]
  }

  lemma SubmitIsQueued(s: Sys, c: nat, t: Task)
    requires Sorted(s.port.tasks) && c < |s.calls| && s.calls[c] == Submitting(t.owner, false, t.due)
    requires t.id == |s.accepted| && !s.port.terminated && !s.mode.Immediate?
    requires forall x :: x in s.port.tasks ==> x.id < t.id
    ensures TakenIn(s, DoSubmit(s, c), c, t)
  {
    var q := s.port.tasks;
    var p := Position(q, t);
    forall i | 0 <= i < |q|
      ensures q[i].id < t.id
    {
      assert q[i] in q;
    }
    InsertKeepsOrder(q, t);
    assert DoSubmit(s, c).port.tasks == q[..p] + [t] + q[p..];
  }

  lemma SubmitIsTaken(s: Sys, c: nat, t: Task)
    requires Reachable(s) && c < |s.calls| && s.calls[c] == Submitting(t.owner, false, t.due)
    requires t.id == |s.accepted| && !s.port.terminated
    ensures TakenIn(s, DoSubmit(s, c), c, t)
    ensures DoSubmit(s, c).accepted == s.accepted + [t]
  {
    if !s.mode.Immediate? {
      ReachableInv(s);
      SubmitIsQueued(s, c, t);
    }
  }

  // A submit is refused, changing nothing, exactly when the port has ended or its context's
  // flag was up; any other is taken, with its own owner and time.
  lemma SubmitIsTakenExactly(s: Sys, c: nat, owner: nat, flagged: bool, due: Option<int>, r: Sys)
    requires Reachable(s) && c < |s.calls| && s.calls[c] == Submitting(owner, flagged, due)
    requires r == Apply(s, Submit(c))
    ensures var t := Task(|s.accepted|, owner, due);
            if s.port.terminated || flagged then r == s.(calls := s.calls[c := Returned])
            else r.accepted == s.accepted + [t] && TakenIn(s, r, c, t)
  {
    if !s.port.terminated && !flagged {
      SubmitIsTaken(s, c, Task(|s.accepted|, owner, due));
    }
  }

  predicate IsAt(s: Sys, c: nat, call: Call) {
    c < |s.calls| && s.calls[c] == call
  }

  lemma SubmittingWaits(s: Sys, step: Step, r: Sys, c: nat, call: Call)
    requires Enabled(s, step) && r == Apply(s, step) && IsAt(s, c, call) && call.Submitting? && step != Submit(c)
    ensures IsAt(r, c, call)
  {
    if !IsEntry(step) {
      assert step.c != c;
    }
    OthersOnlyWake(s, step, r, c);
  }

  lemma {:induction false} SubmitsUntil(s: Sys, steps: seq<Step>, c: nat, call: Call) returns (k: nat, m: Sys)
    requires Reachable(s) && IsRun(s, steps) && IsAt(s, c, call) && call.Submitting?
    ensures || IsAt(After(s, steps), c, call)
            || (StepAt(s, steps, k, Submit(c), m) && Reachable(m) && IsAt(m, c, call))
    decreases |steps|
  {
    k, m := 0, s;
    if steps != [] {
      if steps[0] == Submit(c) {
        FirstStepAt(s, steps);
      } else {
        var r := Apply(s, steps[0]);
        SubmittingWaits(s, steps[0], r, c, call);
        ReachableStep(s, steps[0]);
        k, m := SubmitsUntil(r, steps[1..], c, call);
        if !IsAt(After(r, steps[1..]), c, call) {
          LaterStepAt(s, steps, k, Submit(c), m);
          k := k + 1;
        }
      }
    }
  }

  // A submit from its beginning: through every run it is still to take the lock, or it took it
  // in some state `m`, and the callback was accepted exactly if the context was live at the
  // beginning and the port at `m`; it then comes due as long after the beginning as asked for.
  lemma SubmitAnswersFor(s: Sys, owner: nat, delay: nat, s0: Sys, steps: seq<Step>) returns (k: nat, m: Sys)
    requires Reachable(s) && owner < |s.contexts| && s0 == Apply(s, BeginSubmit(owner, delay)) && IsRun(s0, steps)
    ensures var due := if delay == 0 then None else Some(s.now + delay);
            || IsAt(After(s0, steps), |s.calls|, Submitting(owner, !s.contexts[owner].Live?, due))
            || (&& StepAt(s0, steps, k, Submit(|s.calls|), m)
                && Answers(m, |s.calls|, owner, s.contexts[owner].Live?, due))
  {
    var c, due := |s.calls|, if delay == 0 then None else Some(s.now + delay);
    ReachableStep(s, BeginSubmit(owner, delay));
    k, m := SubmitsUntil(s0, steps, c, Submitting(owner, !s.contexts[owner].Live?, due));
    if !IsAt(After(s0, steps), c, Submitting(owner, !s.contexts[owner].Live?, due)) {
      SubmitIsTakenExactly(m, c, owner, !s.contexts[owner].Live?, due, Apply(m, Submit(c)));
    }
  }

  // Submit `c` takes the lock in state `m`, and accepts its callback exactly if the context was
  // live and the port is.
  predicate Answers(m: Sys, c: nat, owner: nat, live: bool, due: Option<int>) {
    && c < |m.calls| && m.calls[c].Submitting?
    && DoSubmit(m, c).accepted ==
         m.accepted + (if live && !m.port.terminated then [Task(|m.accepted|, owner, due)] else [])
  }

  lemma {:induction false} FlagStaysUp(s: Sys, steps: seq<Step>, owner: nat)
    requires IsRun(s, steps) && owner < |s.contexts| && !s.contexts[owner].Live?
    ensures owner < |After(s, steps).contexts| && !After(s, steps).contexts[owner].Live?
    decreases |steps|
  {
    if steps != [] {
      var r := Apply(s, steps[0]);
      FlagStep(s, steps[0], r, owner);
      FlagStaysUp(r, steps[1..], owner);
    }
  }

  lemma FlagStep(s: Sys, step: Step, r: Sys, owner: nat)
    requires Enabled(s, step) && r == Apply(s, step) && owner < |s.contexts| && !s.contexts[owner].Live?
    ensures owner < |r.contexts| && !r.contexts[owner].Live?
  {
  }

  // From the beginning of a termination on, however far it has got, a submit that begins
  // through its context is refused.
  lemma TerminatedContextTakesNothing(
    s: Sys, owner: nat, wait: bool, s1: Sys, between: seq<Step>, m: Sys, delay: nat, m1: Sys, after: seq<Step>)
    returns (k: nat, x: Sys)
    requires Reachable(s) && Enabled(s, BeginTerminate(owner, wait)) && s1 == Apply(s, BeginTerminate(owner, wait))
    requires IsRun(s1, between) && m == After(s1, between) && Reachable(m) && owner < |m.contexts|
    requires m1 == Apply(m, BeginSubmit(owner, delay)) && IsRun(m1, after)
    ensures || (|m.calls| < |After(m1, after).calls| && After(m1, after).calls[|m.calls|].Submitting?)
            || (&& StepAt(m1, after, k, Submit(|m.calls|), x)
                && |m.calls| < |x.calls| && x.calls[|m.calls|].Submitting?
                && DoSubmit(x, |m.calls|).accepted == x.accepted)
  {
    FlagStaysUp(s1, between, owner);
    k, x := SubmitAnswersFor(m, owner, delay, m1, after);
  }

  // ---- not before its time -----------------------------------------------------------

  predicate Accepted(s: Sys, t: Task) {
    t.id < |s.accepted| && s.accepted[t.id] == t
  }

  predicate AcceptedAndDue(s: Sys, t: Task) {
    Accepted(s, t) && ReadyAt(t, s.now)
  }

  // What is in hand to be run has been accepted and is due.
  ghost predicate InHandOnTime(s: Sys, call: Call) {
    match call
    case Executing(_, todo, _, _, _) => forall i :: 0 <= i < |todo| ==> AcceptedAndDue(s, todo[i])
    case Sleeping(t) => Accepted(s, t)
    case Woken(t, _) => AcceptedAndDue(s, t)
    case _ => true
  }

  predicate RanOnTime(s: Sys, id: nat) {
    id < |s.accepted| && ReadyAt(s.accepted[id], s.now)
  }

  ghost predicate OnTime(s: Sys) {
    && (forall i :: 0 <= i < |s.calls| ==> InHandOnTime(s, s.calls[i]))
    && (forall i :: 0 <= i < |s.ran| ==> RanOnTime(s, s.ran[i]))
  }

  ghost predicate Later(s: Sys, r: Sys) {
    s.now <= r.now && s.accepted <= r.accepted
  }

  lemma StillInHand(s: Sys, r: Sys, call: Call)
    requires InHandOnTime(s, call) && Later(s, r)
    ensures InHandOnTime(r, call)
  {
    if call.Executing? {
      forall i | 0 <= i < |call.todo|
        ensures AcceptedAndDue(r, call.todo[i])
      {
        assert AcceptedAndDue(s, call.todo[i]);
      }
    }
  }

  lemma StepGoesOn(s: Sys, step: Step, r: Sys)
    requires Enabled(s, step) && r == Apply(s, step)
    ensures Later(s, r) && |s.calls| <= |r.calls|
  {
  }

  lemma BystandersOnTime(s: Sys, step: Step, r: Sys, i: nat)
    requires OnTime(s) && Enabled(s, step) && r == Apply(s, step) && i < |s.calls|
    requires IsEntry(step) || step.c != i
    ensures i < |r.calls| && InHandOnTime(r, r.calls[i])
  {
    StepGoesOn(s, step, r);
    OthersOnlyWake(s, step, r, i);
    StillInHand(s, r, s.calls[i]);
    assert InHandOnTime(r, WakeReady(s.calls[i])) && InHandOnTime(r, WakeDrained(s.calls[i]));
  }

  // The one who takes a step has in hand what it had, or what was queued and ready, or what
  // was just accepted.
  lemma OwnOnTime(s: Sys, step: Step, r: Sys)
    requires OnTime(s) && Enabled(s, step) && r == Apply(s, step) && !IsEntry(step)
    requires !step.TryTake? && !step.Drain? && !step.Submit?
    ensures step.c < |r.calls| && InHandOnTime(r, r.calls[step.c])
  {
    assert InHandOnTime(s, s.calls[step.c]);
  }

  lemma TakenOnTime(s: Sys, c: nat, n1: int, n2: int, r: Sys)
    requires Ordered(s) && Enabled(s, TryTake(c, n1, n2)) && r == DoTryTake(s, c, n1, n2)
    ensures c < |r.calls| && InHandOnTime(r, r.calls[c])
  {
    if s.port.tasks != [] {
      assert s.port.tasks[0] in s.port.tasks;
    }
  }

  lemma DrainedOnTime(s: Sys, c: nat, r: Sys)
    requires Ordered(s) && c < |s.calls| && s.calls[c].Executing? && r == DoDrain(s, c)
    ensures c < |r.calls| && InHandOnTime(r, r.calls[c])
  {
    var n := ReadyCount(s.port.tasks, s.now);
    forall i | 0 <= i < n
      ensures AcceptedAndDue(s, s.port.tasks[..n][i])
    {
      assert s.port.tasks[i] in s.port.tasks;
    }
  }

  lemma SubmittedOnTime(s: Sys, c: nat, r: Sys, i: nat)
    requires OnTime(s) && c < |s.calls| && s.calls[c].Submitting? && r == DoSubmit(s, c)
    requires i < |r.calls| && (i == c || i >= |s.calls|)
    ensures InHandOnTime(r, r.calls[i])
  {
  }

  lemma MoverOnTime(s: Sys, step: Step, r: Sys)
    requires Ordered(s) && OnTime(s) && Enabled(s, step) && r == Apply(s, step) && !IsEntry(step) && !step.Submit?
    ensures step.c < |r.calls| && InHandOnTime(r, r.calls[step.c])
  {
    if step.TryTake? {
      TakenOnTime(s, step.c, step.n1, step.n2, r);
    } else if step.Drain? {
      DrainedOnTime(s, step.c, r);
    } else {
      OwnOnTime(s, step, r);
    }
  }

  lemma NewcomersOnTime(s: Sys, step: Step, r: Sys, i: nat)
    requires Enabled(s, step) && r == Apply(s, step) && IsEntry(step) && |s.calls| <= i < |r.calls|
    ensures InHandOnTime(r, r.calls[i])
  {
  }

  lemma NoNewcomers(s: Sys, step: Step, r: Sys)
    requires Enabled(s, step) && r == Apply(s, step) && !IsEntry(step) && !step.Submit?
    ensures |r.calls| == |s.calls|
  {
  }

  lemma CallsOnTime(s: Sys, step: Step, r: Sys, i: nat)
    requires Ordered(s) && OnTime(s) && Enabled(s, step) && r == Apply(s, step) && i < |r.calls|
    ensures InHandOnTime(r, r.calls[i])
  {
    if step.Submit? && (i == step.c || i >= |s.calls|) {
      SubmittedOnTime(s, step.c, r, i);
    } else if i < |s.calls| && (IsEntry(step) || step.c != i) {
      BystandersOnTime(s, step, r, i);
    } else if IsEntry(step) {
      NewcomersOnTime(s, step, r, i);
    } else {
      NoNewcomers(s, step, r);
      MoverOnTime(s, step, r);
    }
  }

  lemma LogOnTime(s: Sys, step: Step, r: Sys)
    requires OnTime(s) && Enabled(s, step) && r == Apply(s, step)
    ensures forall i :: 0 <= i < |r.ran| ==> RanOnTime(r, r.ran[i])
  {
    StepGoesOn(s, step, r);
    if step.Invoke? {
      assert InHandOnTime(s, s.calls[step.c]);
    }
    forall i | 0 <= i < |r.ran|
      ensures RanOnTime(r, r.ran[i])
    {
      if i < |s.ran| {
        assert r.ran[i] == s.ran[i] && RanOnTime(s, s.ran[i]);
      }
    }
  }

  lemma StepOnTime(s: Sys, step: Step, r: Sys)
    requires Ordered(s) && OnTime(s) && Enabled(s, step) && r == Apply(s, step)
    ensures OnTime(r)
  {
    forall i | 0 <= i < |r.calls|
      ensures InHandOnTime(r, r.calls[i])
    {
      CallsOnTime(s, step, r, i);
    }
    LogOnTime(s, step, r);
  }

  lemma {:induction false} RunOnTime(s: Sys, steps: seq<Step>)
    requires Reachable(s) && OnTime(s) && IsRun(s, steps)
    ensures OnTime(After(s, steps))
    decreases |steps|
  {
    if steps != [] {
      var r := Apply(s, steps[0]);
      ReachableInv(s);
      StepOnTime(s, steps[0], r);
      ReachableStep(s, steps[0]);
      RunOnTime(r, steps[1..]);
    }
  }

  // No callback is run, other than to be cancelled, before it comes due.
  lemma NotBeforeItsTime(s: Sys, i: nat)
    requires Reachable(s) && i < |s.ran|
    ensures s.ran[i] < |s.accepted| && s.accepted[s.ran[i]].id == s.ran[i]
    ensures var t := s.accepted[s.ran[i]]; t.due.Some? ==> t.due.value <= s.now
  {
    var mode, parallelism, now, steps :|
      IsRun(Initial(mode, parallelism, now), steps) && s == After(Initial(mode, parallelism, now), steps);
    InitialReachable(mode, parallelism, now);
    RunOnTime(Initial(mode, parallelism, now), steps);
    assert RanOnTime(s, s.ran[i]);
    ReachableInv(s);
  }

  // ---- delayed callbacks of an immediate port ----------------------------------------

  predicate Logged(s: Sys, id: nat, canceled: bool) {
    id in (if canceled then s.cancelled else s.ran)
  }

  lemma LogsGrow(s: Sys, step: Step, r: Sys, id: nat, canceled: bool)
    requires Enabled(s, step) && r == Apply(s, step) && Logged(s, id, canceled)
    ensures Logged(r, id, canceled)
  {
    assert s.ran <= r.ran && s.cancelled <= r.cancelled;
  }

  predicate WokenOrLogged(s: Sys, c: nat, t: Task, canceled: bool) {
    IsAt(s, c, Woken(t, canceled)) || Logged(s, t.id, canceled)
  }

  lemma WokenIsLogged(s: Sys, c: nat, t: Task, canceled: bool, r: Sys)
    requires IsAt(s, c, Woken(t, canceled)) && r == DoInvoke(s, c)
    ensures Logged(r, t.id, canceled)
  {
    assert (if canceled then r.cancelled else r.ran) == (if canceled then s.cancelled else s.ran) + [t.id];
  }

  lemma WokenStep(s: Sys, step: Step, r: Sys, c: nat, t: Task, canceled: bool)
    requires Enabled(s, step) && r == Apply(s, step) && WokenOrLogged(s, c, t, canceled)
    ensures WokenOrLogged(r, c, t, canceled)
  {
    if Logged(s, t.id, canceled) {
      LogsGrow(s, step, r, t.id, canceled);
    } else if step != Invoke(c) {
      if !IsEntry(step) {
        assert step.c != c;
      }
      OthersOnlyWake(s, step, r, c);
    } else {
      WokenIsLogged(s, c, t, canceled, r);
    }
  }

  lemma {:induction false} WokenRun(s: Sys, steps: seq<Step>, c: nat, t: Task, canceled: bool)
    requires IsRun(s, steps) && WokenOrLogged(s, c, t, canceled)
    ensures WokenOrLogged(After(s, steps), c, t, canceled)
    decreases |steps|
  {
    if steps != [] {
      var r := Apply(s, steps[0]);
      WokenStep(s, steps[0], r, c, t, canceled);
      WokenRun(r, steps[1..], c, t, canceled);
    }
  }

  lemma SleepsOn(s: Sys, step: Step, r: Sys, c: nat, t: Task)
    requires Enabled(s, step) && r == Apply(s, step) && IsAt(s, c, Sleeping(t))
    ensures if step == ReadPortFlag(c) then ReadyAt(t, s.now) && IsAt(r, c, Woken(t, s.port.terminated))
            else IsAt(r, c, Sleeping(t))
  {
    if step != ReadPortFlag(c) {
      if !IsEntry(step) {
        assert step.c != c;
      }
      OthersOnlyWake(s, step, r, c);
    }
  }

  // A delayed callback sleeps until it is due, reads whether the port has ended, and is then
  // invoked, as cancelled exactly if it had.
  lemma {:induction false} SleeperIsInvoked(s: Sys, steps: seq<Step>, c: nat, t: Task) returns (k: nat, m: Sys)
    requires IsRun(s, steps) && IsAt(s, c, Sleeping(t))
    ensures || IsAt(After(s, steps), c, Sleeping(t))
            || (&& StepAt(s, steps, k, ReadPortFlag(c), m) && ReadyAt(t, m.now)
                && WokenOrLogged(After(s, steps), c, t, m.port.terminated))
    decreases |steps|
  {
    k, m := 0, s;
    if steps != [] {
      var r := Apply(s, steps[0]);
      SleepsOn(s, steps[0], r, c, t);
      if steps[0] == ReadPortFlag(c) {
        FirstStepAt(s, steps);
        WokenRun(r, steps[1..], c, t, s.port.terminated);
      } else {
        k, m := SleeperIsInvoked(r, steps[1..], c, t);
        if !IsAt(After(r, steps[1..]), c, Sleeping(t)) {
          LaterStepAt(s, steps, k, ReadPortFlag(c), m);
          k := k + 1;
        }
      }
    }
  }
}
