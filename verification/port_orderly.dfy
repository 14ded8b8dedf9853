// Termination that waits. A submit reads its context's flag before it takes the port's
// lock, so a submit that overlaps the termination of its own context can still slip in
// afterwards, unless the port has ended with the context. Here is exactly when a context
// that has ended is rid of its callbacks for good, and what runs bring that about.

module PortOrderly {
  import opened Basics
  import opened TaskOrder
  import opened PortSections
  import opened PortSystem
  import opened Ledger
  import opened PortLedger
  import opened PortInvariant
  import opened PortPreservation
  import opened PortRuns

  // No submit through `owner` has passed its flag test without having taken the lock.
  ghost predicate NoSubmitUnderWay(s: Sys, owner: nat) {
    forall i :: 0 <= i < |s.calls| && s.calls[i].Submitting? && s.calls[i].owner == owner ==> s.calls[i].ownerTerminated
  }

  // What still is under way is harmless: refused by its flag, or by the port's.
  ghost predicate Harmless(s: Sys, owner: nat) {
    s.port.terminated || NoSubmitUnderWay(s, owner)
  }

  // The owner's context is terminated when no submit through it is under way, or the port
  // ends by it.
  ghost predicate OrderlyStep(s: Sys, step: Step, owner: nat)
    requires Enabled(s, step)
  {
    step.Terminate? && s.calls[step.c].owner == owner ==> Harmless(Apply(s, step), owner)
  }

  ghost predicate OrderlyRun(s: Sys, steps: seq<Step>, owner: nat)
    requires IsRun(s, steps)
    decreases |steps|
  {
    steps == [] || (OrderlyStep(s, steps[0], owner) && OrderlyRun(Apply(s, steps[0]), steps[1..], owner))
  }

  predicate Ends(call: Call, owner: nat) {
    match call
    case Terminating(o, _) => o == owner
    case Cancelling(o, _, _, _, _, _) => o == owner
    case AwaitingDrain(o) => o == owner
    case ParkedDrained(o) => o == owner
    case _ => false
  }

  ghost predicate Avoids(q: seq<Task>, owner: nat) {
    forall i :: 0 <= i < |q| ==> q[i].owner != owner
  }

  // Somebody else's termination holds none of the owner's callbacks.
  ghost predicate LeavesAlone(call: Call, owner: nat) {
    call.Cancelling? && call.owner != owner ==>
      Avoids(call.todo, owner) && (call.running.Some? ==> call.running.value.owner != owner)
  }

  predicate HasEnded(s: Sys, owner: nat) {
    owner < |s.contexts| && s.contexts[owner].Ended?
  }

  // Once the context has ended, or the port has, nothing of it is queued or about to be;
  // only its own termination, of which there is one, holds callbacks of it to cancel.
  ghost predicate Settled(s: Sys, owner: nat) {
    && (HasEnded(s, owner) || s.port.terminated ==> Avoids(s.port.tasks, owner))
    && (HasEnded(s, owner) ==> Harmless(s, owner))
    && (forall i :: 0 <= i < |s.calls| ==> LeavesAlone(s.calls[i], owner))
    && (forall i, j :: 0 <= i < j < |s.calls| && Ends(s.calls[i], owner) ==> !Ends(s.calls[j], owner))
  }

  lemma SettledMove(s: Sys, r: Sys, c: nat, call: Call, owner: nat)
    requires Settled(s, owner) && c < |s.calls| && r.calls == s.calls[c := call] && r.contexts == s.contexts
    requires Avoids(s.port.tasks, owner) ==> Avoids(r.port.tasks, owner)
    requires r.port.terminated == s.port.terminated
    requires !call.Submitting? && LeavesAlone(call, owner)
    requires Ends(call, owner) ==> Ends(s.calls[c], owner)
    ensures Settled(r, owner)
  {
    forall i, j | 0 <= i < j < |r.calls| && Ends(r.calls[i], owner)
      ensures !Ends(r.calls[j], owner)
    {
      assert Ends(s.calls[i], owner);
      assert !Ends(s.calls[j], owner);
    }
  }

  lemma {:induction false} EndedAt(contexts: seq<ContextPhase>, k: nat)
    requires k < |contexts| && Unended(contexts) == 0
    ensures contexts[k].Ended?
    decreases |contexts|
  {
    if k < |contexts| - 1 {
      EndedAt(contexts[..|contexts| - 1], k);
    }
  }

  // What a termination leaves in the queue.
  lemma TerminateAvoids(s: Sys, c: nat, owner: nat)
    requires Inv(s) && Settled(s, owner)
    requires c < |s.calls| && s.calls[c].Terminating? && s.calls[c].owner < |s.contexts|
    ensures var r := DoTerminate(s, c);
            HasEnded(r, owner) || r.port.terminated ==> Avoids(r.port.tasks, owner)
    ensures s.calls[c].owner != owner ==> Avoids(DoTerminate(s, c).calls[c].todo, owner)
  {
    var r, ender := DoTerminate(s, c), s.calls[c].owner;
    assert CallOk(s, s.calls[c]);
    FilterSplits(s.port.tasks, ender);
    UnendedUpdate(s.contexts, ender, Ended);
    forall i | 0 <= i < |r.port.tasks| && (HasEnded(r, owner) || r.port.terminated)
      ensures r.port.tasks[i].owner != owner
    {
      var t := r.port.tasks[i];
      assert t in r.port.tasks;
      var k :| 0 <= k < |s.port.tasks| && s.port.tasks[k] == t;
      if ender != owner && !HasEnded(r, owner) && !s.port.terminated && owner < |r.contexts| {
        EndedAt(r.contexts, owner);
      }
    }
    forall i | 0 <= i < |r.calls[c].todo| && ender != owner
      ensures r.calls[c].todo[i].owner != owner
    {
      assert r.calls[c].todo[i] in r.calls[c].todo;
    }
  }

  lemma SettledTerminate(s: Sys, c: nat, owner: nat)
    requires Inv(s) && Settled(s, owner)
    requires c < |s.calls| && s.calls[c].Terminating? && s.calls[c].owner < |s.contexts|
    requires s.calls[c].owner == owner ==> Harmless(DoTerminate(s, c), owner)
    ensures Settled(DoTerminate(s, c), owner)
  {
    var r := DoTerminate(s, c);
    TerminateAvoids(s, c, owner);
    forall i, j | 0 <= i < j < |r.calls| && Ends(r.calls[i], owner)
      ensures !Ends(r.calls[j], owner)
    {
      assert Ends(s.calls[i], owner);
      assert !Ends(s.calls[j], owner);
    }
    assert forall i :: 0 <= i < |r.calls| && i != c ==> LeavesAlone(s.calls[i], owner);
  }

  lemma SettledSubmit(s: Sys, c: nat, owner: nat)
    requires Settled(s, owner) && c < |s.calls| && s.calls[c].Submitting?
    ensures Settled(DoSubmit(s, c), owner)
  {
    var r := DoSubmit(s, c);
    var t := Task(|s.accepted|, s.calls[c].owner, s.calls[c].due);
    assert HasEnded(s, owner) && t.owner == owner ==> s.port.terminated || s.calls[c].ownerTerminated;
    assert forall i :: 0 <= i < |s.calls| && i != c ==> r.calls[i] == s.calls[i];
    assert forall i :: 0 <= i < |r.calls| && (i == c || i >= |s.calls|) ==>
        !r.calls[i].Submitting? && !r.calls[i].Cancelling? && !Ends(r.calls[i], owner);
    forall i, j | 0 <= i < j < |r.calls| && Ends(r.calls[i], owner)
      ensures !Ends(r.calls[j], owner)
    {
      assert Ends(s.calls[i], owner);
      if j < |s.calls| && j != c { assert !Ends(s.calls[j], owner); }
    }
  }

  lemma SettledWake(m: Sys, r: Sys, owner: nat)
    requires Settled(m, owner) && r == m.(calls := r.calls)
    requires r.calls == WakeAllReady(m.calls) || r.calls == WakeAllDrained(m.calls)
    ensures Settled(r, owner)
  {
    forall i, j | 0 <= i < j < |r.calls| && Ends(r.calls[i], owner)
      ensures !Ends(r.calls[j], owner)
    {
      assert Ends(m.calls[i], owner);
      assert !Ends(m.calls[j], owner);
    }
    assert forall i :: 0 <= i < |m.calls| ==> LeavesAlone(m.calls[i], owner);
  }

  lemma SettledEntry(s: Sys, step: Step, owner: nat)
    requires Inv(s) && Settled(s, owner) && Enabled(s, step)
    requires step.BeginSubmit? || step.BeginDispatch? || step.BeginTerminate?
    ensures Settled(Apply(s, step), owner)
  {
    var r := Apply(s, step);
    var n := |s.calls|;
    assert forall i :: 0 <= i < n ==> r.calls[i] == s.calls[i];
    forall i, j | 0 <= i < j < |r.calls| && Ends(r.calls[i], owner)
      ensures !Ends(r.calls[j], owner)
    {
      assert CallOk(s, s.calls[i]);
      assert Ends(s.calls[i], owner);
      if j < n { assert !Ends(s.calls[j], owner); }
    }
  }

  lemma SettledQuiet(s: Sys, step: Step, owner: nat)
    requires Settled(s, owner) && Enabled(s, step)
    requires step.Unpark? || step.CallbackReturns? || step.ReadPortFlag? || step.LeaveCancelling? || step.TestInFlight?
    ensures Settled(Apply(s, step), owner)
  {
    assert LeavesAlone(s.calls[step.c], owner);
    SettledMove(s, Apply(s, step), step.c, Apply(s, step).calls[step.c], owner);
  }

  lemma SettledInvoke(s: Sys, c: nat, owner: nat)
    requires Settled(s, owner) && c < |s.calls| && CanInvoke(s.calls[c])
    ensures Settled(DoInvoke(s, c), owner)
  {
    assert LeavesAlone(s.calls[c], owner);
    SettledMove(s, DoInvoke(s, c), c, DoInvoke(s, c).calls[c], owner);
  }

  // What a termination drains when it ended the port is nobody's who has settled.
  lemma SettledDrainRest(s: Sys, c: nat, owner: nat)
    requires Inv(s) && Settled(s, owner) && c < |s.calls| && CanDrainRest(s.calls[c])
    ensures Settled(DoDrainRest(s, c), owner)
  {
    assert CallOk(s, s.calls[c]);
    SettledMove(s, DoDrainRest(s, c), c, DoDrainRest(s, c).calls[c], owner);
  }

  lemma SettledNotify(s: Sys, step: Step, owner: nat)
    requires Settled(s, owner) && Enabled(s, step) && (step.NotifyReady? || step.NotifyDrained?)
    ensures Settled(Apply(s, step), owner)
  {
    var c := step.c;
    var call := s.calls[c];
    assert LeavesAlone(call, owner);
    var after :=
      if step.NotifyReady? then (if call.NotifyingReady? then Returned else call.(notified := true))
      else if call.role.Worker? then Seeking(Worker) else Returned;
    SettledMove(s, With(s, c, after), c, after, owner);
    SettledWake(With(s, c, after), Apply(s, step), owner);
  }

  lemma SettledTake(s: Sys, step: Step, owner: nat)
    requires Settled(s, owner) && Enabled(s, step) && (step.TryTake? || step.Drain? || step.Finish?)
    ensures Settled(Apply(s, step), owner)
  {
    SettledMove(s, Apply(s, step), step.c, Apply(s, step).calls[step.c], owner);
  }

  lemma SettledStep(s: Sys, step: Step, owner: nat)
    requires Inv(s) && Settled(s, owner) && Enabled(s, step) && OrderlyStep(s, step, owner)
    ensures Settled(Apply(s, step), owner)
  {
    if step.Terminate? {
      SettledTerminate(s, step.c, owner);
    } else if step.Submit? {
      SettledSubmit(s, step.c, owner);
    } else if step.BeginSubmit? || step.BeginDispatch? || step.BeginTerminate? {
      SettledEntry(s, step, owner);
    } else if step.TryTake? || step.Drain? || step.Finish? {
      SettledTake(s, step, owner);
    } else if step.NotifyReady? || step.NotifyDrained? {
      SettledNotify(s, step, owner);
    } else if step.Invoke? {
      SettledInvoke(s, step.c, owner);
    } else if step.DrainRest? {
      SettledDrainRest(s, step.c, owner);
    } else if step.Tick? || step.AddContext? {
      assert forall i :: 0 <= i < |s.calls| ==> LeavesAlone(s.calls[i], owner);
    } else {
      SettledQuiet(s, step, owner);
    }
  }

  lemma {:induction false} OrderlyRunSettled(s: Sys, steps: seq<Step>, owner: nat)
    requires Inv(s) && Settled(s, owner) && IsRun(s, steps) && OrderlyRun(s, steps, owner)
    ensures Settled(After(s, steps), owner)
    decreases |steps|
  {
    if steps != [] {
      StepKeepsInv(s, steps[0]);
      SettledStep(s, steps[0], owner);
      OrderlyRunSettled(Apply(s, steps[0]), steps[1..], owner);
    }
  }

  // ---- out for good ------------------------------------------------------------------

  // No callback of the owner is in these hands.
  ghost predicate HandsAvoid(call: Call, owner: nat) {
    match call
    case Executing(_, todo, running, _, _) => Avoids(todo, owner) && (running.Some? ==> running.value.owner != owner)
    case Cancelling(_, _, _, todo, running, _) =>
      Avoids(todo, owner) && (running.Some? ==> running.value.owner != owner)
    case Sleeping(t) => t.owner != owner
    case Woken(t, _) => t.owner != owner
    case RunningDelayed(t) => t.owner != owner
    case _ => true
  }

  // No callback of the owner is queued, and none is in anybody's hands.
  ghost predicate Absent(s: Sys, owner: nat) {
    Avoids(s.port.tasks, owner) && forall i :: 0 <= i < |s.calls| ==> HandsAvoid(s.calls[i], owner)
  }

  ghost predicate AbsentForGood(s: Sys, owner: nat) {
    forall steps: seq<Step> :: IsRun(s, steps) ==> Absent(After(s, steps), owner)
  }

  ghost predicate Out(s: Sys, owner: nat) {
    HasEnded(s, owner) && Absent(s, owner) && Harmless(s, owner)
  }

  lemma OutMove(s: Sys, r: Sys, c: nat, call: Call, owner: nat)
    requires Out(s, owner) && c < |s.calls| && r.calls == s.calls[c := call] && r.contexts == s.contexts
    requires Avoids(r.port.tasks, owner) && r.port.terminated == s.port.terminated
    requires !call.Submitting? && HandsAvoid(call, owner)
    ensures Out(r, owner)
  {
  }

  lemma OutQuiet(s: Sys, step: Step, owner: nat)
    requires Out(s, owner) && Enabled(s, step)
    requires || step.Unpark? || step.CallbackReturns? || step.ReadPortFlag? || step.LeaveCancelling? ||
             step.TestInFlight?
             || step.Invoke? || step.DrainRest?
    ensures Out(Apply(s, step), owner)
  {
    assert HandsAvoid(s.calls[step.c], owner);
    OutMove(s, Apply(s, step), step.c, Apply(s, step).calls[step.c], owner);
  }

  lemma OutTake(s: Sys, step: Step, owner: nat)
    requires Out(s, owner) && Enabled(s, step) && (step.TryTake? || step.Drain? || step.Finish?)
    ensures Out(Apply(s, step), owner)
  {
    assert HandsAvoid(s.calls[step.c], owner);
    OutMove(s, Apply(s, step), step.c, Apply(s, step).calls[step.c], owner);
  }

  lemma OutNotify(s: Sys, step: Step, owner: nat)
    requires Out(s, owner) && Enabled(s, step) && (step.NotifyReady? || step.NotifyDrained?)
    ensures Out(Apply(s, step), owner)
  {
    var c := step.c;
    var call := s.calls[c];
    assert HandsAvoid(call, owner);
    var after :=
      if step.NotifyReady? then (if call.NotifyingReady? then Returned else call.(notified := true))
      else if call.role.Worker? then Seeking(Worker) else Returned;
    var m, r := With(s, c, after), Apply(s, step);
    OutMove(s, m, c, after, owner);
    assert r.calls == (if step.NotifyReady? then WakeAllReady(m.calls) else WakeAllDrained(m.calls));
    assert forall i :: 0 <= i < |m.calls| ==> HandsAvoid(m.calls[i], owner);
  }

  lemma OutSubmit(s: Sys, c: nat, owner: nat)
    requires Out(s, owner) && c < |s.calls| && s.calls[c].Submitting?
    ensures Out(DoSubmit(s, c), owner)
  {
    var r := DoSubmit(s, c);
    var t := Task(|s.accepted|, s.calls[c].owner, s.calls[c].due);
    assert t.owner == owner ==> s.port.terminated || s.calls[c].ownerTerminated;
    assert forall i :: 0 <= i < |s.calls| && i != c ==> r.calls[i] == s.calls[i];
    assert forall i :: 0 <= i < |r.calls| && (i == c || i >= |s.calls|) ==>
        !r.calls[i].Submitting? && HandsAvoid(r.calls[i], owner);
  }

  lemma OutTerminate(s: Sys, c: nat, owner: nat)
    requires Out(s, owner) && c < |s.calls| && s.calls[c].Terminating? && s.calls[c].owner < |s.contexts|
    ensures Out(DoTerminate(s, c), owner)
  {
    var r, ender := DoTerminate(s, c), s.calls[c].owner;
    FilterSplits(s.port.tasks, ender);
    forall i | 0 <= i < |r.port.tasks|
      ensures r.port.tasks[i].owner != owner
    {
      assert r.port.tasks[i] in s.port.tasks;
    }
    forall i | 0 <= i < |r.calls[c].todo|
      ensures r.calls[c].todo[i].owner != owner
    {
      assert r.calls[c].todo[i] in s.port.tasks;
    }
  }

  lemma OutEntry(s: Sys, step: Step, owner: nat)
    requires Out(s, owner) && Enabled(s, step)
    requires step.Tick? || step.AddContext? || step.BeginSubmit? || step.BeginDispatch? || step.BeginTerminate?
    ensures Out(Apply(s, step), owner)
  {
    var r := Apply(s, step);
    assert forall i :: 0 <= i < |s.calls| ==> r.calls[i] == s.calls[i];
  }

  lemma OutStep(s: Sys, step: Step, owner: nat)
    requires Out(s, owner) && Enabled(s, step)
    ensures Out(Apply(s, step), owner)
  {
    if step.Terminate? {
      OutTerminate(s, step.c, owner);
    } else if step.Submit? {
      OutSubmit(s, step.c, owner);
    } else if step.TryTake? || step.Drain? || step.Finish? {
      OutTake(s, step, owner);
    } else if step.NotifyReady? || step.NotifyDrained? {
      OutNotify(s, step, owner);
    } else if step.Tick? || step.AddContext? || step.BeginSubmit? || step.BeginDispatch? || step.BeginTerminate? {
      OutEntry(s, step, owner);
    } else {
      OutQuiet(s, step, owner);
    }
  }

  lemma {:induction false} OutForGood(s: Sys, steps: seq<Step>, owner: nat)
    requires Out(s, owner) && IsRun(s, steps)
    ensures Absent(After(s, steps), owner)
    decreases |steps|
  {
    if steps != [] {
      OutStep(s, steps[0], owner);
      OutForGood(Apply(s, steps[0]), steps[1..], owner);
    }
  }

  // A submit that has passed its flag test lands, unless the port has ended.
  lemma SubmitLands(s: Sys, d: nat, owner: nat)
    requires d < |s.calls| && s.calls[d].Submitting? && s.calls[d].owner == owner && !s.calls[d].ownerTerminated
    requires !s.port.terminated
    ensures !Absent(DoSubmit(s, d), owner)
  {
    var r, t := DoSubmit(s, d), Task(|s.accepted|, owner, s.calls[d].due);
    if r.port.tasks != s.port.tasks {
      var p := Position(s.port.tasks, t);
      assert r.port.tasks == Insert(s.port.tasks, t);
      assert r.port.tasks[p] == t;
    } else if s.mode.Immediate? && t.due.None? {
      assert r.calls[d].todo[0] == t;
    } else {
      assert r.calls[|s.calls|] == Sleeping(t) || |Insert(s.port.tasks, t)| == |s.port.tasks| + 1;
    }
  }

  // A context that has ended is rid of its callbacks for good, in every continuation, exactly
  // when none of them is queued or in anybody's hands now, and either the port has ended too
  // or no submit through the context has passed its flag test and not yet taken the lock.
  lemma EndedForGoodExactly(s: Sys, owner: nat)
    requires Reachable(s) && HasEnded(s, owner)
    ensures AbsentForGood(s, owner) <==> Absent(s, owner) && (s.port.terminated || NoSubmitUnderWay(s, owner))
  {
    if Absent(s, owner) && Harmless(s, owner) {
      forall steps: seq<Step> | IsRun(s, steps)
        ensures Absent(After(s, steps), owner)
      {
        OutForGood(s, steps, owner);
      }
    }
    if AbsentForGood(s, owner) {
      var none: seq<Step> := [];
      assert IsRun(s, none) && After(s, none) == s;
      if !Harmless(s, owner) {
        var d :| 0 <= d < |s.calls| && s.calls[d].Submitting? && s.calls[d].owner == owner &&
                 !s.calls[d].ownerTerminated;
        OneStep(s, Submit(d));
        SubmitLands(s, d, owner);
      }
    }
  }

  // `terminate(wait)` leaves its wait exactly when nothing is in flight. If, when its context
  // was terminated, no submit through it was under way or the port ended, no callback of the
  // context is then queued, held or running, nor will one ever be again. (Delayed callbacks
  // of an Immediate port are in nobody's count.)
  lemma WaitReturnsDrained(
    mode: Mode, parallelism: Option<nat>, now: int, steps: seq<Step>, s: Sys, c: nat, owner: nat)
    requires IsRun(Initial(mode, parallelism, now), steps) && s == After(Initial(mode, parallelism, now), steps)
    requires OrderlyRun(Initial(mode, parallelism, now), steps, owner)
    requires c < |s.calls| && s.calls[c] == AwaitingDrain(owner)
    ensures DoTestInFlight(s, c).calls[c].Returned? <==> s.port.inFlight == 0
    ensures s.port.inFlight == 0 ==>
              (Avoids(s.port.tasks, owner) && forall i :: 0 <= i < |s.calls| ==> !s.calls[i].Executing?)
    ensures s.port.inFlight == 0 && !s.mode.Immediate? ==> AbsentForGood(s, owner)
  {
    var s0 := Initial(mode, parallelism, now);
    InitialInv(mode, parallelism, now);
    RunKeepsInv(s0, steps);
    OrderlyRunSettled(s0, steps, owner);
    assert CallOk(s, s.calls[c]);
    forall i | 0 <= i < |s.calls| && s.port.inFlight == 0
      ensures !s.calls[i].Executing?
      ensures !s.mode.Immediate? ==> HandsAvoid(s.calls[i], owner)
    {
      assert CallOk(s, s.calls[i]) && LeavesAlone(s.calls[i], owner);
      SumBounds(Weights(s.calls, 0), i);
      if s.calls[i].Cancelling? && s.calls[i].owner == owner {
        assert Ends(s.calls[i], owner) && Ends(s.calls[c], owner);
      }
    }
    EndedForGoodExactly(s, owner);
  }

  // The excluded case happens: on a manual port with two contexts, a submit through context
  // 0 passes its flag test, `terminate(wait)` of context 0 comes to its wait, and the submit
  // is still to land.
  const EARLY := Submitting(0, false, None)

  function Overlap(phase: ContextPhase, active: nat, rest: seq<Call>): Sys {
    Initial(Manual, None, 0)
      .(contexts := [phase, Live], port := EMPTY_PORT.(activeContexts := active), calls := [EARLY] + rest)
  }

  function Contexts(n: nat): Sys {
    Initial(Manual, None, 0).(contexts := seq(n, _ => Live), port := EMPTY_PORT.(activeContexts := n))
  }

  lemma {:induction false} ContextsReachable(n: nat)
    ensures Reachable(Contexts(n))
  {
    if n == 0 {
      InitialReachable(Manual, None, 0);
      assert Contexts(0) == Initial(Manual, None, 0);
    } else {
      ContextsReachable(n - 1);
      ReachableStep(Contexts(n - 1), AddContext);
      assert Apply(Contexts(n - 1), AddContext).contexts == Contexts(n).contexts;
    }
  }

  lemma OverlapBegins()
    ensures Reachable(Overlap(Live, 2, []))
  {
    ContextsReachable(2);
    ReachableStep(Contexts(2), BeginSubmit(0, 0));
    assert Contexts(2).contexts == [Live, Live];
    assert Apply(Contexts(2), BeginSubmit(0, 0)) == Overlap(Live, 2, []);
  }

  lemma OverlapFlags()
    ensures Reachable(Overlap(Flagged, 2, [Terminating(0, true)]))
  {
    OverlapBegins();
    var s := Overlap(Live, 2, []);
    ReachableStep(s, BeginTerminate(0, true));
    assert s.contexts[0 := Flagged] == [Flagged, Live];
    assert Apply(s, BeginTerminate(0, true)) == Overlap(Flagged, 2, [Terminating(0, true)]);
  }

  lemma OverlapEnds()
    ensures Reachable(Overlap(Ended, 1, [Cancelling(0, true, false, [], None, false)]))
  {
    OverlapFlags();
    var s := Overlap(Flagged, 2, [Terminating(0, true)]);
    ReachableStep(s, Terminate(1));
    assert s.contexts[0 := Ended] == [Ended, Live];
    assert DoTerminate(s, 1) == Overlap(Ended, 1, [Cancelling(0, true, false, [], None, false)]);
  }

  lemma OverlapNotifies()
    ensures Reachable(Overlap(Ended, 1, [Cancelling(0, true, true, [], None, false)]))
  {
    OverlapEnds();
    var s := Overlap(Ended, 1, [Cancelling(0, true, false, [], None, false)]);
    ReachableStep(s, NotifyReady(1));
    assert DoNotifyReady(s, 1) == Overlap(Ended, 1, [Cancelling(0, true, true, [], None, false)]);
  }

  lemma OverlapWaits()
    ensures Reachable(Overlap(Ended, 1, [AwaitingDrain(0)]))
  {
    OverlapNotifies();
    var s := Overlap(Ended, 1, [Cancelling(0, true, true, [], None, false)]);
    ReachableStep(s, LeaveCancelling(1));
    assert DoLeaveCancelling(s, 1) == Overlap(Ended, 1, [AwaitingDrain(0)]);
  }

  // Then nothing is in flight and nothing of the context is there, but not for good.
  lemma SubmitCanSlipIn()
    ensures var s := Overlap(Ended, 1, [AwaitingDrain(0)]);
            && Reachable(s) && s.calls[1] == AwaitingDrain(0) && s.port.inFlight == 0
            && Absent(s, 0) && !AbsentForGood(s, 0)
  {
    var s := Overlap(Ended, 1, [AwaitingDrain(0)]);
    OverlapWaits();
    assert !NoSubmitUnderWay(s, 0) by {
      assert s.calls[0] == EARLY;
    }
    EndedForGoodExactly(s, 0);
  }
}
