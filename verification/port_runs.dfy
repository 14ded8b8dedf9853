// The remaining steps (submission, notification, termination) and the induction over runs.

module PortRuns {
  import opened Basics
  import opened TaskOrder
  import opened PortSections
  import opened PortSystem
  import opened PortLedger
  import opened PortInvariant
  import opened PortPreservation

  // ---- submit ------------------------------------------------------------------------

  lemma OrderedAccept(s: Sys, r: Sys, t: Task)
    requires Ordered(s) && t.id == |s.accepted| && t.owner < |s.contexts|
    requires r.accepted == s.accepted + [t] && r.contexts == s.contexts
    requires r.port.tasks == s.port.tasks || r.port.tasks == Insert(s.port.tasks, t)
    ensures Ordered(r)
  {
    var q := s.port.tasks;
    forall i | 0 <= i < |q|
      ensures q[i].id < t.id
    {
      assert q[i] in q;
    }
    InsertKeepsOrder(q, t);
    forall x | x in r.port.tasks
      ensures x.id < |r.accepted| && r.accepted[x.id] == x
    {
      if x != t {
        InsertMember(q, t, x);
        assert x in q;
      }
    }
  }

  lemma InsertMember(q: seq<Task>, t: Task, x: Task)
    ensures x in Insert(q, t) <==> x in q || x == t
  {
    var p := Position(q, t);
    assert q == q[..p] + q[p..];
  }

  lemma SubmitRefused(s: Sys, c: nat)
    requires Inv(s) && c < |s.calls| && s.calls[c].Submitting?
    requires s.port.terminated || s.calls[c].ownerTerminated
    ensures Inv(DoSubmit(s, c))
  {
    assert CallOk(s, s.calls[c]);
    QuietMove(s, DoSubmit(s, c), c, Returned);
  }

  lemma SubmitInline(s: Sys, c: nat)
    requires Inv(s) && c < |s.calls| && s.calls[c].Submitting?
    requires !s.port.terminated && !s.calls[c].ownerTerminated && s.mode.Immediate? && s.calls[c].due.None?
    ensures Inv(DoSubmit(s, c))
  {
    var r := DoSubmit(s, c);
    var t := Task(|s.accepted|, s.calls[c].owner, s.calls[c].due);
    var call := r.calls[c];
    assert CallOk(s, s.calls[c]);
    assert Moves(s, r, c, call);
    forall id: nat
      ensures PlacesBalance(s, r, id, InHand(s.calls[c], id), InHand(call, id))
    {
      OccursOne(t, id);
    }
    PlacedMove(s, r, c, call);
    CountedMove(s, r, c, call);
    CallsOkMove(s, r, c, call);
    AwakeMove(s, r, c, call);
    ScopedMove(s, r, c, call);
    OrderedAccept(s, r, t);
  }

  lemma DelayedLedger(m: Sys, r: Sys, t: Task)
    requires Placed(m) && Counted(m) && t.id == |m.accepted| && m.mode.Immediate?
    requires r == m.(calls := m.calls + [Sleeping(t)], accepted := m.accepted + [t])
    ensures Placed(r) && Counted(r)
  {
    forall id: nat
      ensures PlacesBalance(m, r, id, 0, Total([Sleeping(t)], id).held)
    {
      TotalSingle(Sleeping(t), id);
    }
    PlacedJoin(m, r, [Sleeping(t)]);
    TotalAppend(m.calls, [Sleeping(t)], 0);
    TotalSingle(Sleeping(t), 0);
  }

  lemma SubmitDelayedInline(s: Sys, c: nat)
    requires Inv(s) && c < |s.calls| && s.calls[c].Submitting?
    requires !s.port.terminated && !s.calls[c].ownerTerminated && s.mode.Immediate? && s.calls[c].due.Some?
    ensures Inv(DoSubmit(s, c))
  {
    var r := DoSubmit(s, c);
    var t := Task(|s.accepted|, s.calls[c].owner, s.calls[c].due);
    var m := With(s, c, Returned);
    assert CallOk(s, s.calls[c]);
    QuietMove(s, m, c, Returned);
    DelayedLedger(m, r, t);
    JoinOthers(m, r, [Sleeping(t)]);
    OrderedAccept(m, r, t);
  }

  lemma JoinOthers(m: Sys, r: Sys, more: seq<Call>)
    requires CallsOk(m) && Awake(m) && Scoped(m) && Joins(m, r, more)
    requires r.port == m.port && r.contexts == m.contexts
    requires forall k :: 0 <= k < |more| ==>
               CallOk(m, more[k]) && (more[k].Sleeping? || more[k] == Seeking(Worker))
    ensures CallsOk(r) && Awake(r) && Scoped(r)
  {
    NoticesJoin(m, r, more);
    forall i | 0 <= i < |r.calls|
      ensures CallOk(r, r.calls[i])
    {
      assert r.calls[i] == if i < |m.calls| then m.calls[i] else more[i - |m.calls|];
      assert i < |m.calls| ==> CallOk(m, m.calls[i]);
    }
  }

  // A queued callback and the workers started for it, in two moves.
  lemma SubmitQueued(s: Sys, c: nat)
    requires Inv(s) && c < |s.calls| && s.calls[c].Submitting?
    requires !s.port.terminated && !s.calls[c].ownerTerminated && !s.mode.Immediate?
    ensures Inv(DoSubmit(s, c))
  {
    var r := DoSubmit(s, c);
    var t := Task(|s.accepted|, s.calls[c].owner, s.calls[c].due);
    var m := r.(calls := s.calls[c := NotifyingReady]);
    var more := Workers(if s.port.workersStarted then 0 else WorkersFor(s.mode, s.parallelism));
    assert CallOk(s, s.calls[c]);
    assert Moves(s, m, c, NotifyingReady);
    QueuedPlaced(s, m, c, t);
    CallsOkMove(s, m, c, NotifyingReady);
    AwakeMove(s, m, c, NotifyingReady);
    ScopedMove(s, m, c, NotifyingReady);
    OrderedAccept(s, m, t);
    QueuedCounted(s, c);
    assert Joins(m, r, more);
    forall id: nat
      ensures PlacesBalance(m, r, id, 0, Total(more, id).held)
    {
      TotalWorkers(|more|, id);
    }
    PlacedJoin(m, r, more);
    JoinOthers(m, r, more);
    assert Ordered(r);
  }

  lemma QueuedPlaced(s: Sys, m: Sys, c: nat, t: Task)
    requires Placed(s) && Moves(s, m, c, NotifyingReady) && s.calls[c].Submitting?
    requires t.id == |s.accepted| && m.accepted == s.accepted + [t]
    requires m.port.tasks == Insert(s.port.tasks, t) && m.ran == s.ran && m.cancelled == s.cancelled
    ensures Placed(m)
  {
    forall id: nat
      ensures PlacesBalance(s, m, id, InHand(s.calls[c], id), InHand(NotifyingReady, id))
    {
      OccursInsert(s.port.tasks, t, id);
    }
    PlacedMove(s, m, c, NotifyingReady);
  }

  lemma QueuedCounted(s: Sys, c: nat)
    requires Counted(s) && c < |s.calls| && s.calls[c].Submitting?
    requires !s.port.terminated && !s.calls[c].ownerTerminated && !s.mode.Immediate?
    ensures Counted(DoSubmit(s, c))
  {
    var r := DoSubmit(s, c);
    var n := if s.port.workersStarted then 0 else WorkersFor(s.mode, s.parallelism);
    var moved := s.calls[c := NotifyingReady];
    TotalUpdate(s.calls, c, NotifyingReady, 0);
    TotalAppend(moved, Workers(n), 0);
    TotalWorkers(n, 0);
    assert r.calls == moved + Workers(n);
  }

  lemma SubmitKept(s: Sys, c: nat)
    requires Inv(s) && c < |s.calls| && s.calls[c].Submitting?
    ensures Inv(DoSubmit(s, c))
  {
    var call := s.calls[c];
    if s.port.terminated || call.ownerTerminated {
      SubmitRefused(s, c);
    } else if !s.mode.Immediate? {
      SubmitQueued(s, c);
    } else if call.due.None? {
      SubmitInline(s, c);
    } else {
      SubmitDelayedInline(s, c);
    }
  }

  // ---- notification ------------------------------------------------------------------

  // Waking waiters changes who is parked and nothing else.
  lemma WokenLedger(m: Sys, r: Sys)
    requires Placed(m) && Counted(m)
    requires r == m.(calls := r.calls)
    requires r.calls == WakeAllReady(m.calls) || r.calls == WakeAllDrained(m.calls)
    ensures Placed(r) && Counted(r)
  {
    forall id: nat
      ensures Places(r, id) == Once(id < |r.accepted|)
    {
      TotalWake(m.calls, id);
      assert Places(m, id) == Once(id < |m.accepted|);
    }
    TotalWake(m.calls, 0);
  }

  // Waking waiters changes who is parked and nothing else.
  lemma WokenAll(m: Sys, r: Sys)
    requires CallsOk(m) && Ordered(m) && Scoped(m)
    requires r == m.(calls := r.calls)
    requires r.calls == WakeAllReady(m.calls) || r.calls == WakeAllDrained(m.calls)
    ensures CallsOk(r) && Ordered(r) && Scoped(r)
  {
    forall i | 0 <= i < |r.calls|
      ensures CallOk(r, r.calls[i])
    {
      assert CallOk(m, m.calls[i]);
    }
    if WillDrainRest(m.calls) {
      var j :| 0 <= j < |m.calls| && m.calls[j].Cancelling? && m.calls[j].rest;
      assert r.calls[j] == m.calls[j];
    }
    forall i, j | 0 <= i < j < |r.calls| && r.calls[i].Terminating? && r.calls[j].Terminating?
      ensures r.calls[i].owner != r.calls[j].owner
    {
      assert r.calls[i] == m.calls[i] && r.calls[j] == m.calls[j];
    }
    assert Scoped(r);
  }

  lemma NotifyMove(s: Sys, m: Sys, c: nat, call: Call)
    requires Inv(s) && c < |s.calls| && m == s.(calls := s.calls[c := call])
    requires HoldsTheSame(s.calls[c], call)
    requires CallOk(m, call) && !call.Terminating?
    requires s.calls[c].Cancelling? && s.calls[c].rest ==> call.Cancelling? && call.rest
    ensures CallsOk(m) && Placed(m) && Counted(m) && Ordered(m) && Scoped(m)
  {
    PlacedMove(s, m, c, call);
    CountedMove(s, m, c, call);
    CallsOkMove(s, m, c, call);
    ScopedMove(s, m, c, call);
    OrderedSame(s, m);
  }

  lemma AwakeAfterReadyNotice(s: Sys, r: Sys, c: nat, call: Call)
    requires Awake(s) && c < |s.calls| && r == s.(calls := WakeAllReady(s.calls[c := call]))
    requires !s.calls[c].NotifyingDrained? && !call.ParkedDrained?
    ensures Awake(r)
  {
    assert forall i :: 0 <= i < |r.calls| ==> !r.calls[i].ParkedReady?;
    forall i | 0 <= i < |r.calls| && r.calls[i].ParkedDrained?
      ensures DrainNoticePending(r.calls) || r.port.inFlight > 0
    {
      assert s.calls[i].ParkedDrained?;
      if j :| 0 <= j < |s.calls| && s.calls[j].NotifyingDrained? {
        assert r.calls[j] == s.calls[j];
      }
    }
  }

  lemma AwakeAfterDrainNotice(s: Sys, r: Sys, c: nat, call: Call)
    requires Awake(s) && c < |s.calls| && r == s.(calls := WakeAllDrained(s.calls[c := call]))
    requires !GivesReadyNotice(s.calls[c]) && !call.ParkedReady?
    ensures Awake(r)
  {
    assert forall i :: 0 <= i < |r.calls| ==> !r.calls[i].ParkedDrained?;
    forall i | 0 <= i < |r.calls| && r.calls[i].ParkedReady?
      ensures ReadyNoticePending(r.calls) || NothingMissed(r, r.calls[i].until)
    {
      assert s.calls[i] == r.calls[i];
      if j :| 0 <= j < |s.calls| && GivesReadyNotice(s.calls[j]) {
        assert r.calls[j] == s.calls[j];
      }
    }
  }

  lemma NotifyReadyKept(s: Sys, c: nat)
    requires Inv(s) && c < |s.calls| && GivesReadyNotice(s.calls[c])
    ensures Inv(DoNotifyReady(s, c))
  {
    var call, r := s.calls[c], DoNotifyReady(s, c);
    var after := if call.NotifyingReady? then Returned else call.(notified := true);
    assert CallOk(s, call);
    NotifyMove(s, With(s, c, after), c, after);
    WokenLedger(With(s, c, after), r);
    WokenAll(With(s, c, after), r);
    AwakeAfterReadyNotice(s, r, c, after);
  }

  lemma NotifyDrainedKept(s: Sys, c: nat)
    requires Inv(s) && c < |s.calls| && s.calls[c].NotifyingDrained?
    ensures Inv(DoNotifyDrained(s, c))
  {
    var r := DoNotifyDrained(s, c);
    var after := if s.calls[c].role.Worker? then Seeking(Worker) else Returned;
    NotifyMove(s, With(s, c, after), c, after);
    WokenLedger(With(s, c, after), r);
    WokenAll(With(s, c, after), r);
    AwakeAfterDrainNotice(s, r, c, after);
  }

  // ---- terminate ---------------------------------------------------------------------

  lemma TerminateBalance(s: Sys, c: nat, id: nat)
    requires c < |s.calls| && s.calls[c].Terminating? && s.calls[c].owner < |s.contexts|
    ensures var r := DoTerminate(s, c);
            PlacesBalance(s, r, id, InHand(s.calls[c], id), InHand(r.calls[c], id))
  {
    var r, owner := DoTerminate(s, c), s.calls[c].owner;
    var mine, others := OwnedBy(s.port.tasks, owner), NotOwnedBy(s.port.tasks, owner);
    OccursFilter(s.port.tasks, owner, id);
    assert r.calls[c] == Cancelling(owner, s.calls[c].wait, false, mine, None, r.calls[c].rest);
    assert InHand(r.calls[c], id) == Occurs(mine, id) && InHand(s.calls[c], id) == 0;
    assert r.port.tasks == others;
  }

  lemma TerminatePlaced(s: Sys, c: nat)
    requires Placed(s) && c < |s.calls| && s.calls[c].Terminating? && s.calls[c].owner < |s.contexts|
    ensures Placed(DoTerminate(s, c))
  {
    var r := DoTerminate(s, c);
    forall id: nat
      ensures PlacesBalance(s, r, id, InHand(s.calls[c], id), InHand(r.calls[c], id))
    {
      TerminateBalance(s, c, id);
    }
    PlacedMove(s, r, c, r.calls[c]);
  }

  lemma TerminateCounted(s: Sys, c: nat)
    requires Counted(s) && c < |s.calls| && s.calls[c].Terminating? && s.calls[c].owner < |s.contexts|
    ensures Counted(DoTerminate(s, c))
  {
    var r := DoTerminate(s, c);
    FilterSplits(s.port.tasks, s.calls[c].owner);
    CountedMove(s, r, c, r.calls[c]);
  }

  lemma TerminateCallsOk(s: Sys, c: nat)
    requires CallsOk(s) && Scoped(s) && c < |s.calls| && s.calls[c].Terminating? && s.calls[c].owner < |s.contexts|
    ensures CallsOk(DoTerminate(s, c))
  {
    var r := DoTerminate(s, c);
    forall i | 0 <= i < |r.calls|
      ensures CallOk(r, r.calls[i])
    {
      assert CallOk(s, s.calls[i]);
      if i != c && s.calls[i].Terminating? {
        assert s.calls[i].owner != s.calls[c].owner;
      }
    }
  }

  lemma TerminateScoped(s: Sys, c: nat)
    requires Scoped(s) && c < |s.calls| && s.calls[c].Terminating? && s.calls[c].owner < |s.contexts| &&
             CallOk(s, s.calls[c])
    ensures Scoped(DoTerminate(s, c))
  {
    var r := DoTerminate(s, c);
    var owner := s.calls[c].owner;
    UnendedUpdate(s.contexts, owner, Ended);
    FilterSplits(s.port.tasks, owner);
    if r.port.terminated && r.port.tasks != [] {
      if s.port.terminated {
        var j :| 0 <= j < |s.calls| && s.calls[j].Cancelling? && s.calls[j].rest;
        assert r.calls[j] == s.calls[j];
      } else {
        assert r.calls[c].Cancelling? && r.calls[c].rest;
      }
    }
    forall i, j | 0 <= i < j < |r.calls| && r.calls[i].Terminating? && r.calls[j].Terminating?
      ensures r.calls[i].owner != r.calls[j].owner
    {
      assert r.calls[i] == s.calls[i] && r.calls[j] == s.calls[j];
    }
  }

  lemma TerminateKept(s: Sys, c: nat)
    requires Inv(s) && c < |s.calls| && s.calls[c].Terminating? && s.calls[c].owner < |s.contexts|
    ensures Inv(DoTerminate(s, c))
  {
    var r := DoTerminate(s, c);
    var owner := s.calls[c].owner;
    TerminatePlaced(s, c);
    TerminateCounted(s, c);
    TerminateCallsOk(s, c);
    TerminateScoped(s, c);
    AwakeMove(s, r, c, r.calls[c]);
    FilterSplits(s.port.tasks, owner);
    FilterSorted(s.port.tasks, owner);
    OrderedSame(s, r);
  }

  // ---- all steps, all runs -----------------------------------------------------------

  predicate TouchesQueue(step: Step) {
    step.Submit? || step.TryTake? || step.Drain? || step.Finish? || step.Terminate? || step.DrainRest?
  }

  lemma QueueStepKept(s: Sys, step: Step)
    requires Inv(s) && Enabled(s, step) && TouchesQueue(step)
    ensures Inv(Apply(s, step))
  {
    match step
    case Submit(c) => SubmitKept(s, c);
    case TryTake(c, n1, n2) => TryTakeKept(s, c, n1, n2);
    case Drain(c) => DrainKept(s, c);
    case Finish(c) => FinishKept(s, c);
    case Terminate(c) => TerminateKept(s, c);
    case DrainRest(c) => DrainRestKept(s, c);
  }

  lemma EntryStepKept(s: Sys, step: Step)
    requires Inv(s) && Enabled(s, step)
    requires step.Tick? || step.AddContext? || step.BeginSubmit? || step.BeginDispatch? || step.BeginTerminate?
    ensures Inv(Apply(s, step))
  {
    if step.Tick? {
      TickKept(s, step.elapsed);
    } else if step.AddContext? {
      AddContextKept(s);
    } else {
      BeginKept(s, step);
    }
  }

  lemma NoticeStepKept(s: Sys, step: Step)
    requires Inv(s) && Enabled(s, step)
    requires step.NotifyReady? || step.NotifyDrained? || step.Invoke?
    ensures Inv(Apply(s, step))
  {
    match step
    case NotifyReady(c) => NotifyReadyKept(s, c);
    case NotifyDrained(c) => NotifyDrainedKept(s, c);
    case Invoke(c) => InvokeKept(s, c);
  }

  lemma StepKeepsInv(s: Sys, step: Step)
    requires Inv(s) && Enabled(s, step)
    ensures Inv(Apply(s, step))
  {
    if TouchesQueue(step) {
      QueueStepKept(s, step);
    } else if step.NotifyReady? || step.NotifyDrained? || step.Invoke? {
      NoticeStepKept(s, step);
    } else if step.Tick? || step.AddContext? || step.BeginSubmit? || step.BeginDispatch? || step.BeginTerminate? {
      EntryStepKept(s, step);
    } else {
      QuietKept(s, step, Apply(s, step));
    }
  }

  lemma {:induction false} RunKeepsInv(s: Sys, steps: seq<Step>)
    requires Inv(s) && IsRun(s, steps)
    ensures Inv(After(s, steps))
    decreases |steps|
  {
    if steps != [] {
      StepKeepsInv(s, steps[0]);
      RunKeepsInv(Apply(s, steps[0]), steps[1..]);
    }
  }

  ghost predicate Reachable(s: Sys) {
    exists mode, parallelism, now, steps ::
      IsRun(Initial(mode, parallelism, now), steps) && s == After(Initial(mode, parallelism, now), steps)
  }

  lemma ReachableInv(s: Sys)
    requires Reachable(s)
    ensures Inv(s)
  {
    var mode, parallelism, now, steps :|
      IsRun(Initial(mode, parallelism, now), steps) && s == After(Initial(mode, parallelism, now), steps);
    InitialInv(mode, parallelism, now);
    RunKeepsInv(Initial(mode, parallelism, now), steps);
  }

  // ---- runs built up step by step ----------------------------------------------------

  lemma {:induction false} OneMore(s: Sys, steps: seq<Step>, step: Step)
    requires IsRun(s, steps) && Enabled(After(s, steps), step)
    ensures IsRun(s, steps + [step]) && After(s, steps + [step]) == Apply(After(s, steps), step)
    decreases |steps|
  {
    var longer := steps + [step];
    if steps != [] {
      OneMore(Apply(s, steps[0]), steps[1..], step);
      assert longer[1..] == steps[1..] + [step];
    } else {
      assert longer == [step] && longer[1..] == [];
    }
  }

  lemma OneStep(s: Sys, step: Step)
    requires Enabled(s, step)
    ensures IsRun(s, [step]) && After(s, [step]) == Apply(s, step)
  {
    OneMore(s, [], step);
    assert [] + [step] == [step];
  }

  lemma ReachableStep(s: Sys, step: Step)
    requires Reachable(s) && Enabled(s, step)
    ensures Reachable(Apply(s, step))
  {
    var mode, parallelism, now, steps :|
      IsRun(Initial(mode, parallelism, now), steps) && s == After(Initial(mode, parallelism, now), steps);
    OneMore(Initial(mode, parallelism, now), steps, step);
    var longer := steps + [step];
    assert IsRun(Initial(mode, parallelism, now), longer);
    assert Apply(s, step) == After(Initial(mode, parallelism, now), longer);
  }

  lemma InitialReachable(mode: Mode, parallelism: Option<nat>, now: int)
    ensures Reachable(Initial(mode, parallelism, now))
  {
    var steps: seq<Step> := [];
    assert IsRun(Initial(mode, parallelism, now), steps);
    assert Initial(mode, parallelism, now) == After(Initial(mode, parallelism, now), steps);
  }
}
