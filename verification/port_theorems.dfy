// What the invariant means for users of a port, in every reachable state.

module PortTheorems {
  import opened Basics
  import opened TaskOrder
  import opened PortSystem
  import opened Ledger
  import opened PortLedger
  import opened PortInvariant
  import opened PortRuns

  // ---- exactly one disposition -------------------------------------------------------

  lemma {:induction false} CountRepeated(ids: seq<nat>, i: nat, j: nat)
    requires i < j < |ids| && ids[i] == ids[j]
    ensures Count(ids, ids[i]) >= 2
    decreases |ids|
  {
    var n := |ids| - 1;
    if j < n {
      CountRepeated(ids[..n], i, j);
    } else {
      CountPresent(ids[..n], i);
    }
  }

  lemma {:induction false} CountPresent(ids: seq<nat>, i: nat)
    requires i < |ids|
    ensures Count(ids, ids[i]) >= 1
    decreases |ids|
  {
    var n := |ids| - 1;
    if i < n {
      CountPresent(ids[..n], i);
    }
  }

  // An activity has the callback off the queue, or never had it queued, and has not invoked it.
  predicate Holds(call: Call, id: nat) {
    match call
    case Executing(_, todo, _, _, _) => exists i :: 0 <= i < |todo| && todo[i].id == id
    case Cancelling(_, _, _, todo, _, _) => exists i :: 0 <= i < |todo| && todo[i].id == id
    case Sleeping(t) => t.id == id
    case Woken(t, _) => t.id == id
    case _ => false
  }

  lemma {:induction false} OccursExactly(q: seq<Task>, id: nat)
    ensures Occurs(q, id) > 0 <==> exists i :: 0 <= i < |q| && q[i].id == id
  {
    if q != [] {
      OccursExactly(q[..|q| - 1], id);
    }
  }

  lemma HoldsWeighs(call: Call, id: nat)
    ensures Holds(call, id) <==> InHand(call, id) > 0
  {
    if call.Executing? || call.Cancelling? {
      OccursExactly(call.todo, id);
    }
  }

  // A callback in hand is in some activity's hand.
  lemma HeldBySomebody(calls: seq<Call>, id: nat)
    ensures Total(calls, id).held > 0 <==> exists c :: 0 <= c < |calls| && Holds(calls[c], id)
  {
    var ws := Weights(calls, id);
    forall c | 0 <= c < |calls|
      ensures Holds(calls[c], id) <==> ws[c].held > 0
      ensures ws[c].held <= Sum(ws).held
    {
      HoldsWeighs(calls[c], id);
      SumBounds(ws, c);
    }
    SumIdle(ws);
  }

  // An accepted callback is queued, or held by an activity, or has been run, or has been
  // cancelled; exactly one of the four and exactly once. Nothing else is anywhere.
  lemma ExactlyOneDisposition(s: Sys, id: nat)
    requires Reachable(s)
    ensures id < |s.accepted| ==>
              Occurs(s.port.tasks, id) + Total(s.calls, id).held + Count(s.ran, id) + Count(s.cancelled, id) == 1
    ensures id >= |s.accepted| ==>
              Occurs(s.port.tasks, id) + Total(s.calls, id).held + Count(s.ran, id) + Count(s.cancelled, id) == 0
    ensures Total(s.calls, id).held > 0 <==> exists c :: 0 <= c < |s.calls| && Holds(s.calls[c], id)
    ensures Occurs(s.port.tasks, id) > 0 <==> exists i :: 0 <= i < |s.port.tasks| && s.port.tasks[i].id == id
  {
    ReachableInv(s);
    assert Places(s, id) == Once(id < |s.accepted|);
    HeldBySomebody(s.calls, id);
    OccursExactly(s.port.tasks, id);
  }

  // No callback is ever invoked twice, in either way or in both.
  lemma NeverInvokedTwice(s: Sys)
    requires Reachable(s)
    ensures forall i, j :: 0 <= i < j < |s.ran| ==> s.ran[i] != s.ran[j]
    ensures forall i, j :: 0 <= i < j < |s.cancelled| ==> s.cancelled[i] != s.cancelled[j]
    ensures forall i, j :: 0 <= i < |s.ran| && 0 <= j < |s.cancelled| ==> s.ran[i] != s.cancelled[j]
  {
    forall i, j | 0 <= i < j < |s.ran|
      ensures s.ran[i] != s.ran[j]
    {
      if s.ran[i] == s.ran[j] {
        CountRepeated(s.ran, i, j);
        ExactlyOneDisposition(s, s.ran[i]);
      }
    }
    forall i, j | 0 <= i < j < |s.cancelled|
      ensures s.cancelled[i] != s.cancelled[j]
    {
      if s.cancelled[i] == s.cancelled[j] {
        CountRepeated(s.cancelled, i, j);
        ExactlyOneDisposition(s, s.cancelled[i]);
      }
    }
    forall i, j | 0 <= i < |s.ran| && 0 <= j < |s.cancelled|
      ensures s.ran[i] != s.cancelled[j]
    {
      CountPresent(s.ran, i);
      CountPresent(s.cancelled, j);
      ExactlyOneDisposition(s, s.ran[i]);
    }
  }

  lemma NothingInHand(calls: seq<Call>, id: nat)
    requires forall c :: 0 <= c < |calls| ==> calls[c].Returned?
    ensures Total(calls, id).held == 0 && Total(calls, id).owed == 0 && Total(calls, id).pending == 0
  {
    var ws := Weights(calls, id);
    forall i | 0 <= i < |ws|
      ensures ws[i] == ZERO
    {
      assert calls[i].Returned?;
    }
    SumIdle(ws);
  }

  lemma EmptyWhenLeft(s: Sys, id: nat)
    requires Inv(s) && s.port.terminated
    requires forall c :: 0 <= c < |s.calls| ==> s.calls[c].Returned?
    ensures s.port.tasks == [] && s.port.inFlight == 0
    ensures Total(s.calls, id).held == 0 && Total(s.calls, 0).pending == 0
    ensures Count(s.ran, id) + Count(s.cancelled, id) == Once(id < |s.accepted|)
  {
    NothingInHand(s.calls, id);
    NothingInHand(s.calls, 0);
    assert Places(s, id) == Once(id < |s.accepted|);
  }

  // Once the port has terminated and every activity has left it, nothing was dropped:
  // each accepted callback was invoked exactly once, run or cancelled.
  lemma NothingDropped(s: Sys)
    requires Reachable(s) && s.port.terminated
    requires forall c :: 0 <= c < |s.calls| ==> s.calls[c].Returned?
    ensures s.port.tasks == [] && s.port.inFlight == 0
    ensures forall id: nat :: id < |s.accepted| ==> Count(s.ran, id) + Count(s.cancelled, id) == 1
    ensures !s.mode.Immediate? ==> |s.accepted| == s.port.dispatched + |s.cancelled|
  {
    ReachableInv(s);
    EmptyWhenLeft(s, 0);
    forall id: nat | id < |s.accepted|
      ensures Count(s.ran, id) + Count(s.cancelled, id) == 1
    {
      EmptyWhenLeft(s, id);
    }
  }

  // ---- counters ----------------------------------------------------------------------

  lemma CountersConserve(s: Sys)
    requires Reachable(s) && !s.mode.Immediate?
    ensures s.port.submitted == |s.accepted|
    ensures s.port.submitted == |s.port.tasks| + s.port.inFlight + s.port.dispatched + s.pulled
    ensures s.pulled == |s.cancelled| + Total(s.calls, 0).pending
  {
    ReachableInv(s);
  }

  // `in_flight -= n` never underflows, whatever calls are nested in whatever callbacks.
  lemma InFlightNeverUnderflows(s: Sys, c: nat)
    requires Reachable(s) && c < |s.calls|
    ensures 0 <= s.port.inFlight
    ensures s.calls[c].Executing? ==> s.calls[c].owed <= s.port.inFlight
  {
    ReachableInv(s);
    SumBounds(Weights(s.calls, 0), c);
  }

  // ---- wakeups -----------------------------------------------------------------------

  // A thread parked on `ready` until a bound: somebody is about to notify, or the port is
  // alive and every queued callback comes due no earlier than the bound.
  lemma NoLostWakeup(s: Sys, c: nat)
    requires Reachable(s) && c < |s.calls| && s.calls[c].ParkedReady?
    requires forall i :: 0 <= i < |s.calls| ==> !GivesReadyNotice(s.calls[i])
    ensures !s.port.terminated
    ensures s.calls[c].until.None? ==> s.port.tasks == []
    ensures forall t :: t in s.port.tasks ==>
              (t.due.Some? && s.calls[c].until.Some? && s.calls[c].until.value <= t.due.value)
  {
    ReachableInv(s);
    assert NothingMissed(s, s.calls[c].until);
    if s.port.tasks != [] {
      assert s.port.tasks[0] in s.port.tasks;
    }
  }

  // A `terminate(wait)` parked on `drained`: somebody is about to notify, or callbacks are
  // still in flight and one of them will have to be accounted for.
  lemma NoLostDrainWakeup(s: Sys, c: nat)
    requires Reachable(s) && c < |s.calls| && s.calls[c].ParkedDrained?
    requires forall i :: 0 <= i < |s.calls| ==> !s.calls[i].NotifyingDrained?
    ensures s.port.inFlight > 0
    ensures exists d :: 0 <= d < |s.calls| && s.calls[d].Executing?
  {
    ReachableInv(s);
    var ws := Weights(s.calls, 0);
    SumIdle(ws);
    var d :| 0 <= d < |ws| && ws[d].owed != 0;
    assert s.calls[d].Executing?;
  }

  // ---- queue order and snapshots -----------------------------------------------------

  // What a thread takes is ready and precedes everything else queued.
  lemma TakesTheFirst(s: Sys, c: nat, n1: int, n2: int)
    requires Reachable(s) && Enabled(s, TryTake(c, n1, n2))
    ensures var r := Apply(s, TryTake(c, n1, n2));
            r.port.tasks != s.port.tasks ==>
              exists t :: t in s.port.tasks && ReadyAt(t, n1)
                && r.calls[c] == Executing(s.calls[c].role, [t], None, 1, !s.calls[c].role.Dispatcher?)
                && r.port.tasks == s.port.tasks[1..]
                && forall u :: u in r.port.tasks ==> Before(t, u)
  {
    ReachableInv(s);
    var q := s.port.tasks;
    if Apply(s, TryTake(c, n1, n2)).port.tasks != q {
      assert q[0] in q;
      HeadFirst(q);
    }
  }

  // The snapshot a dispatch takes after its first callback is exactly the set of callbacks
  // ready at that instant, in queue order.
  lemma SnapshotIsReadySet(s: Sys, c: nat, r: Sys)
    requires Reachable(s) && c < |s.calls| && CanDrain(s.calls[c]) && r == DoDrain(s, c)
    ensures r.calls[c].Executing? && r.calls[c].drained
    ensures r.calls[c].owed == 1 + |r.calls[c].todo|
    ensures r.calls[c].todo + r.port.tasks == s.port.tasks
    ensures forall t :: t in r.calls[c].todo <==> t in s.port.tasks && ReadyAt(t, s.now)
    ensures forall t :: t in r.port.tasks <==> t in s.port.tasks && !ReadyAt(t, s.now)
  {
    ReachableInv(s);
    assert CallOk(s, s.calls[c]);
    ReadyPrefixIsReadySet(s.port.tasks, s.now);
    var n := ReadyCount(s.port.tasks, s.now);
    assert s.port.tasks[..n] + s.port.tasks[n..] == s.port.tasks;
  }

  // Where a dispatch stands in the snapshot `batch` it has taken: `k` callbacks of it have
  // been invoked, or all of them have and the dispatch has accounted for 1 + |batch|.
  ghost predicate Through(s: Sys, c: nat, role: Role, batch: seq<Task>, k: nat, logged: seq<nat>) {
    && c < |s.calls| && role.Dispatcher? && k <= |batch|
    && (forall id: nat :: Count(s.ran, id) >= Count(logged, id) + Occurs(batch[..k], id))
    && match s.calls[c] {
         case Executing(r, todo, _, owed, drained) =>
           r == role && drained && todo == batch[k..] && owed == 1 + |batch|
         case NotifyingDrained(r) => r == role && k == |batch|
         case Returned => k == |batch|
         case _ => false
       }
  }

  lemma LogOnlyGrows(s: Sys, step: Step, id: nat)
    requires Enabled(s, step)
    ensures Count(Apply(s, step).ran, id) >= Count(s.ran, id)
  {
    if step.Invoke? && Apply(s, step).ran != s.ran {
      var x := if s.calls[step.c].Woken? then s.calls[step.c].task.id else s.calls[step.c].todo[0].id;
      assert Apply(s, step).ran == s.ran + [x];
      CountSnoc(s.ran, x, id);
    }
  }

  lemma ThroughStep(s: Sys, step: Step, c: nat, role: Role, batch: seq<Task>, k: nat, logged: seq<nat>)
    requires Enabled(s, step) && Through(s, c, role, batch, k, logged)
    requires !(step.Invoke? && step.c == c)
    ensures Through(Apply(s, step), c, role, batch, k, logged)
  {
    var r := Apply(s, step);
    forall id: nat
      ensures Count(r.ran, id) >= Count(logged, id) + Occurs(batch[..k], id)
    {
      LogOnlyGrows(s, step, id);
    }
    if step.Finish? && step.c == c {
      assert k == |batch|;
    }
    assert c < |r.calls|;
    match step
    case Submit(d) => assert d != c && r.calls[c] == s.calls[c];
    case CallbackReturns(d) =>
    case Finish(d) =>
    case NotifyDrained(d) =>
    case _ => assert r.calls[c] == s.calls[c];
  }

  lemma ThroughInvoke(s: Sys, c: nat, role: Role, batch: seq<Task>, k: nat, logged: seq<nat>)
    requires c < |s.calls| && CanInvoke(s.calls[c]) && Through(s, c, role, batch, k, logged)
    ensures k < |batch| && Through(DoInvoke(s, c), c, role, batch, k + 1, logged)
  {
    var r, t := DoInvoke(s, c), batch[k];
    assert s.calls[c].todo[0] == t && s.calls[c].todo[1..] == batch[k + 1..];
    assert batch[..k + 1] == batch[..k] + [t];
    forall id: nat
      ensures Count(r.ran, id) >= Count(logged, id) + Occurs(batch[..k + 1], id)
    {
      CountSnoc(s.ran, t.id, id);
      OccursSnoc(batch[..k], t, id);
    }
  }

  // A dispatch that has taken its snapshot runs exactly that snapshot, front to back,
  // however much anybody submits meanwhile, and does not leave before it is through.
  lemma {:induction false} DispatchRunsItsSnapshot(
    s: Sys, steps: seq<Step>, c: nat, role: Role, batch: seq<Task>, k: nat, logged: seq<nat>)
    returns (n: nat)
    requires IsRun(s, steps) && Through(s, c, role, batch, k, logged)
    ensures Through(After(s, steps), c, role, batch, n, logged)
    decreases |steps|
  {
    if steps == [] {
      n := k;
    } else {
      var r := Apply(s, steps[0]);
      if steps[0].Invoke? && steps[0].c == c {
        ThroughInvoke(s, c, role, batch, k, logged);
        n := DispatchRunsItsSnapshot(r, steps[1..], c, role, batch, k + 1, logged);
      } else {
        ThroughStep(s, steps[0], c, role, batch, k, logged);
        n := DispatchRunsItsSnapshot(r, steps[1..], c, role, batch, k, logged);
      }
    }
  }

  // From the snapshot on: whenever the dispatch has left, every callback of the snapshot
  // has been run, and it accounted for exactly one callback more than the snapshot holds.
  lemma DispatchIsBounded(s: Sys, c: nat, steps: seq<Step>)
    requires Reachable(s) && c < |s.calls| && CanDrain(s.calls[c])
    requires IsRun(DoDrain(s, c), steps)
    ensures var batch := DoDrain(s, c).calls[c].todo;
            var r := After(DoDrain(s, c), steps);
            && c < |r.calls|
            && (r.calls[c].Executing? ==> r.calls[c].owed == 1 + |batch|)
            && (r.calls[c].Executing? ==> exists k :: 0 <= k <= |batch| && r.calls[c].todo == batch[k..])
            && (!r.calls[c].Executing? ==>
                  forall id: nat :: Count(r.ran, id) >= Count(s.ran, id) + Occurs(batch, id))
  {
    ReachableInv(s);
    assert CallOk(s, s.calls[c]);
    var m := DoDrain(s, c);
    var role, batch := s.calls[c].role, m.calls[c].todo;
    assert batch[..0] == [];
    var k := DispatchRunsItsSnapshot(m, steps, c, role, batch, 0, s.ran);
    assert k == |batch| ==> batch[..k] == batch;
  }

  // ---- contexts ----------------------------------------------------------------------

  lemma {:induction false} AllEnded(contexts: seq<ContextPhase>)
    ensures Unended(contexts) == 0 <==> forall k :: 0 <= k < |contexts| ==> contexts[k].Ended?
    decreases |contexts|
  {
    if contexts != [] {
      AllEnded(contexts[..|contexts| - 1]);
    }
  }

  // Terminating one context pulls out exactly its own queued callbacks, leaves everybody
  // else's in the same relative order, and terminates the port exactly when every other
  // context had already ended.
  lemma TerminationIsScoped(s: Sys, c: nat, r: Sys, owner: nat)
    requires Reachable(s) && c < |s.calls| && s.calls[c].Terminating? && s.calls[c].owner == owner
    requires owner < |s.contexts| && r == DoTerminate(s, c)
    ensures r.calls[c].Cancelling?
    ensures forall t :: t in r.calls[c].todo <==> t in s.port.tasks && t.owner == owner
    ensures forall t :: t in r.port.tasks <==> t in s.port.tasks && t.owner != owner
    ensures Sorted(r.calls[c].todo) && Sorted(r.port.tasks)
    ensures r.ran == s.ran && r.cancelled == s.cancelled
    ensures forall d :: 0 <= d < |s.calls| && d != c ==> r.calls[d] == s.calls[d]
    ensures r.port.terminated <==>
              s.port.terminated || forall k :: 0 <= k < |s.contexts| && k != owner ==> s.contexts[k].Ended?
  {
    ReachableInv(s);
    TerminateKept(s, c);
    FilterSplits(s.port.tasks, owner);
    FilterSorted(s.port.tasks, owner);
    AllEnded(r.contexts);
    assert forall k :: 0 <= k < |s.contexts| && k != owner ==> r.contexts[k] == s.contexts[k];
  }

  // No other step terminates the port, none revives it, and when it terminates every
  // context has ended.
  lemma OnlyTheLastContextEndsThePort(s: Sys, step: Step)
    requires Reachable(s) && Enabled(s, step)
    ensures s.port.terminated ==> Apply(s, step).port.terminated
    ensures !s.port.terminated && Apply(s, step).port.terminated ==>
              step.Terminate? && forall k :: 0 <= k < |s.contexts| ==> Apply(s, step).contexts[k].Ended?
  {
    if step.Terminate? {
      ReachableInv(s);
      var c, owner := step.c, s.calls[step.c].owner;
      TerminateKept(s, c);
      AllEnded(DoTerminate(s, c).contexts);
    } else {
      assert Apply(s, step).port.terminated == s.port.terminated;
    }
  }

  // A terminated port accepts nothing, ever.
  lemma {:induction false} TerminatedPortIsClosed(s: Sys, steps: seq<Step>)
    requires s.port.terminated && IsRun(s, steps)
    ensures After(s, steps).port.terminated
    ensures After(s, steps).accepted == s.accepted
    decreases |steps|
  {
    if steps != [] {
      var r := Apply(s, steps[0]);
      assert r.port.terminated && r.accepted == s.accepted;
      TerminatedPortIsClosed(r, steps[1..]);
    }
  }
}
