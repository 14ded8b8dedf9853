// Every step keeps the invariant. Nearly every step moves one activity on, so the parts of
// the invariant are first shown to survive such a move under small conditions; each step
// then only has to meet the conditions.

module PortPreservation {
  import opened Basics
  import opened TaskOrder
  import opened PortSections
  import opened PortSystem
  import opened Ledger
  import opened PortLedger
  import opened PortInvariant

  function Outside(s: Sys, id: nat): nat {
    Occurs(s.port.tasks, id) + Count(s.ran, id) + Count(s.cancelled, id)
  }

  // Activity `c` moves on to `call`; nobody else's counter changes.
  ghost predicate Moves(s: Sys, r: Sys, c: nat, call: Call) {
    && c < |s.calls|
    && r.calls == s.calls[c := call]
    && r.mode == s.mode && r.parallelism == s.parallelism
  }

  // What is left to check for one callback when the mover's holding goes from `before` to
  // `after`.
  ghost predicate PlacesBalance(s: Sys, r: Sys, id: nat, before: nat, after: nat) {
    Outside(r, id) + after + Once(id < |s.accepted|) == Outside(s, id) + before + Once(id < |r.accepted|)
  }

  lemma PlacedMove(s: Sys, r: Sys, c: nat, call: Call)
    requires Placed(s) && Moves(s, r, c, call)
    requires forall id: nat :: PlacesBalance(s, r, id, InHand(s.calls[c], id), InHand(call, id))
    ensures Placed(r)
  {
    forall id: nat
      ensures Places(r, id) == Once(id < |r.accepted|)
    {
      TotalUpdate(s.calls, c, call, id);
      assert Places(s, id) == Once(id < |s.accepted|);
      assert Places(r, id) == Outside(r, id) + Total(r.calls, id).held;
      assert Places(s, id) == Outside(s, id) + Total(s.calls, id).held;
      assert PlacesBalance(s, r, id, InHand(s.calls[c], id), InHand(call, id));
    }
  }

  // What is left to check when one activity moves from `before` to `after`.
  ghost predicate CountsBalance(s: Sys, r: Sys, before: Call, after: Call) {
    && r.port.inFlight + Owes(before) == s.port.inFlight + Owes(after)
    && Agents(after) <= Agents(before)
    && (s.port.workersStarted ==> r.port.workersStarted)
    && (!s.mode.Immediate? ==>
      && r.port.submitted - s.port.submitted == |r.accepted| - |s.accepted|
      && r.port.submitted - s.port.submitted
         == |r.port.tasks| - |s.port.tasks| + r.port.inFlight - s.port.inFlight
            + r.port.dispatched - s.port.dispatched + r.pulled - s.pulled
      && |r.cancelled| + ToCancel(after) + s.pulled == |s.cancelled| + ToCancel(before) + r.pulled)
    && (s.mode.Immediate? ==> r.port.tasks == [])
  }

  lemma CountedMove(s: Sys, r: Sys, c: nat, call: Call)
    requires Counted(s) && Moves(s, r, c, call)
    requires CountsBalance(s, r, s.calls[c], call)
    ensures Counted(r)
  {
    TotalUpdate(s.calls, c, call, 0);
  }

  lemma CallsOkMove(s: Sys, r: Sys, c: nat, call: Call)
    requires CallsOk(s) && Moves(s, r, c, call)
    requires CallOk(r, call)
    requires r.contexts == s.contexts && (s.port.terminated ==> r.port.terminated)
    ensures CallsOk(r)
  {
    forall i | 0 <= i < |r.calls|
      ensures CallOk(r, r.calls[i])
    {
      assert CallOk(s, s.calls[i]);
    }
  }

  lemma AwakeMove(s: Sys, r: Sys, c: nat, call: Call)
    requires Awake(s) && Moves(s, r, c, call)
    requires GivesReadyNotice(s.calls[c]) ==> GivesReadyNotice(call)
    requires s.calls[c].NotifyingDrained? ==> call.NotifyingDrained?
    requires
      || GivesReadyNotice(call)
      || (r.port.terminated == s.port.terminated && forall t :: t in r.port.tasks ==> t in s.port.tasks)
    requires r.port.inFlight >= s.port.inFlight || call.NotifyingDrained?
    requires call.ParkedReady? ==> NothingMissed(r, call.until)
    requires call.ParkedDrained? ==> r.port.inFlight > 0
    ensures Awake(r)
  {
    assert r.calls[c] == call;
    forall i | 0 <= i < |r.calls| && r.calls[i].ParkedReady?
      ensures ReadyNoticePending(r.calls) || NothingMissed(r, r.calls[i].until)
    {
      if i != c && !GivesReadyNotice(call) {
        assert s.calls[i].ParkedReady?;
        if j :| 0 <= j < |s.calls| && GivesReadyNotice(s.calls[j]) {
          assert r.calls[j] == s.calls[j];
        }
      }
    }
    forall i | 0 <= i < |r.calls| && r.calls[i].ParkedDrained?
      ensures DrainNoticePending(r.calls) || r.port.inFlight > 0
    {
      if i != c && !call.NotifyingDrained? {
        assert s.calls[i].ParkedDrained?;
        if j :| 0 <= j < |s.calls| && s.calls[j].NotifyingDrained? {
          assert r.calls[j] == s.calls[j];
        }
      }
    }
  }

  lemma ScopedMove(s: Sys, r: Sys, c: nat, call: Call)
    requires Scoped(s) && Moves(s, r, c, call)
    requires r.contexts == s.contexts
    requires r.port.activeContexts == s.port.activeContexts && r.port.terminated == s.port.terminated
    requires !call.Terminating?
    requires s.port.tasks == [] && s.port.terminated ==> r.port.tasks == []
    requires s.calls[c].Cancelling? && s.calls[c].rest ==> (call.Cancelling? && call.rest) || r.port.tasks == []
    ensures Scoped(r)
  {
    if r.port.terminated && r.port.tasks != [] {
      var j :| 0 <= j < |s.calls| && s.calls[j].Cancelling? && s.calls[j].rest;
      assert r.calls[j] == if j == c then call else s.calls[j];
    }
    forall i, j | 0 <= i < j < |r.calls| && r.calls[i].Terminating? && r.calls[j].Terminating?
      ensures r.calls[i].owner != r.calls[j].owner
    {
      assert r.calls[i] == s.calls[i] && r.calls[j] == s.calls[j];
    }
  }

  lemma OrderedSame(s: Sys, r: Sys)
    requires Ordered(s)
    requires r.accepted == s.accepted && |r.contexts| >= |s.contexts|
    requires Sorted(r.port.tasks) && forall t :: t in r.port.tasks ==> t in s.port.tasks
    ensures Ordered(r)
  {
  }

  // One activity moves on: everything but the placement of callbacks follows from what
  // the move does to the counters, the notices and the queue.
  lemma FrameKept(s: Sys, r: Sys, c: nat, call: Call)
    requires Inv(s) && Moves(s, r, c, call) && Placed(r)
    requires r.contexts == s.contexts && r.accepted == s.accepted
    requires r.port.activeContexts == s.port.activeContexts && r.port.terminated == s.port.terminated
    requires CountsBalance(s, r, s.calls[c], call)
    requires CallOk(r, call) && !call.Terminating?
    requires GivesReadyNotice(s.calls[c]) ==> GivesReadyNotice(call)
    requires s.calls[c].NotifyingDrained? ==> call.NotifyingDrained?
    requires forall t :: t in r.port.tasks ==> t in s.port.tasks
    requires Sorted(r.port.tasks)
    requires r.port.inFlight >= s.port.inFlight || call.NotifyingDrained?
    requires call.ParkedReady? ==> NothingMissed(r, call.until)
    requires call.ParkedDrained? ==> r.port.inFlight > 0
    requires s.calls[c].Cancelling? && s.calls[c].rest ==> (call.Cancelling? && call.rest) || r.port.tasks == []
    ensures Inv(r)
  {
    CountedMove(s, r, c, call);
    CallsOkMove(s, r, c, call);
    AwakeMove(s, r, c, call);
    if r.port.tasks != [] {
      assert r.port.tasks[0] in s.port.tasks;
    }
    ScopedMove(s, r, c, call);
    OrderedSame(s, r);
  }

  // ---- the steps that leave queue and counters alone ---------------------------------

  lemma QuietMove(s: Sys, r: Sys, c: nat, call: Call)
    requires Inv(s) && c < |s.calls| && r == s.(calls := s.calls[c := call])
    requires HoldsTheSame(s.calls[c], call)
    requires CallOk(r, call) && !call.Terminating?
    requires GivesReadyNotice(s.calls[c]) ==> GivesReadyNotice(call)
    requires !s.calls[c].NotifyingDrained? && !call.ParkedReady?
    requires call.ParkedDrained? ==> s.port.inFlight > 0
    requires s.calls[c].Cancelling? && s.calls[c].rest ==> call.Cancelling? && call.rest
    ensures Inv(r)
  {
    assert Moves(s, r, c, call);
    PlacedMove(s, r, c, call);
    FrameKept(s, r, c, call);
  }

  predicate IsQuiet(step: Step) {
    step.Unpark? || step.CallbackReturns? || step.ReadPortFlag? || step.LeaveCancelling? || step.TestInFlight?
  }

  // Such a step changes its own call only, which goes on holding what it holds.
  lemma QuietAfter(s: Sys, step: Step, r: Sys)
    requires Enabled(s, step) && IsQuiet(step) && r == Apply(s, step) && CallOk(s, s.calls[step.c])
    ensures |r.calls| == |s.calls|
    ensures var call, call' := s.calls[step.c], r.calls[step.c];
            && r == s.(calls := s.calls[step.c := call'])
            && HoldsTheSame(call, call') && CallOk(r, call') && !call'.Terminating? && !call'.ParkedReady?
            && (GivesReadyNotice(call) ==> GivesReadyNotice(call')) && !call.NotifyingDrained?
            && (call'.ParkedDrained? ==> s.port.inFlight > 0)
            && (call.Cancelling? && call.rest ==> call'.Cancelling? && call'.rest)
  {
  }

  lemma QuietKept(s: Sys, step: Step, r: Sys)
    requires Inv(s) && Enabled(s, step) && IsQuiet(step) && r == Apply(s, step)
    ensures Inv(r)
  {
    assert CallOk(s, s.calls[step.c]);
    QuietAfter(s, step, r);
    QuietMove(s, r, step.c, r.calls[step.c]);
  }

  lemma TickKept(s: Sys, elapsed: nat)
    requires Inv(s)
    ensures Inv(Apply(s, Tick(elapsed)))
  {
    var r := Apply(s, Tick(elapsed));
    forall i | 0 <= i < |r.calls|
      ensures CallOk(r, r.calls[i])
    {
      assert CallOk(s, s.calls[i]);
    }
    forall id: nat
      ensures Places(r, id) == Once(id < |r.accepted|)
    {
      assert Places(s, id) == Once(id < |s.accepted|);
    }
  }

  // ---- callbacks and the queue -------------------------------------------------------

  lemma InvokeBalance(s: Sys, c: nat, id: nat)
    requires c < |s.calls| && CanInvoke(s.calls[c])
    ensures var r := DoInvoke(s, c);
            PlacesBalance(s, r, id, InHand(s.calls[c], id), InHand(r.calls[c], id))
  {
    var r := DoInvoke(s, c);
    assert r.port == s.port && r.accepted == s.accepted;
    match s.calls[c]
    case Executing(role, todo, _, owed, drained) =>
      assert r.cancelled == s.cancelled && r.ran == s.ran + [todo[0].id];
      assert r.calls[c].Executing? && r.calls[c].todo == todo[1..];
      OccursHead(todo, id);
      CountSnoc(s.ran, todo[0].id, id);
    case Cancelling(owner, wait, notified, todo, _, rest) =>
      assert r.ran == s.ran && r.cancelled == s.cancelled + [todo[0].id];
      assert r.calls[c].Cancelling? && r.calls[c].todo == todo[1..];
      OccursHead(todo, id);
      CountSnoc(s.cancelled, todo[0].id, id);
    case Woken(t, canceled) =>
      assert InHand(r.calls[c], id) == 0;
      CountSnoc(s.ran, t.id, id);
      CountSnoc(s.cancelled, t.id, id);
  }

  lemma InvokePlaced(s: Sys, c: nat)
    requires Placed(s) && c < |s.calls| && CanInvoke(s.calls[c])
    ensures Placed(DoInvoke(s, c))
  {
    var r := DoInvoke(s, c);
    forall id: nat
      ensures PlacesBalance(s, r, id, InHand(s.calls[c], id), InHand(r.calls[c], id))
    {
      InvokeBalance(s, c, id);
    }
    PlacedMove(s, r, c, r.calls[c]);
  }

  lemma InvokeKept(s: Sys, c: nat)
    requires Inv(s) && c < |s.calls| && CanInvoke(s.calls[c])
    ensures Inv(DoInvoke(s, c))
  {
    var r := DoInvoke(s, c);
    var call := r.calls[c];
    assert CallOk(s, s.calls[c]);
    assert Moves(s, r, c, call);
    InvokePlaced(s, c);
    FrameKept(s, r, c, call);
  }

  lemma DrainPlaced(s: Sys, c: nat)
    requires Placed(s) && c < |s.calls| && CanDrain(s.calls[c])
    ensures Placed(DoDrain(s, c))
  {
    var r := DoDrain(s, c);
    forall id: nat
      ensures PlacesBalance(s, r, id, InHand(s.calls[c], id), InHand(r.calls[c], id))
    {
      OccursSplit(s.port.tasks, ReadyCount(s.port.tasks, s.now), id);
    }
    PlacedMove(s, r, c, r.calls[c]);
  }

  lemma DrainKept(s: Sys, c: nat)
    requires Inv(s) && c < |s.calls| && CanDrain(s.calls[c])
    ensures Inv(DoDrain(s, c))
  {
    var r := DoDrain(s, c);
    var call := r.calls[c];
    assert CallOk(s, s.calls[c]);
    assert Moves(s, r, c, call);
    DrainPlaced(s, c);
    SortedSlice(s.port.tasks, ReadyCount(s.port.tasks, s.now), |s.port.tasks|);
    FrameKept(s, r, c, call);
  }

  lemma FinishKept(s: Sys, c: nat)
    requires Inv(s) && c < |s.calls| && CanFinish(s.calls[c])
    ensures Inv(DoFinish(s, c))
  {
    var r := DoFinish(s, c);
    var call := r.calls[c];
    assert CallOk(s, s.calls[c]);
    assert Moves(s, r, c, call);
    PlacedMove(s, r, c, call);
    FrameKept(s, r, c, call);
  }

  lemma ParksSafely(s: Sys, deadline: Option<int>, n1: int, n2: int)
    requires Sorted(s.port.tasks)
    requires TakeSection(s.port, deadline, n1, n2).1.Park?
    ensures NothingMissed(s, TakeSection(s.port, deadline, n1, n2).1.until)
  {
    var q, until := s.port.tasks, TakeSection(s.port, deadline, n1, n2).1.until;
    forall t | t in q
      ensures DueBy(t, until)
    {
      var i :| 0 <= i < |q| && q[i] == t;
      if i > 0 { assert Before(q[0], q[i]); }
    }
  }

  lemma TryTakePlaced(s: Sys, c: nat, n1: int, n2: int)
    requires Placed(s) && c < |s.calls| && s.calls[c].Seeking? && s.now <= n1 <= n2
    ensures Placed(DoTryTake(s, c, n1, n2))
  {
    var r := DoTryTake(s, c, n1, n2);
    forall id: nat
      ensures PlacesBalance(s, r, id, InHand(s.calls[c], id), InHand(r.calls[c], id))
    {
      if TakeSection(s.port, Deadline(s.calls[c].role), n1, n2).1.Took? {
        OccursHead(s.port.tasks, id);
        OccursOne(s.port.tasks[0], id);
      }
    }
    PlacedMove(s, r, c, r.calls[c]);
  }

  lemma TryTakeKept(s: Sys, c: nat, n1: int, n2: int)
    requires Inv(s) && c < |s.calls| && s.calls[c].Seeking? && s.now <= n1 <= n2
    ensures Inv(DoTryTake(s, c, n1, n2))
  {
    var r := DoTryTake(s, c, n1, n2);
    var call, role := r.calls[c], s.calls[c].role;
    assert CallOk(s, s.calls[c]);
    assert Moves(s, r, c, call);
    TryTakePlaced(s, c, n1, n2);
    if call.ParkedReady? {
      ParksSafely(s, Deadline(role), n1, n2);
      assert NothingMissed(r, call.until);
    }
    FrameKept(s, r, c, call);
  }

  lemma DrainRestKept(s: Sys, c: nat)
    requires Inv(s) && c < |s.calls| && CanDrainRest(s.calls[c])
    ensures Inv(DoDrainRest(s, c))
  {
    var r := DoDrainRest(s, c);
    var call := r.calls[c];
    assert CallOk(s, s.calls[c]);
    assert Moves(s, r, c, call);
    PlacedMove(s, r, c, call);
    FrameKept(s, r, c, call);
  }

  // ---- activities that join ----------------------------------------------------------

  ghost predicate Joins(s: Sys, r: Sys, more: seq<Call>) {
    r.calls == s.calls + more && r.mode == s.mode && r.parallelism == s.parallelism
  }

  lemma PlacedJoin(s: Sys, r: Sys, more: seq<Call>)
    requires Placed(s) && Joins(s, r, more)
    requires forall id: nat :: PlacesBalance(s, r, id, 0, Total(more, id).held)
    ensures Placed(r)
  {
    forall id: nat
      ensures Places(r, id) == Once(id < |r.accepted|)
    {
      TotalAppend(s.calls, more, id);
      assert Places(s, id) == Once(id < |s.accepted|);
      assert Places(r, id) == Outside(r, id) + Total(r.calls, id).held;
      assert Places(s, id) == Outside(s, id) + Total(s.calls, id).held;
      assert PlacesBalance(s, r, id, 0, Total(more, id).held);
    }
  }

  lemma EntryPlaced(s: Sys, r: Sys, call: Call)
    requires Placed(s) && Joins(s, r, [call])
    requires r == s.(calls := r.calls, contexts := r.contexts)
    requires Idle(call)
    ensures Placed(r)
  {
    forall id: nat
      ensures PlacesBalance(s, r, id, 0, Total([call], id).held)
    {
      TotalSingle(call, id);
    }
    PlacedJoin(s, r, [call]);
  }

  lemma EntryCounted(s: Sys, r: Sys, call: Call)
    requires Counted(s) && Joins(s, r, [call])
    requires r == s.(calls := r.calls, contexts := r.contexts)
    requires Idle(call)
    ensures Counted(r)
  {
    TotalAppend(s.calls, [call], 0);
    TotalSingle(call, 0);
  }

  // A joining activity holds nothing yet and changes no counter.
  lemma EntryKept(s: Sys, r: Sys, call: Call)
    requires Inv(s) && Joins(s, r, [call])
    requires r == s.(calls := r.calls, contexts := r.contexts)
    requires |r.contexts| == |s.contexts| && Unended(r.contexts) == Unended(s.contexts)
    requires CallOk(r, call) && Idle(call)
    requires forall i :: 0 <= i < |s.calls| ==> CallOk(r, s.calls[i])
    requires !call.ParkedReady? && !call.ParkedDrained?
    requires call.Terminating? ==>
               forall i :: 0 <= i < |s.calls| && s.calls[i].Terminating? ==> s.calls[i].owner != call.owner
    ensures Inv(r)
  {
    EntryPlaced(s, r, call);
    EntryCounted(s, r, call);
    NoticesJoin(s, r, [call]);
    assert forall i :: 0 <= i < |r.calls| ==> r.calls[i] == if i < |s.calls| then s.calls[i] else call;
    assert CallsOk(r);
    assert Scoped(r);
    OrderedSame(s, r);
  }

  lemma NoticesJoin(s: Sys, r: Sys, more: seq<Call>)
    requires Awake(s) && Joins(s, r, more) && r.port == s.port
    requires forall k :: 0 <= k < |more| ==> !more[k].ParkedReady? && !more[k].ParkedDrained?
    ensures Awake(r)
    ensures WillDrainRest(s.calls) ==> WillDrainRest(r.calls)
  {
    assert forall i :: 0 <= i < |s.calls| ==> r.calls[i] == s.calls[i];
    assert forall i :: |s.calls| <= i < |r.calls| ==> r.calls[i] == more[i - |s.calls|];
    if ReadyNoticePending(s.calls) {
      var j :| 0 <= j < |s.calls| && GivesReadyNotice(s.calls[j]);
      assert GivesReadyNotice(r.calls[j]);
    }
    if DrainNoticePending(s.calls) {
      var j :| 0 <= j < |s.calls| && s.calls[j].NotifyingDrained?;
      assert r.calls[j].NotifyingDrained?;
    }
    if WillDrainRest(s.calls) {
      var j :| 0 <= j < |s.calls| && s.calls[j].Cancelling? && s.calls[j].rest;
      assert r.calls[j].Cancelling? && r.calls[j].rest;
    }
  }

  lemma {:induction false} UnendedUpdate(contexts: seq<ContextPhase>, k: nat, phase: ContextPhase)
    requires k < |contexts|
    ensures Unended(contexts[k := phase]) + Once(!contexts[k].Ended?) == Unended(contexts) + Once(!phase.Ended?)
    decreases |contexts|
  {
    var n := |contexts| - 1;
    if k == n {
      assert contexts[k := phase][..n] == contexts[..n];
    } else {
      UnendedUpdate(contexts[..n], k, phase);
      assert contexts[k := phase][..n] == contexts[..n][k := phase];
    }
  }

  lemma BeginCalls(s: Sys, r: Sys)
    requires CallsOk(s) && r.contexts == s.contexts && r.mode == s.mode && r.port == s.port
    ensures forall i :: 0 <= i < |s.calls| ==> CallOk(r, s.calls[i])
  {
    forall i | 0 <= i < |s.calls|
      ensures CallOk(r, s.calls[i])
    {
      assert CallOk(s, s.calls[i]);
    }
  }

  lemma BeginTerminateCalls(s: Sys, r: Sys, owner: nat)
    requires CallsOk(s) && owner < |s.contexts| && s.contexts[owner].Live?
    requires r.contexts == s.contexts[owner := Flagged] && r.mode == s.mode && r.port == s.port
    ensures forall i :: 0 <= i < |s.calls| ==> CallOk(r, s.calls[i])
    ensures forall i :: 0 <= i < |s.calls| && s.calls[i].Terminating? ==> s.calls[i].owner != owner
  {
    forall i | 0 <= i < |s.calls|
      ensures CallOk(r, s.calls[i])
      ensures s.calls[i].Terminating? ==> s.calls[i].owner != owner
    {
      assert CallOk(s, s.calls[i]);
    }
  }

  lemma BeginKept(s: Sys, step: Step)
    requires Inv(s) && Enabled(s, step) && (step.BeginSubmit? || step.BeginDispatch? || step.BeginTerminate?)
    ensures Inv(Apply(s, step))
  {
    var r := Apply(s, step);
    var call := r.calls[|s.calls|];
    assert r.calls == s.calls + [call];
    if step.BeginTerminate? {
      UnendedUpdate(s.contexts, step.owner, Flagged);
      BeginTerminateCalls(s, r, step.owner);
    } else {
      BeginCalls(s, r);
    }
    EntryKept(s, r, call);
  }

  lemma AddContextCalls(s: Sys, r: Sys)
    requires CallsOk(s) && r.calls == s.calls && r.mode == s.mode && r.contexts == s.contexts + [Live]
    requires r.port.terminated == s.port.terminated
    ensures CallsOk(r)
  {
    forall i | 0 <= i < |r.calls|
      ensures CallOk(r, r.calls[i])
    {
      assert CallOk(s, s.calls[i]);
    }
  }

  lemma AddContextBooks(s: Sys, r: Sys)
    requires Placed(s) && Counted(s) && Awake(s)
    requires r == s.(contexts := r.contexts, port := s.port.(activeContexts := r.port.activeContexts))
    ensures Placed(r) && Counted(r) && Awake(r)
  {
    forall id: nat
      ensures Places(r, id) == Once(id < |r.accepted|)
    {
      assert Places(s, id) == Once(id < |s.accepted|);
    }
    forall until | NothingMissed(s, until)
      ensures NothingMissed(r, until)
    {
    }
  }

  lemma AddContextScoped(s: Sys, r: Sys)
    requires Scoped(s) && r.calls == s.calls && r.contexts == s.contexts + [Live]
    requires r.port == s.port.(activeContexts := s.port.activeContexts + 1)
    ensures Scoped(r)
  {
    assert r.contexts[..|s.contexts|] == s.contexts;
  }

  lemma AddContextKept(s: Sys)
    requires Inv(s)
    ensures Inv(Apply(s, AddContext))
  {
    var r := Apply(s, AddContext);
    AddContextCalls(s, r);
    AddContextBooks(s, r);
    AddContextScoped(s, r);
    OrderedSame(s, r);
  }
}
