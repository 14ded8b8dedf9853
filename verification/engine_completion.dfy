// One call's completion under every interleaving: how often it counts, how often it is
// delivered, and that its status and size are fixed once it is over.

module EngineCompletion {
  import opened Results
  import opened EngineSystem
  import opened EngineInvariant
  import opened EngineRuns
  import opened EngineTheorems
  import opened EngineSound
  import opened Basics

  // However many providers, cancellations and terminated ports report a call finished, the
  // reports that count are those of E_PENDING and one that settles the status.
  lemma CompletionsCounted(s: Engine, a: nat)
    requires Reachable(s) && a < |s.states|
    ensures var st := s.states[a];
            && st.completions <= st.reopened + Once(st.inner.status != E_PENDING)
            && (!st.start.Rejected? ==> st.completions == st.reopened + Once(st.inner.status != E_PENDING))
  {
    ReachableSound(s, a);
  }

  // The callback of a call never reported as E_PENDING is never invoked twice, and only once
  // the call is over.
  lemma NeverDeliveredTwice(s: Engine, a: nat)
    requires Reachable(s) && a < |s.states| && s.states[a].reopened == 0
    ensures s.states[a].delivered <= 1
    ensures s.states[a].delivered == 1 ==> s.states[a].inner.status != E_PENDING
  {
    CompletionsCounted(s, a);
    CompletionsAccountedFor(s, a);
  }

  // When nobody holds a reference any more, a call that is finished and was not rejected has
  // been delivered, or found no callback set, once for each report that counted; so, its
  // callback being set, it was delivered exactly once exactly when no report of E_PENDING
  // counted.
  lemma DeliveredExactlyOnce(s: Engine, a: nat)
    requires Reachable(s) && a < |s.states| && NobodyHolds(s, a) && !s.states[a].start.Rejected?
    ensures var st := s.states[a];
            && st.delivered + st.silent == st.reopened + Once(st.inner.status != E_PENDING)
            && (st.inner.status != E_PENDING && st.silent == 0 ==> (st.delivered == 1 <==> st.reopened == 0))
            && (st.inner.status == E_PENDING && st.reopened == 0 ==> st.delivered == 0)
  {
    CompletionsCounted(s, a);
    CompletionsAccountedFor(s, a);
  }

  // A callback is set when the engine looks for call `a`'s.
  predicate FindsCallback(s: Engine, step: Step, a: nat)
    requires Enabled(s, step)
  {
    step.ReadCallback? && s.tokens[step.f].a == a ==> s.callbackSet
  }

  ghost predicate CallbackKeptSet(s: Engine, steps: seq<Step>, a: nat)
    decreases |steps|
  {
    steps == []
    || (Enabled(s, steps[0]) && FindsCallback(s, steps[0], a) && CallbackKeptSet(Apply(s, steps[0]), steps[1..], a))
  }

  lemma SilentMove(s: Engine, step: Step, a: nat)
    requires Moves(step) && Enabled(s, step) && FindsCallback(s, step, a) && a < |s.states|
    ensures React1(s, step).states[a].silent == s.states[a].silent
  {
  }

  // `silent` stays zero while a callback is set each time it is looked for.
  lemma {:induction false} NeverSilent(s: Engine, steps: seq<Step>, a: nat)
    requires TokensKnown(s) && CallbackKeptSet(s, steps, a) && IsRun(s, steps)
    requires a < |s.states| ==> s.states[a].silent == 0
    ensures a < |After(s, steps).states| ==> After(s, steps).states[a].silent == 0
    decreases |steps|
  {
    if steps != [] {
      var r := Apply(s, steps[0]);
      StepExtends(s, steps[0]);
      if Moves(steps[0]) && a < |s.states| {
        SilentMove(s, steps[0], a);
      }
      assert a < |r.states| ==> r.states[a].silent == 0;
      NeverSilent(r, steps[1..], a);
    }
  }

  // The same from the start of a run: with a callback set whenever it is looked for, a
  // finished call nobody holds has been delivered exactly once exactly when no report of
  // E_PENDING counted.
  lemma DeliveredExactlyOnceWithCallback(steps: seq<Step>, a: nat, callbackSet: bool)
    requires var from := IDLE.(callbackSet := callbackSet); IsRun(from, steps) && CallbackKeptSet(from, steps, a)
    ensures var s := After(IDLE.(callbackSet := callbackSet), steps);
            a < |s.states| && NobodyHolds(s, a) && s.states[a].inner.status != E_PENDING && !s.states[a].start.Rejected?
            ==> (s.states[a].delivered == 1 <==> s.states[a].reopened == 0)
  {
    var from := IDLE.(callbackSet := callbackSet);
    var s := After(from, steps);
    NeverSilent(from, steps, a);
    assert Reaches(callbackSet, steps, s);
    if a < |s.states| && NobodyHolds(s, a) && !s.states[a].start.Rejected? {
      DeliveredExactlyOnce(s, a);
    }
  }

  // ---- a callback delivered twice ----------------------------------------------------

  // The block names a pending call.
  predicate Awaits(s: Engine) {
    s.named && s.current < |s.states| && s.states[s.current].inner.status == E_PENDING
  }

  lemma Onward(s: Engine, m: Engine, step: Step)
    requires Reachable(m) && Leads(s, m) && Enabled(m, step)
    ensures Reachable(Apply(m, step)) && Leads(s, Apply(m, step))
  {
    ReachableStep(m, step);
    LeadsOn(s, m, step);
  }

  // Somebody reports it finished and gets as far as the callback's box.
  lemma ReportCounts(s: Engine, result: HResult) returns (r: Engine)
    requires Reachable(s) && Awaits(s)
    ensures Leads(s, r)
    ensures Reachable(r) && |r.tokens| == |s.tokens| + 1 && |r.states| == |s.states|
    ensures r.tokens[|s.tokens|] == Token(s.current, Delivering)
    ensures forall g :: 0 <= g < |s.tokens| ==> r.tokens[g] == s.tokens[g]
    ensures r.callbackSet == s.callbackSet && r.named && r.current == s.current
    ensures var st, st' := s.states[s.current], r.states[s.current];
            && st'.inner == st.inner.(status := result, size := 0) && st'.start == st.start
            && st'.delivered == st.delivered && st'.strong == st.strong + 1
  {
    var f, a := |s.tokens|, s.current;
    NeverUsedAfterFree(s, a);
    LeadsSelf(s);
    var s1 := Apply(s, Look(Report(result, 0)));
    Onward(s, s, Look(Report(result, 0)));
    assert s1.tokens[f] == Token(a, Looking(Report(result, 0))) && s1.states == s.states;
    var s2 := Apply(s1, Clone(f));
    Onward(s, s1, Clone(f));
    assert s2.tokens[f] == Token(a, Completing(result, 0)) && s2.states[a].inner == s.states[a].inner;
    r := Apply(s2, CompleteLocked(f));
    Onward(s, s2, CompleteLocked(f));
  }

  // The completion port refuses the box, and the callback is invoked inline.
  lemma InlineDelivery(s: Engine, f: nat) returns (r: Engine)
    requires Reachable(s) && s.callbackSet && s.named && s.current < |s.states|
    requires f < |s.tokens| && s.tokens[f] == Token(s.current, Delivering)
    ensures Reachable(r) && |r.tokens| == |s.tokens| && |r.states| == |s.states|
    ensures r.callbackSet && r.named && r.current == s.current
    ensures var st, st' := s.states[s.current], r.states[s.current];
            st'.inner == st.inner && st'.delivered == st.delivered + 1
  {
    var a := s.current;
    var s1 := Apply(s, ReadCallback(f));
    ReachableStep(s, ReadCallback(f));
    assert s1.tokens[f] == Token(a, Posting) && s1.states[a].delivered == s.states[a].delivered;
    r := Apply(s1, Post(f, false));
    ReachableStep(s1, Post(f, false));
  }

  // The excluded case happens: a call reported as E_PENDING and then as S_OK invokes its
  // callback twice.
  lemma DeliveredTwice() returns (s: Engine)
    ensures Reachable(s) && |s.states| == 1 && s.states[0].delivered == 2 && s.states[0].inner.status == S_OK
  {
    IdleReachable(true);
    var s0 := IDLE.(callbackSet := true);
    ReachableStep(s0, Begin);
    var s1 := Apply(s0, Begin);
    var s2 := ReportCounts(s1, E_PENDING);
    var s3 := InlineDelivery(s2, |s1.tokens|);
    var s4 := ReportCounts(s3, S_OK);
    s := InlineDelivery(s4, |s3.tokens|);
  }

  // ---- status and size are fixed -----------------------------------------------------

  predicate SameOutcome(st: CallState, st': CallState) {
    && st'.inner.status == st.inner.status
    && st'.inner.size == st.inner.size
    && st'.start == st.start
  }

  // Once Begin has returned and the call is settled, nothing changes its status or size
  // again, whoever else reports it finished.
  lemma FixedMove(step: Step, stage: Stage, st: CallState, cb: bool)
    requires Moves(step) && Fits(step, stage) && !stage.Beginning? && st.inner.status != E_PENDING
    ensures SameOutcome(st, React(step, stage, st, cb).st)
  {
  }

  lemma OutcomeKeptMove(s: Engine, step: Step, a: nat)
    requires Moves(step) && Enabled(s, step) && SoundCall(s, a) && a < |s.states|
    requires !s.states[a].start.Starting? && s.states[a].inner.status != E_PENDING
    ensures SameOutcome(s.states[a], React1(s, step).states[a])
  {
    if s.tokens[step.f].a == a {
      assert SoundStage(s.tokens[step.f].stage, s.states[a]);
      FixedMove(step, s.tokens[step.f].stage, s.states[a], s.callbackSet);
    }
  }

  lemma OutcomeKept(s: Engine, step: Step, a: nat)
    requires Enabled(s, step) && SoundCall(s, a) && a < |s.states|
    requires !s.states[a].start.Starting? && s.states[a].inner.status != E_PENDING
    ensures a < |Apply(s, step).states| && SameOutcome(s.states[a], Apply(s, step).states[a])
  {
    if Moves(step) {
      OutcomeKeptMove(s, step, a);
      var m := React1(s, step);
      assert SameOutcome(m.states[a], TakeBlock(m).states[a]);
    }
  }

  lemma {:induction false} StatusIsFixed(s: Engine, steps: seq<Step>, a: nat)
    requires TokensKnown(s) && SoundCall(s, a) && IsRun(s, steps) && a < |s.states|
    requires !s.states[a].start.Starting? && s.states[a].inner.status != E_PENDING
    ensures a < |After(s, steps).states| && SameOutcome(s.states[a], After(s, steps).states[a])
    decreases |steps|
  {
    if steps != [] {
      OutcomeKept(s, steps[0], a);
      StepExtends(s, steps[0]);
      SoundStep(s, steps[0], a);
      StatusIsFixed(Apply(s, steps[0]), steps[1..], a);
    }
  }

  lemma ReachableStatusIsFixed(s: Engine, steps: seq<Step>, a: nat)
    requires Reachable(s) && IsRun(s, steps) && a < |s.states|
    requires !s.states[a].start.Starting? && s.states[a].inner.status != E_PENDING
    ensures a < |After(s, steps).states|
    ensures After(s, steps).states[a].inner.status == s.states[a].inner.status
    ensures After(s, steps).states[a].inner.size == s.states[a].inner.size
  {
    ReachableSound(s, a);
    StatusIsFixed(s, steps, a);
  }
}
