// Whose status it is. A call is reported finished by XAsyncComplete, by a DoWork that returns
// something other than E_PENDING, by a work item the port cancels and by a scheduled pass the
// port refuses; the status and size of a finished call are those of one of its reports, and a
// report of anything but E_PENDING finishes it.

module EngineOutcome {
  import opened Results
  import opened EngineSystem
  import opened EngineInvariant
  import opened EngineRuns
  import opened EngineSections
  import opened EngineTheorems
  import opened EngineSound
  import opened EngineCompletion

  // ---- reports -----------------------------------------------------------------------

  // The step reports call `a` finished, with this status and size.
  predicate Reports(s: Engine, step: Step, a: nat, hr: HResult, size: nat)
    requires Enabled(s, step)
  {
    match step
    case Look(entry) => s.current == a && entry == Report(hr, size)
    case WorkReturns(f, result) => s.tokens[f].a == a && result == hr && hr != E_PENDING && size == 0
    case RunWork(f, canceled) => s.tokens[f].a == a && canceled && hr == E_ABORT && size == 0
    case SubmitWork(f, taken) =>
      s.tokens[f].a == a && !taken && s.tokens[f].stage.completes && hr == E_ABORT && size == 0
    case _ => false
  }

  // One of the run's steps does.
  ghost predicate Reported(s: Engine, steps: seq<Step>, a: nat, hr: HResult, size: nat)
    decreases |steps|
  {
    && steps != [] && Enabled(s, steps[0])
    && (Reports(s, steps[0], a, hr, size) || Reported(Apply(s, steps[0]), steps[1..], a, hr, size))
  }

  // Somebody is on the way to report it.
  predicate Carries(stage: Stage, hr: HResult, size: nat) {
    stage == Completing(hr, size) || stage == Looking(Report(hr, size))
  }

  predicate CarriedBy(tok: Token, a: nat, hr: HResult, size: nat) {
    tok.a == a && Carries(tok.stage, hr, size)
  }

  ghost predicate Carried(s: Engine, a: nat, hr: HResult, size: nat) {
    exists f :: 0 <= f < |s.tokens| && CarriedBy(s.tokens[f], a, hr, size)
  }

  predicate FinishedAs(s: Engine, a: nat, hr: HResult, size: nat) {
    && a < |s.states| && !s.states[a].start.Rejected?
    && s.states[a].inner.status == hr && s.states[a].inner.size == size && hr != E_PENDING
  }

  ghost predicate Known(s: Engine, a: nat, hr: HResult, size: nat) {
    Carried(s, a, hr, size) || FinishedAs(s, a, hr, size)
  }

  // ---- nobody makes up a status ------------------------------------------------------

  // A token that carries a report after its step has just made it, or carried it before.
  lemma CarriesWhatItReports(s: Engine, step: Step, hr: HResult, size: nat)
    requires Moves(step) && Enabled(s, step)
    ensures var tok := s.tokens[step.f];
            var x := React(step, tok.stage, s.states[tok.a], s.callbackSet);
            && !Carries(x.handed, hr, size)
            && (Carries(x.stage, hr, size) ==> Carries(tok.stage, hr, size) || Reports(s, step, tok.a, hr, size))
  {
  }

  // A status that settles is the one its token carried.
  lemma SettlesWhatItCarries(step: Step, stage: Stage, st: CallState, cb: bool)
    requires Moves(step) && Fits(step, stage)
    ensures var st' := Logged(React(step, stage, st, cb));
            || st'.start.Rejected? || Pending(st')
            || (st'.inner.status == st.inner.status && st'.inner.size == st.inner.size && !st.start.Rejected?)
            || (step.CompleteLocked? && stage.result == st'.inner.status && stage.size == st'.inner.size)
            || st.start.Rejected?
  {
  }

  lemma RejectedStays(step: Step, stage: Stage, st: CallState, cb: bool)
    requires Moves(step) && Fits(step, stage) && SoundStage(stage, st)
    ensures st.start.Rejected? ==> Logged(React(step, stage, st, cb)).start.Rejected?
  {
  }

  lemma CarriedBefore(s: Engine, step: Step, g: nat, a: nat, hr: HResult, size: nat)
    requires TokensKnown(s) && Enabled(s, step) && g < |Apply(s, step).tokens|
    requires CarriedBy(Apply(s, step).tokens[g], a, hr, size)
    ensures Carried(s, a, hr, size) || Reports(s, step, a, hr, size)
  {
    var r := Apply(s, step);
    if Moves(step) {
      var tok := s.tokens[step.f];
      CarriesWhatItReports(s, step, hr, size);
      MovedTokens(s, step.f, React(step, tok.stage, s.states[tok.a], s.callbackSet));
      assert r.tokens[g] == React1(s, step).tokens[g];
      if g < |s.tokens| && g != step.f {
        assert CarriedBy(s.tokens[g], a, hr, size);
      } else if g == step.f && Carries(tok.stage, hr, size) {
        assert CarriedBy(s.tokens[g], a, hr, size);
      }
    } else if g < |s.tokens| {
      assert CarriedBy(s.tokens[g], a, hr, size);
    }
  }

  lemma FinishedBefore(s: Engine, step: Step, a: nat, hr: HResult, size: nat)
    requires TokensKnown(s) && SoundCall(s, a) && Enabled(s, step) && FinishedAs(Apply(s, step), a, hr, size)
    ensures Known(s, a, hr, size)
  {
    if Moves(step) {
      var tok := s.tokens[step.f];
      if tok.a == a {
        assert SoundStage(tok.stage, s.states[a]);
        SettlesWhatItCarries(step, tok.stage, s.states[a], s.callbackSet);
        RejectedStays(step, tok.stage, s.states[a], s.callbackSet);
        if step.CompleteLocked? && tok.stage == Completing(hr, size) {
          assert CarriedBy(s.tokens[step.f], a, hr, size);
        }
      }
    }
  }

  lemma {:induction false} NobodyMakesItUp(s: Engine, steps: seq<Step>, a: nat, hr: HResult, size: nat)
    requires Reachable(s) && IsRun(s, steps) && Known(After(s, steps), a, hr, size)
    ensures Known(s, a, hr, size) || Reported(s, steps, a, hr, size)
    decreases |steps|
  {
    if steps != [] {
      var r := Apply(s, steps[0]);
      ReachableStep(s, steps[0]);
      ReachableSound(s, a);
      NobodyMakesItUp(r, steps[1..], a, hr, size);
      if Carried(r, a, hr, size) {
        var g :| 0 <= g < |r.tokens| && CarriedBy(r.tokens[g], a, hr, size);
        CarriedBefore(s, steps[0], g, a, hr, size);
      } else if FinishedAs(r, a, hr, size) {
        FinishedBefore(s, steps[0], a, hr, size);
      }
    }
  }

  // ---- no report is lost -------------------------------------------------------------

  // The call is over, or was rejected, or somebody is still to report it.
  ghost predicate Accounted(s: Engine, a: nat, hr: HResult, size: nat) {
    || Carried(s, a, hr, size)
    || (a < |s.states| && Finished(s.states[a]))
  }

  lemma ReportIsCarried(s: Engine, step: Step, a: nat, hr: HResult, size: nat)
    requires TokensKnown(s) && Enabled(s, step) && Reports(s, step, a, hr, size)
    ensures Carried(Apply(s, step), a, hr, size)
  {
    var r := Apply(s, step);
    if step.Look? {
      assert CarriedBy(r.tokens[|s.tokens|], a, hr, size);
    } else {
      var tok := s.tokens[step.f];
      MovedTokens(s, step.f, React(step, tok.stage, s.states[tok.a], s.callbackSet));
      assert CarriedBy(r.tokens[step.f], a, hr, size);
    }
  }

  // Whoever carries a report goes on carrying it until the status is settled.
  lemma CarrierReports(step: Step, stage: Stage, st: CallState, cb: bool, hr: HResult, size: nat)
    requires Moves(step) && Fits(step, stage) && Carries(stage, hr, size) && hr != E_PENDING
    ensures var x := React(step, stage, st, cb); Carries(x.stage, hr, size) || !Pending(Logged(x))
  {
  }

  lemma OverStaysMove(s: Engine, step: Step, a: nat)
    requires Moves(step) && Enabled(s, step) && SoundCall(s, a) && a < |s.states| && Finished(s.states[a])
    ensures Finished(React1(s, step).states[a])
  {
    if s.tokens[step.f].a == a {
      var stage := s.tokens[step.f].stage;
      assert SoundStage(stage, s.states[a]);
      FinishedStays(step, stage, s.states[a], s.callbackSet);
    }
  }

  lemma FinishedStays(step: Step, stage: Stage, st: CallState, cb: bool)
    requires Moves(step) && Fits(step, stage) && SoundState(st) && SoundStage(stage, st) && Finished(st)
    ensures Finished(Logged(React(step, stage, st, cb)))
  {
    SoundReact(step, stage, st, cb);
  }

  lemma OverStaysOver(s: Engine, step: Step, a: nat)
    requires SoundCall(s, a) && Enabled(s, step) && a < |s.states| && Finished(s.states[a])
    ensures a < |Apply(s, step).states| && Finished(Apply(s, step).states[a])
  {
    if Moves(step) {
      OverStaysMove(s, step, a);
      var m := React1(s, step);
      assert Finished(TakeBlock(m).states[a]);
    }
  }

  lemma AccountedStep(s: Engine, step: Step, a: nat, hr: HResult, size: nat)
    requires Reachable(s) && Enabled(s, step) && Accounted(s, a, hr, size) && hr != E_PENDING
    ensures Accounted(Apply(s, step), a, hr, size)
  {
    ReachableSound(s, a);
    var r := Apply(s, step);
    if a < |s.states| && Finished(s.states[a]) {
      OverStaysOver(s, step, a);
    } else {
      var f :| 0 <= f < |s.tokens| && CarriedBy(s.tokens[f], a, hr, size);
      CarrierStep(s, step, f, a, hr, size);
    }
  }

  lemma CarrierStep(s: Engine, step: Step, f: nat, a: nat, hr: HResult, size: nat)
    requires TokensKnown(s) && Enabled(s, step) && f < |s.tokens| && CarriedBy(s.tokens[f], a, hr, size)
    requires hr != E_PENDING
    ensures Accounted(Apply(s, step), a, hr, size)
  {
    var r := Apply(s, step);
    if Moves(step) {
      var tok := s.tokens[step.f];
      var x := React(step, tok.stage, s.states[tok.a], s.callbackSet);
      MovedTokens(s, step.f, x);
      assert r.tokens == React1(s, step).tokens;
      if step.f == f {
        CarrierReports(step, tok.stage, s.states[a], s.callbackSet, hr, size);
        assert Carries(x.stage, hr, size) ==> CarriedBy(r.tokens[f], a, hr, size);
      } else {
        assert CarriedBy(r.tokens[f], a, hr, size);
      }
    } else {
      assert CarriedBy(r.tokens[f], a, hr, size);
    }
  }

  lemma {:induction false} NoReportIsLost(s: Engine, steps: seq<Step>, a: nat, hr: HResult, size: nat)
    requires Reachable(s) && IsRun(s, steps) && hr != E_PENDING
    requires Accounted(s, a, hr, size) || Reported(s, steps, a, hr, size)
    ensures Accounted(After(s, steps), a, hr, size)
    decreases |steps|
  {
    if steps != [] {
      var r := Apply(s, steps[0]);
      ReachableStep(s, steps[0]);
      if Accounted(s, a, hr, size) {
        AccountedStep(s, steps[0], a, hr, size);
      } else if Reports(s, steps[0], a, hr, size) {
        ReachableSound(s, a);
        ReportIsCarried(s, steps[0], a, hr, size);
      }
      NoReportIsLost(r, steps[1..], a, hr, size);
    }
  }

  // ---- the outcome -------------------------------------------------------------------

  // Nobody is still on the way to report the call.
  ghost predicate NobodyReports(s: Engine, a: nat) {
    forall f :: 0 <= f < |s.tokens| && s.tokens[f].a == a ==>
      !s.tokens[f].stage.Completing? && !(s.tokens[f].stage.Looking? && s.tokens[f].stage.entry.Report?)
  }

  // Over any run from the start: the status and size of a finished call that was let in are
  // those of one report of the run; and, nobody being still on the way to report it, it is
  // finished exactly when there was a report of anything but E_PENDING.
  lemma OutcomeIsReported(callbackSet: bool, steps: seq<Step>, a: nat)
    requires IsRun(IDLE.(callbackSet := callbackSet), steps)
    requires a < |After(IDLE.(callbackSet := callbackSet), steps).states|
    requires !After(IDLE.(callbackSet := callbackSet), steps).states[a].start.Rejected?
    ensures var from := IDLE.(callbackSet := callbackSet);
            var inner := After(from, steps).states[a].inner;
            inner.status != E_PENDING ==> Reported(from, steps, a, inner.status, inner.size)
    ensures var from := IDLE.(callbackSet := callbackSet);
            NobodyReports(After(from, steps), a) ==>
              (After(from, steps).states[a].inner.status != E_PENDING <==>
                 exists hr: HResult, size: nat :: hr != E_PENDING && Reported(from, steps, a, hr, size))
  {
    var from := IDLE.(callbackSet := callbackSet);
    var s := After(from, steps);
    var inner := s.states[a].inner;
    IdleReachable(callbackSet);
    if inner.status != E_PENDING {
      assert FinishedAs(s, a, inner.status, inner.size);
      NobodyMakesItUp(from, steps, a, inner.status, inner.size);
    }
    forall hr: HResult, size: nat | hr != E_PENDING && Reported(from, steps, a, hr, size) && NobodyReports(s, a)
      ensures inner.status != E_PENDING
    {
      NoReportIsLost(from, steps, a, hr, size);
    }
  }

  // So with one report, or several that say the same, the outcome is what it says: the DoWork
  // that returns `hr` when nobody else reports leaves the status `hr`.
  lemma SoleReportDecides(callbackSet: bool, steps: seq<Step>, a: nat, hr: HResult, size: nat)
    requires IsRun(IDLE.(callbackSet := callbackSet), steps)
    requires a < |After(IDLE.(callbackSet := callbackSet), steps).states|
    requires !After(IDLE.(callbackSet := callbackSet), steps).states[a].start.Rejected?
    requires NobodyReports(After(IDLE.(callbackSet := callbackSet), steps), a)
    requires hr != E_PENDING && Reported(IDLE.(callbackSet := callbackSet), steps, a, hr, size)
    requires forall hr': HResult, size': nat :: Reported(IDLE.(callbackSet := callbackSet), steps, a, hr', size') ==>
               hr' == hr && size' == size
    ensures After(IDLE.(callbackSet := callbackSet), steps).states[a].inner.status == hr
    ensures After(IDLE.(callbackSet := callbackSet), steps).states[a].inner.size == size
  {
    var from := IDLE.(callbackSet := callbackSet);
    var inner := After(from, steps).states[a].inner;
    IdleReachable(callbackSet);
    NoReportIsLost(from, steps, a, hr, size);
    assert inner.status != E_PENDING;
    OutcomeIsReported(callbackSet, steps, a);
    assert Reported(from, steps, a, inner.status, inner.size);
  }

  // What Begin answers is what becomes of the call: it is let in exactly on S_OK, which leaves
  // its status to the reports, and on anything else it is rejected with that status.
  lemma BeginDecides(s: Engine, f: nat, hr: HResult)
    requires Reachable(s) && Enabled(s, BeginReturns(f, hr))
    ensures var r, a := Apply(s, BeginReturns(f, hr)), s.tokens[f].a;
            && (r.states[a].start.Started? <==> hr == S_OK) && (r.states[a].start.Rejected? <==> hr != S_OK)
            && (hr == S_OK ==> r.states[a].inner == s.states[a].inner)
            && (hr != S_OK ==> r.states[a].inner.status == hr && r.tokens[f] == Token(a, Cleaning(false)))
  {
  }
}
