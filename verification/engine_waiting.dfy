// XAsyncGetStatus(wait) parks on `completed` until the call is over. Every completion that
// counts notifies it; a rejected Begin does not.

module EngineWaiting {
  import opened Results
  import opened EngineSections
  import opened EngineSystem
  import opened EngineInvariant
  import opened EngineRuns
  import opened EngineSound
  import opened EngineCompletion

  // Parked, and not notified since.
  predicate Asleep(s: Engine, f: nat, a: nat)
    requires f < |s.tokens| && a < |s.states|
  {
    s.tokens[f].a == a && s.tokens[f].stage.Parked? && s.tokens[f].stage.seen == s.states[a].notices
  }

  // Somebody is between settling the status and notifying.
  ghost predicate NoticeComing(s: Engine, a: nat) {
    exists g :: 0 <= g < |s.tokens| && s.tokens[g] == Token(a, Delivering)
  }

  ghost predicate MaySleep(s: Engine, a: nat)
    requires a < |s.states|
  {
    Pending(s.states[a]) || s.states[a].start.Rejected? || NoticeComing(s, a)
  }

  ghost predicate NobodyMissesIt(s: Engine, a: nat) {
    a < |s.states| ==> forall f :: 0 <= f < |s.tokens| && Asleep(s, f, a) ==> MaySleep(s, a)
  }

  ghost predicate WaitTo(stage: Stage, st: CallState, r: Reaction) {
    && st.notices <= r.st.notices
    && (stage.Delivering? ==> st.notices < r.st.notices)
    && (r.st.notices != st.notices ==> stage.Delivering?)
    && (Pending(st) && !Pending(r.st) ==> r.stage.Delivering? || r.st.start.Rejected?)
    && (!Pending(st) && Pending(r.st) ==> r.st.start.Rejected?)
    && (r.stage.Parked? ==> Pending(r.st)) && !r.handed.Parked?
    && (r.stage.Delivering? ==> Pending(st)) && !r.handed.Delivering?
  }

  lemma WaitReact(step: Step, stage: Stage, st: CallState, cb: bool)
    requires Moves(step) && Fits(step, stage)
    ensures WaitTo(stage, st, React(step, stage, st, cb))
  {
  }

  lemma WaitMoved(s: Engine, f: nat, x: Reaction, a: nat)
    requires f < |s.tokens| && s.tokens[f].a == a && a < |s.states|
    requires SoundCall(s, a) && SoundTo(s.tokens[f].stage, s.states[a], x) && WaitTo(s.tokens[f].stage, s.states[a], x)
    requires NobodyMissesIt(s, a)
    ensures NobodyMissesIt(Moved(s, f, x), a)
  {
    MovedTokens(s, f, x);
    var r := Moved(s, f, x);
    forall g | 0 <= g < |r.tokens| && Asleep(r, g, a)
      ensures MaySleep(r, a)
    {
      if x.stage.Delivering? {
        assert r.tokens[f] == Token(a, Delivering);
      } else if g < |s.tokens| && g != f {
        assert SoundStage(s.tokens[g].stage, s.states[a]) && Asleep(s, g, a);
        if NoticeComing(s, a) {
          NoticeStays(s, f, x, a);
        }
      }
    }
  }

  lemma NoticeStays(s: Engine, f: nat, x: Reaction, a: nat)
    requires f < |s.tokens| && s.tokens[f].a == a && a < |s.states| && !s.tokens[f].stage.Delivering?
    ensures NoticeComing(s, a) ==> NoticeComing(Moved(s, f, x), a)
  {
    MovedTokens(s, f, x);
    if NoticeComing(s, a) {
      var g :| 0 <= g < |s.tokens| && s.tokens[g] == Token(a, Delivering);
      assert Moved(s, f, x).tokens[g] == Token(a, Delivering);
    }
  }

  lemma WaitElsewhere(s: Engine, f: nat, x: Reaction, a: nat)
    requires f < |s.tokens| && s.tokens[f].a < |s.states| && s.tokens[f].a != a && NobodyMissesIt(s, a)
    ensures NobodyMissesIt(Moved(s, f, x), a)
  {
    MovedTokens(s, f, x);
    var r := Moved(s, f, x);
    if NoticeComing(s, a) {
      var g :| 0 <= g < |s.tokens| && s.tokens[g] == Token(a, Delivering);
      assert r.tokens[g] == Token(a, Delivering);
    }
    forall g | 0 <= g < |r.tokens| && a < |r.states| && Asleep(r, g, a)
      ensures g < |s.tokens| && Asleep(s, g, a)
    {
    }
  }

  lemma WaitEntry(s: Engine, step: Step, a: nat)
    requires TokensKnown(s) && Enabled(s, step) && (step.Look? || step.Begin?) && NobodyMissesIt(s, a)
    ensures NobodyMissesIt(Apply(s, step), a)
  {
    var r := Apply(s, step);
    forall g | 0 <= g < |s.tokens|
      ensures r.tokens[g] == s.tokens[g]
    {
    }
    if NoticeComing(s, a) {
      var g :| 0 <= g < |s.tokens| && s.tokens[g] == Token(a, Delivering);
      assert r.tokens[g] == Token(a, Delivering);
    }
    forall g | 0 <= g < |r.tokens| && a < |r.states| && Asleep(r, g, a)
      ensures g < |s.tokens| && a < |s.states| && Asleep(s, g, a)
    {
    }
  }

  // The block's reference has no part in it.
  lemma WaitTaken(m: Engine, r: Engine, a: nat)
    requires r.tokens == m.tokens && |r.states| == |m.states| && NobodyMissesIt(m, a)
    requires a < |m.states| ==> SameButReference(m.states[a], r.states[a])
    ensures NobodyMissesIt(r, a)
  {
    if NoticeComing(m, a) {
      var g :| 0 <= g < |m.tokens| && m.tokens[g] == Token(a, Delivering);
      assert r.tokens[g] == Token(a, Delivering);
    }
    forall g | 0 <= g < |r.tokens| && a < |r.states|
      ensures Asleep(r, g, a) == Asleep(m, g, a)
    {
    }
  }

  lemma WaitStep(s: Engine, step: Step, a: nat)
    requires TokensKnown(s) && SoundCall(s, a) && Enabled(s, step) && NobodyMissesIt(s, a)
    ensures NobodyMissesIt(Apply(s, step), a)
  {
    if Moves(step) {
      var tok, m := s.tokens[step.f], React1(s, step);
      var x := React(step, tok.stage, s.states[tok.a], s.callbackSet);
      if tok.a == a {
        assert SoundStage(tok.stage, s.states[a]);
        SoundReact(step, tok.stage, s.states[a], s.callbackSet);
        WaitReact(step, tok.stage, s.states[a], s.callbackSet);
        WaitMoved(s, step.f, x, a);
      } else {
        WaitElsewhere(s, step.f, x, a);
      }
      WaitTaken(m, Apply(s, step), a);
    } else if step.SetCallback? {
      WaitTaken(s, Apply(s, step), a);
    } else {
      WaitEntry(s, step, a);
    }
  }

  lemma {:induction false} WaitRun(s: Engine, steps: seq<Step>, a: nat)
    requires TokensKnown(s) && SoundCall(s, a) && NobodyMissesIt(s, a) && IsRun(s, steps)
    ensures NobodyMissesIt(After(s, steps), a)
    decreases |steps|
  {
    if steps != [] {
      WaitStep(s, steps[0], a);
      SoundStep(s, steps[0], a);
      StepExtends(s, steps[0]);
      WaitRun(Apply(s, steps[0]), steps[1..], a);
    }
  }

  // A waiter asleep on a call that is over will be notified: a completion is on its way to do
  // it. The exception is a call whose Begin was rejected.
  lemma NoLostCompletion(s: Engine, f: nat, a: nat)
    requires Reachable(s) && f < |s.tokens| && a < |s.states| && Asleep(s, f, a)
    ensures Pending(s.states[a]) || s.states[a].start.Rejected? || NoticeComing(s, a)
  {
    var callbackSet: bool, steps: seq<Step> :| Reaches(callbackSet, steps, s);
    WaitRun(IDLE.(callbackSet := callbackSet), steps, a);
  }

  // ---- when the notice comes at all --------------------------------------------------

  ghost predicate NoNotice(s: Engine, a: nat, notices: nat) {
    && a < |s.states| && !Pending(s.states[a]) && !s.states[a].start.Starting?
    && s.states[a].notices == notices && !NoticeComing(s, a)
  }

  // An XAsyncGetStatus that waits, from its lookup on, until it has seen a status to return.
  predicate WaitsFor(stage: Stage) {
    stage == Looking(Status(true)) || stage == Polling(true) || stage.Parked?
  }

  lemma WaitsOnReact(step: Step, stage: Stage, st: CallState, cb: bool)
    requires Moves(step) && Fits(step, stage) && WaitsFor(stage)
    ensures var x := React(step, stage, st, cb);
            && x.handed.Over? && Logged(x).inner == st.inner
            && (WaitsFor(x.stage) || (step.Poll? && !Pending(st)))
            && (step.Poll? && !Pending(st) ==> !WaitsFor(x.stage))
  {
  }

  // It goes on waiting through every step of anybody until it tests the status itself and
  // finds the call no longer pending; then it stops.
  lemma WaitsUntilSettled(s: Engine, step: Step, f: nat)
    requires Reachable(s) && Enabled(s, step) && f < |s.tokens| && WaitsFor(s.tokens[f].stage)
    ensures f < |Apply(s, step).tokens| && s.tokens[f].a < |s.states|
    ensures WaitsFor(Apply(s, step).tokens[f].stage) <==> !(step == Poll(f) && !Pending(s.states[s.tokens[f].a]))
  {
    ReachableInv(s);
    if Moves(step) {
      var tok := s.tokens[step.f];
      MovedTokens(s, step.f, React(step, tok.stage, s.states[tok.a], s.callbackSet));
      assert Apply(s, step).tokens == React1(s, step).tokens;
      if step.f == f {
        WaitsOnReact(step, tok.stage, s.states[tok.a], s.callbackSet);
      }
    }
  }

  lemma NoNoticeMoved(s: Engine, f: nat, x: Reaction, a: nat)
    requires f < |s.tokens| && s.tokens[f].a < |s.states| && a < |s.states| && NoNotice(s, a, s.states[a].notices)
    requires WaitTo(s.tokens[f].stage, s.states[s.tokens[f].a], x)
    ensures Moved(s, f, x).states[a].notices == s.states[a].notices && !NoticeComing(Moved(s, f, x), a)
  {
    MovedTokens(s, f, x);
    if s.tokens[f].a == a {
      assert s.tokens[f] == Token(a, s.tokens[f].stage);
    }
  }

  lemma NoNoticeStep(s: Engine, step: Step, a: nat)
    requires TokensKnown(s) && SoundCall(s, a) && Enabled(s, step)
    requires a < |s.states| && NoNotice(s, a, s.states[a].notices)
    ensures NoNotice(Apply(s, step), a, s.states[a].notices)
  {
    var r := Apply(s, step);
    OutcomeKept(s, step, a);
    if Moves(step) {
      var tok := s.tokens[step.f];
      WaitReact(step, tok.stage, s.states[tok.a], s.callbackSet);
      NoNoticeMoved(s, step.f, React(step, tok.stage, s.states[tok.a], s.callbackSet), a);
      assert r.tokens == React1(s, step).tokens;
    } else {
      forall g | 0 <= g < |r.tokens| && r.tokens[g] == Token(a, Delivering)
        ensures g < |s.tokens| && s.tokens[g] == Token(a, Delivering)
      {
      }
    }
  }

  lemma {:induction false} NoNoticeEver(s: Engine, steps: seq<Step>, a: nat)
    requires TokensKnown(s) && SoundCall(s, a) && IsRun(s, steps)
    requires a < |s.states| && NoNotice(s, a, s.states[a].notices)
    ensures a < |After(s, steps).states| && After(s, steps).states[a].notices == s.states[a].notices
    decreases |steps|
  {
    if steps != [] {
      NoNoticeStep(s, steps[0], a);
      SoundStep(s, steps[0], a);
      StepExtends(s, steps[0]);
      NoNoticeEver(Apply(s, steps[0]), steps[1..], a);
    }
  }

  ghost predicate Notifies(s: Engine, steps: seq<Step>, a: nat) {
    IsRun(s, steps) && a < |s.states| && a < |After(s, steps).states| &&
    After(s, steps).states[a].notices > s.states[a].notices
  }

  // Once Begin has returned and the status is settled, waiters can still be notified exactly
  // when a completion has not got round to it yet; so a waiter asleep on a rejected call that
  // nobody completed sleeps on, whatever happens.
  lemma NotifiedExactly(s: Engine, a: nat)
    requires Reachable(s) && a < |s.states| && !Pending(s.states[a]) && !s.states[a].start.Starting?
    ensures (exists steps: seq<Step> :: Notifies(s, steps, a)) <==> NoticeComing(s, a)
  {
    ReachableSound(s, a);
    if NoticeComing(s, a) {
      var g :| 0 <= g < |s.tokens| && s.tokens[g] == Token(a, Delivering);
      WaitReact(ReadCallback(g), Delivering, s.states[a], s.callbackSet);
      OneStep(s, ReadCallback(g));
      assert Notifies(s, [ReadCallback(g)], a);
    } else {
      forall steps: seq<Step> | Notifies(s, steps, a)
        ensures false
      {
        NoNoticeEver(s, steps, a);
      }
    }
  }

  // The exception happens: a waiter parks while the provider's Begin is under way, ...
  lemma WaiterParksEarly() returns (s: Engine)
    ensures Reachable(s) && s.tokens == [Token(0, Beginning), Token(0, Parked(0))]
    ensures |s.states| == 1 && s.states[0].inner == FRESH && s.states[0].notices == 0
  {
    IdleReachable(false);
    var s1 := Apply(IDLE, Begin);
    ReachableStep(IDLE, Begin);
    var s2 := Apply(s1, Look(Status(true)));
    ReachableStep(s1, Look(Status(true)));
    assert s2.tokens == [Token(0, Beginning), Token(0, Looking(Status(true)))] && s2.states == [BEGUN];
    var s3 := Apply(s2, Clone(1));
    ReachableStep(s2, Clone(1));
    assert s3.tokens == [Token(0, Beginning), Token(0, Polling(true))] && s3.states[0].inner == FRESH;
    s := Apply(s3, Poll(1));
    ReachableStep(s3, Poll(1));
    assert s.tokens == [Token(0, Beginning), Token(0, Parked(0))];
  }

  // ... and the provider rejects the call.
  lemma RejectedWaiterSleepsOn() returns (s: Engine)
    ensures Reachable(s) && |s.tokens| == 2 && |s.states| == 1 && Asleep(s, 1, 0)
    ensures s.states[0].start.Rejected? && s.states[0].inner.status == E_FAIL && !NoticeComing(s, 0)
  {
    var s1 := WaiterParksEarly();
    s := Apply(s1, BeginReturns(0, E_FAIL));
    ReachableStep(s1, BeginReturns(0, E_FAIL));
    assert s.tokens == [Token(0, Cleaning(false)), Token(0, Parked(0))];
  }
}
