// What every call's status, start and completions come to, and what its frames may count
// on: a second set of invariants, again of every reachable state.

module EngineSound {
  import opened Results
  import opened EngineSystem
  import opened EngineInvariant
  import opened EngineRuns
  import opened Basics

  predicate Pending(st: CallState) {
    st.inner.status == E_PENDING
  }

  // The call is over: completed, or its Begin rejected.
  predicate Finished(st: CallState) {
    !Pending(st) || st.start.Rejected?
  }

  // Every completion that counted reported E_PENDING, but for one that settled the status;
  // of a call whose Begin was rejected at most that.
  predicate Tallied(st: CallState) {
    var settled := st.reopened + Once(st.inner.status != E_PENDING);
    st.completions <= settled && (!st.start.Rejected? ==> st.completions == settled)
  }

  predicate SoundState(st: CallState) {
    Tallied(st) && (st.inner.cleanedUp ==> Finished(st))
  }

  // Begin is under way only until it returns, only finished calls are answered or released,
  // and only a rejected one by a frame that is not a read.
  predicate SoundStage(stage: Stage, st: CallState) {
    && (stage.Beginning? ==> st.start.Starting?)
    && (stage.Answering? || Releases(stage) ==> Finished(st))
    && (Releases(stage) && !stage.reader ==> st.start.Rejected?)
    && (stage.Parked? ==> stage.seen <= st.notices)
  }

  ghost predicate SoundTokens(s: Engine, a: nat)
    requires a < |s.states|
  {
    forall f :: 0 <= f < |s.tokens| && s.tokens[f].a == a ==> SoundStage(s.tokens[f].stage, s.states[a])
  }

  predicate Begins(s: Engine, f: nat, a: nat)
    requires f < |s.tokens|
  {
    s.tokens[f].a == a && s.tokens[f].stage.Beginning?
  }

  ghost predicate OneBegin(s: Engine, a: nat) {
    forall f, g :: 0 <= f < |s.tokens| && 0 <= g < |s.tokens| && Begins(s, f, a) && Begins(s, g, a) ==> f == g
  }

  ghost predicate SoundCall(s: Engine, a: nat) {
    OneBegin(s, a) && (a < |s.states| ==> SoundState(s.states[a]) && SoundTokens(s, a))
  }

  // ---- one token moves on ------------------------------------------------------------

  ghost predicate SoundTo(stage: Stage, st: CallState, r: Reaction) {
    && SoundState(Logged(r)) && SoundStage(r.stage, Logged(r)) && SoundStage(r.handed, Logged(r))
    && !r.stage.Beginning? && !r.handed.Beginning?
    && (r.st.start != st.start ==> stage.Beginning? && !r.st.start.Starting?)
    && (st.start.Rejected? ==> r.st.start.Rejected?)
    && (Finished(st) ==> Finished(r.st))
    && st.notices <= r.st.notices
  }

  lemma SoundBegin(step: Step, st: CallState, cb: bool)
    requires step.BeginReturns? && SoundState(st) && st.start.Starting?
    ensures SoundTo(Beginning, st, React(step, Beginning, st, cb))
  {
  }

  lemma SoundProvider(step: Step, stage: Stage, st: CallState, cb: bool)
    requires Moves(step) && Fits(step, stage) && SoundState(st) && SoundStage(stage, st)
    requires step.Clone? || step.SubmitWork? || step.RunWork? || step.WorkReturns?
    ensures SoundTo(stage, st, React(step, stage, st, cb))
  {
  }

  lemma SoundCompletion(step: Step, stage: Stage, st: CallState, cb: bool)
    requires Moves(step) && Fits(step, stage) && SoundState(st) && SoundStage(stage, st)
    requires step.CompleteLocked? || step.ReadCallback? || step.Post? || step.InlineReturns? ||
             step.RunCompletion? || step.CallbackReturns?
    ensures SoundTo(stage, st, React(step, stage, st, cb))
  {
  }

  lemma SoundRead(step: Step, stage: Stage, st: CallState, cb: bool)
    requires Moves(step) && Fits(step, stage) && SoundState(st) && SoundStage(stage, st)
    requires step.Poll? || step.Wake? || step.Fetch? || step.Answer? || step.Clean? || step.SendCleanup? || step.Take?
    ensures SoundTo(stage, st, React(step, stage, st, cb))
  {
  }

  lemma SoundCancel(step: Step, stage: Stage, st: CallState, cb: bool)
    requires Moves(step) && Fits(step, stage) && SoundState(st) && SoundStage(stage, st)
    requires step.CancelTest? || step.SendCancel? || step.Recheck? || step.Drop?
    ensures SoundTo(stage, st, React(step, stage, st, cb))
  {
  }

  lemma SoundReact(step: Step, stage: Stage, st: CallState, cb: bool)
    requires Moves(step) && Fits(step, stage) && SoundState(st) && SoundStage(stage, st)
    ensures SoundTo(stage, st, React(step, stage, st, cb))
  {
    if step.BeginReturns? {
      SoundBegin(step, st, cb);
    } else if step.Clone? || step.SubmitWork? || step.RunWork? || step.WorkReturns? {
      SoundProvider(step, stage, st, cb);
    } else if step.CompleteLocked? || step.ReadCallback? || step.Post? || step.InlineReturns? || step.RunCompletion?
              || step.CallbackReturns? {
      SoundCompletion(step, stage, st, cb);
    } else if step.CancelTest? || step.SendCancel? || step.Recheck? || step.Drop? {
      SoundCancel(step, stage, st, cb);
    } else {
      SoundRead(step, stage, st, cb);
    }
  }

  lemma BystanderSound(other: Stage, stage: Stage, st: CallState, r: Reaction)
    requires SoundStage(other, st) && SoundTo(stage, st, r)
    requires stage.Beginning? ==> !other.Beginning?
    ensures SoundStage(other, Logged(r))
  {
  }

  // ---- every step --------------------------------------------------------------------

  lemma SoundMove(s: Engine, step: Step)
    requires Moves(step) && Enabled(s, step) && SoundCall(s, s.tokens[step.f].a)
    ensures SoundCall(React1(s, step), s.tokens[step.f].a)
  {
    var f, tok := step.f, s.tokens[step.f];
    var st := s.states[tok.a];
    var x := React(step, tok.stage, st, s.callbackSet);
    SoundReact(step, tok.stage, st, s.callbackSet);
    MovedTokens(s, f, x);
    forall g | 0 <= g < |s.tokens| && g != f && s.tokens[g].a == tok.a
      ensures SoundStage(s.tokens[g].stage, Logged(x))
    {
      assert !(Begins(s, f, tok.a) && Begins(s, g, tok.a));
      BystanderSound(s.tokens[g].stage, tok.stage, st, x);
    }
    OneBeginMove(s, f, x, tok.a);
  }

  lemma OneBeginMove(s: Engine, f: nat, x: Reaction, a: nat)
    requires f < |s.tokens| && s.tokens[f].a < |s.states| && OneBegin(s, a)
    requires s.tokens[f].a == a ==> !x.stage.Beginning? && !x.handed.Beginning?
    ensures OneBegin(Moved(s, f, x), a)
  {
    MovedTokens(s, f, x);
    var r := Moved(s, f, x);
    forall g | 0 <= g < |r.tokens| && Begins(r, g, a)
      ensures g < |s.tokens| && Begins(s, g, a)
    {
    }
  }

  lemma SoundElsewhere(s: Engine, f: nat, x: Reaction, a: nat)
    requires f < |s.tokens| && s.tokens[f].a < |s.states| && s.tokens[f].a != a && SoundCall(s, a)
    ensures SoundCall(Moved(s, f, x), a)
  {
    MovedTokens(s, f, x);
    OneBeginMove(s, f, x, a);
  }

  // Taking the block's reference changes nothing this speaks of.
  lemma SoundTaken(m: Engine, a: nat)
    requires SoundCall(m, a)
    ensures SoundCall(TakeBlock(m), a)
  {
    var r := TakeBlock(m);
    assert r.tokens == m.tokens && |r.states| == |m.states|;
    forall g | 0 <= g < |r.tokens|
      ensures Begins(r, g, a) == Begins(m, g, a)
    {
    }
    if a < |m.states| {
      assert SameButReference(m.states[a], r.states[a]);
      forall g | 0 <= g < |m.tokens| && m.tokens[g].a == a
        ensures SoundStage(m.tokens[g].stage, r.states[a])
      {
        assert SoundStage(m.tokens[g].stage, m.states[a]);
      }
    }
  }

  predicate SameButReference(st: CallState, st': CallState) {
    st' == st.(strong := st'.strong, taken := st'.taken)
  }

  lemma SoundLook(s: Engine, entry: Entry, a: nat)
    requires SoundCall(s, a)
    ensures SoundCall(LookUp(s, entry), a)
  {
    var r := LookUp(s, entry);
    forall g | 0 <= g < |r.tokens| && g < |s.tokens|
      ensures r.tokens[g] == s.tokens[g]
    {
    }
    forall g | 0 <= g < |r.tokens| && Begins(r, g, a)
      ensures g < |s.tokens| && Begins(s, g, a)
    {
    }
  }

  lemma SoundBeginCall(s: Engine, a: nat)
    requires TokensKnown(s) && SoundCall(s, a)
    ensures SoundCall(BeginCall(s), a)
  {
    var r, n := BeginCall(s), |s.states|;
    forall g | 0 <= g < |r.tokens| && r.tokens[g].a == a && a <= n
      ensures if a < n then g < |s.tokens| && r.tokens[g] == s.tokens[g] else g == |s.tokens|
    {
    }
    forall f, g | 0 <= f < |r.tokens| && 0 <= g < |r.tokens| && Begins(r, f, a) && Begins(r, g, a)
      ensures f == g
    {
      if a < n {
        assert Begins(s, f, a) && Begins(s, g, a);
      }
    }
  }

  lemma SoundStep(s: Engine, step: Step, a: nat)
    requires TokensKnown(s) && Enabled(s, step) && SoundCall(s, a)
    ensures SoundCall(Apply(s, step), a)
  {
    if step.Begin? {
      SoundBeginCall(s, a);
    } else if step.Look? {
      SoundLook(s, step.entry, a);
    } else if Moves(step) {
      var tok := s.tokens[step.f];
      if tok.a == a {
        SoundMove(s, step);
      } else {
        SoundElsewhere(s, step.f, React(step, tok.stage, s.states[tok.a], s.callbackSet), a);
      }
      if step.Take? {
        SoundTaken(React1(s, step), a);
      }
    } else {
      SoundSetCallback(s, step, a);
    }
  }

  lemma SoundSetCallback(s: Engine, step: Step, a: nat)
    requires step.SetCallback? && SoundCall(s, a)
    ensures SoundCall(Apply(s, step), a)
  {
    var r := Apply(s, step);
    assert r.tokens == s.tokens && r.states == s.states;
    forall g | 0 <= g < |r.tokens|
      ensures Begins(r, g, a) == Begins(s, g, a)
    {
    }
  }

  lemma {:induction false} SoundRun(s: Engine, steps: seq<Step>, a: nat)
    requires TokensKnown(s) && SoundCall(s, a) && IsRun(s, steps)
    ensures TokensKnown(After(s, steps)) && SoundCall(After(s, steps), a)
    decreases |steps|
  {
    if steps != [] {
      StepExtends(s, steps[0]);
      SoundStep(s, steps[0], a);
      SoundRun(Apply(s, steps[0]), steps[1..], a);
    }
  }

  lemma ReachableSound(s: Engine, a: nat)
    requires Reachable(s)
    ensures TokensKnown(s) && SoundCall(s, a)
  {
    var callbackSet: bool, steps: seq<Step> :| Reaches(callbackSet, steps, s);
    SoundRun(IDLE.(callbackSet := callbackSet), steps, a);
  }
}
