// Entry points find a call by reading the block's words, and take a reference to it only
// afterwards, with nothing held in between: a call released in that window is gone when the
// reference is cloned. Here is exactly when that happens and what rules it out; runs in which
// it does are in engine_release.dfy.

module EngineLookup {
  import opened Results
  import opened EngineSections
  import opened EngineSystem
  import opened EngineInvariant
  import opened EngineRuns
  import opened EngineTheorems
  import opened EngineSound
  import opened EngineCompletion
  import opened Basics
  import opened Ledger

  lemma TakenIsCleanedUp(s: Engine, a: nat)
    requires Inv(s) && a < |s.states| && s.states[a].taken
    ensures s.states[a].inner.cleanedUp
  {
    assert Counted(s, a);
  }

  // Whoever has read the block finds the state alive at the clone exactly when the block's
  // reference has not been taken back or somebody still holds one, itself included.
  lemma CloneFindsItAliveExactly(s: Engine, f: nat)
    requires Reachable(s) && f < |s.tokens| && s.tokens[f].stage.Looking?
    ensures s.tokens[f].a < |s.states|
    ensures Enabled(s, Clone(f)) <==> !s.states[s.tokens[f].a].taken || !NobodyHolds(s, s.tokens[f].a)
  {
    ReachableInv(s);
    ReferenceBooks(s, s.tokens[f].a);
    NeverUsedAfterFree(s, s.tokens[f].a);
    assert Counted(s, s.tokens[f].a);
  }

  // So it does while the call is not over, ...
  lemma PendingCallIsFound(s: Engine, f: nat)
    requires Reachable(s) && f < |s.tokens| && s.tokens[f].stage.Looking? && s.tokens[f].a < |s.states|
    requires !Finished(s.states[s.tokens[f].a])
    ensures Enabled(s, Clone(f))
  {
    ReachableInv(s);
    ReachableSound(s, s.tokens[f].a);
    if s.states[s.tokens[f].a].taken {
      TakenIsCleanedUp(s, s.tokens[f].a);
    }
    CloneFindsItAliveExactly(s, f);
  }

  // What a provider shares with its workers is safe as long as they touch it only before they
  // report: a call that is not over has not been sent Cleanup, and once it has it never is
  // again.
  lemma PendingCallIsNotCleanedUp(s: Engine, a: nat)
    requires Reachable(s) && a < |s.states| && !Finished(s.states[a])
    ensures Times(s.states[a].ops, OpCleanup) == 0 && !s.states[a].taken
  {
    ReachableInv(s);
    ReachableSound(s, a);
    assert CleanedOnce(s, a);
    if s.states[a].taken {
      TakenIsCleanedUp(s, a);
    }
  }

  // ---- ... and when one reader at a time reads a call that was let in ----------------

  ghost predicate NobodyReads(s: Engine, a: nat) {
    forall f :: 0 <= f < |s.tokens| && s.tokens[f].a == a ==> !Reads(s.tokens[f].stage)
  }

  function Readers(s: Engine, a: nat): nat {
    Total(s.tokens, a).agents
  }

  lemma NoReaders(s: Engine, a: nat)
    requires NobodyReads(s, a)
    ensures Readers(s, a) == 0
  {
    var ws := Weights(s.tokens, a);
    forall i | 0 <= i < |ws|
      ensures ws[i].agents == 0
    {
    }
    SumIdle(ws);
  }

  lemma OneReaderCounts(s: Engine, f: nat)
    requires f < |s.tokens| && Reads(s.tokens[f].stage)
    ensures Readers(s, s.tokens[f].a) >= 1
  {
    SumBounds(Weights(s.tokens, s.tokens[f].a), f);
  }

  predicate ReadEntry(step: Step) {
    step.Look? && (step.entry.Status? || step.entry.Result?)
  }

  // Call `a` is read by one frame at a time, and its Begin succeeds.
  ghost predicate ReadAlone(s: Engine, step: Step, a: nat)
    requires Enabled(s, step)
  {
    && (ReadEntry(step) && s.current == a ==> NobodyReads(s, a))
    && (step.BeginReturns? && s.tokens[step.f].a == a ==> step.hr == S_OK)
  }

  // Only its one reader takes the block's reference, and leaves by that.
  ghost predicate AloneCall(s: Engine, a: nat) {
    a < |s.states| ==>
      !s.states[a].start.Rejected? && Readers(s, a) <= 1 && (s.states[a].taken ==> Readers(s, a) == 0)
  }

  lemma ReadsShrink(step: Step, stage: Stage, st: CallState, cb: bool)
    requires Moves(step) && Fits(step, stage)
    ensures var r := React(step, stage, st, cb);
            && (Reads(r.stage) ==> Reads(stage)) && !Reads(r.handed)
            && (step.Take? ==> !Reads(r.stage))
            && (r.st.start.Rejected? && !st.start.Rejected? ==> step.BeginReturns? && step.hr != S_OK)
  {
  }

  lemma ReadersShift(s: Engine, f: nat, x: Reaction, a: nat)
    requires f < |s.tokens| && s.tokens[f].a < |s.states|
    ensures s.tokens[f].a != a ==> Readers(Moved(s, f, x), a) == Readers(s, a)
    ensures s.tokens[f].a == a ==>
              Readers(Moved(s, f, x), a) + Once(Reads(s.tokens[f].stage)) ==
              Readers(s, a) + Once(Reads(x.stage)) + Once(Reads(x.handed))
  {
    TotalStep(s, f, x, a);
  }

  lemma AloneMove(s: Engine, step: Step, a: nat)
    requires Moves(step) && Enabled(s, step) && ReadAlone(s, step, a) && AloneCall(s, a) && s.tokens[step.f].a == a
    ensures !React1(s, step).states[a].start.Rejected?
    ensures Readers(React1(s, step), a) <= Readers(s, a)
    ensures step.Take? && s.tokens[step.f].stage.reader ==> Readers(React1(s, step), a) == 0
    ensures React1(s, step).states[a].taken == s.states[a].taken
  {
    var f, stage := step.f, s.tokens[step.f].stage;
    var x := React(step, stage, s.states[a], s.callbackSet);
    ReadsShrink(step, stage, s.states[a], s.callbackSet);
    ReactBalanced(step, stage, s.states[a], s.callbackSet);
    ReadersShift(s, f, x, a);
  }

  lemma AloneStep(s: Engine, step: Step, a: nat)
    requires Inv(s) && SoundCall(s, a) && Enabled(s, step) && ReadAlone(s, step, a) && AloneCall(s, a)
    ensures AloneCall(Apply(s, step), a)
  {
    if step.Begin? {
      AloneBegin(s, a);
    } else if step.Look? {
      AloneLook(s, step.entry, a);
    } else if Moves(step) && a < |s.states| {
      if s.tokens[step.f].a == a {
        AloneMove(s, step, a);
      } else {
        var tok := s.tokens[step.f];
        ReadersShift(s, step.f, React(step, tok.stage, s.states[tok.a], s.callbackSet), a);
      }
      if step.Take? {
        assert Counted(s, s.tokens[step.f].a);
        TakeRetires(s, step);
        assert SoundStage(s.tokens[step.f].stage, s.states[s.tokens[step.f].a]) || s.tokens[step.f].a != a;
        assert Apply(s, step).tokens == React1(s, step).tokens;
      }
    } else if step.SetCallback? {
      assert Apply(s, step).tokens == s.tokens;
    }
  }

  lemma AloneBegin(s: Engine, a: nat)
    requires Inv(s) && !s.named && AloneCall(s, a)
    ensures AloneCall(BeginCall(s), a)
  {
    if a < |s.states| {
      TotalSnoc(s.tokens, Token(|s.states|, Beginning), a);
    } else if a == |s.states| {
      BeginningHoldsOne(s, a);
    }
  }

  lemma AloneLook(s: Engine, entry: Entry, a: nat)
    requires Inv(s) && Enabled(s, Look(entry)) && ReadAlone(s, Look(entry), a) && AloneCall(s, a)
    ensures AloneCall(LookUp(s, entry), a)
  {
    TotalSnoc(s.tokens, Token(s.current, Looking(entry)), a);
    if s.current == a {
      assert Counted(s, a);
      if ReadEntry(Look(entry)) {
        NoReaders(s, a);
      }
    }
  }

  ghost predicate AloneRun(s: Engine, steps: seq<Step>, a: nat)
    decreases |steps|
  {
    steps == [] || (Enabled(s, steps[0]) && ReadAlone(s, steps[0], a) && AloneRun(Apply(s, steps[0]), steps[1..], a))
  }

  lemma {:induction false} AloneThroughout(s: Engine, steps: seq<Step>, a: nat)
    requires Inv(s) && SoundCall(s, a) && AloneCall(s, a) && AloneRun(s, steps, a)
    ensures IsRun(s, steps) && AloneCall(After(s, steps), a)
    decreases |steps|
  {
    if steps != [] {
      AloneStep(s, steps[0], a);
      SoundStep(s, steps[0], a);
      StepKeepsInv(s, steps[0]);
      AloneThroughout(Apply(s, steps[0]), steps[1..], a);
    }
  }

  // Whatever providers and cancellers do meanwhile, a call's only reader finds it.
  lemma SoleReaderFindsItsCall(callbackSet: bool, steps: seq<Step>, a: nat, f: nat)
    requires AloneRun(IDLE.(callbackSet := callbackSet), steps, a)
    ensures IsRun(IDLE.(callbackSet := callbackSet), steps)
    ensures var s := After(IDLE.(callbackSet := callbackSet), steps);
            f < |s.tokens| && s.tokens[f].a == a && s.tokens[f].stage.Looking? && Reads(s.tokens[f].stage)
            ==> Enabled(s, Clone(f))
  {
    var from := IDLE.(callbackSet := callbackSet);
    AloneThroughout(from, steps, a);
    var s := After(from, steps);
    assert Reaches(callbackSet, steps, s);
    if f < |s.tokens| && s.tokens[f].a == a && s.tokens[f].stage.Looking? && Reads(s.tokens[f].stage) {
      CloneFindsItAliveExactly(s, f);
      OneReaderCounts(s, f);
    }
  }

  // ---- the block's callback ----------------------------------------------------------

  // The caller reads call `a` only once its callback has run, or was found not to be set;
  // and its Begin succeeds.
  predicate ReadAfterCallback(s: Engine, step: Step, a: nat)
    requires Enabled(s, step)
  {
    && (ReadEntry(step) && s.current == a ==> s.states[a].delivered + s.states[a].silent > 0)
    && (step.BeginReturns? && s.tokens[step.f].a == a ==> step.hr == S_OK)
  }

  ghost predicate UnreadCall(s: Engine, a: nat) {
    a < |s.states| ==>
      && !s.states[a].start.Rejected?
      && (s.states[a].delivered + s.states[a].silent == 0 ==> NobodyReads(s, a) && !s.states[a].inner.cleanedUp)
  }

  // A frame of an unread call moves on: it reads only if it did, and only a reader cleans up.
  ghost predicate UnreadTo(stage: Stage, st: CallState, r: Reaction) {
    && !r.st.start.Rejected?
    && (Reads(r.stage) ==> Reads(stage)) && !Reads(r.handed)
    && (r.st.delivered + r.st.silent == 0 ==> st.delivered + st.silent == 0)
    && (r.st.inner.cleanedUp && !st.inner.cleanedUp ==> Reads(stage))
  }

  lemma UnreadReact(step: Step, stage: Stage, st: CallState, cb: bool)
    requires Moves(step) && Fits(step, stage) && SoundStage(stage, st)
    requires !st.start.Rejected? && (step.BeginReturns? ==> step.hr == S_OK)
    ensures UnreadTo(stage, st, React(step, stage, st, cb))
  {
    ReadsShrink(step, stage, st, cb);
    CountsGrow(step, stage, st, cb);
  }

  lemma CountsGrow(step: Step, stage: Stage, st: CallState, cb: bool)
    requires Moves(step) && Fits(step, stage)
    ensures var r := React(step, stage, st, cb);
            && st.delivered + st.silent <= r.st.delivered + r.st.silent
            && (r.st.inner.cleanedUp && !st.inner.cleanedUp ==> stage.Cleaning?)
  {
  }

  lemma UnreadMoved(s: Engine, f: nat, x: Reaction, a: nat)
    requires f < |s.tokens| && s.tokens[f].a == a && a < |s.states|
    requires UnreadCall(s, a) && UnreadTo(s.tokens[f].stage, s.states[a], x)
    ensures UnreadCall(Moved(s, f, x), a)
  {
    MovedTokens(s, f, x);
  }

  lemma UnreadMove(s: Engine, step: Step, a: nat)
    requires Moves(step) && Enabled(s, step) && ReadAfterCallback(s, step, a) && UnreadCall(s, a) && SoundCall(s, a)
    requires s.tokens[step.f].a == a
    ensures UnreadCall(React1(s, step), a)
  {
    var stage := s.tokens[step.f].stage;
    assert SoundStage(stage, s.states[a]);
    UnreadReact(step, stage, s.states[a], s.callbackSet);
    UnreadMoved(s, step.f, React(step, stage, s.states[a], s.callbackSet), a);
  }

  lemma UnreadElsewhere(s: Engine, f: nat, x: Reaction, a: nat)
    requires f < |s.tokens| && s.tokens[f].a < |s.states| && s.tokens[f].a != a && UnreadCall(s, a)
    ensures UnreadCall(Moved(s, f, x), a)
  {
    MovedTokens(s, f, x);
  }

  lemma UnreadEntry(s: Engine, step: Step, a: nat)
    requires TokensKnown(s) && Enabled(s, step) && (step.Look? || step.Begin?)
    requires ReadAfterCallback(s, step, a) && UnreadCall(s, a)
    ensures UnreadCall(Apply(s, step), a)
  {
    var r := Apply(s, step);
    forall g | 0 <= g < |r.tokens| && g < |s.tokens|
      ensures r.tokens[g] == s.tokens[g]
    {
    }
  }

  lemma UnreadStep(s: Engine, step: Step, a: nat)
    requires TokensKnown(s) && SoundCall(s, a) && Enabled(s, step) && ReadAfterCallback(s, step, a) && UnreadCall(s, a)
    ensures UnreadCall(Apply(s, step), a)
  {
    if Moves(step) {
      var tok := s.tokens[step.f];
      if tok.a == a {
        UnreadMove(s, step, a);
      } else {
        UnreadElsewhere(s, step.f, React(step, tok.stage, s.states[tok.a], s.callbackSet), a);
      }
      assert Apply(s, step).tokens == React1(s, step).tokens;
    } else if step.Look? || step.Begin? {
      UnreadEntry(s, step, a);
    } else {
      assert Apply(s, step).tokens == s.tokens && Apply(s, step).states == s.states;
    }
  }

  ghost predicate UnreadRun(s: Engine, steps: seq<Step>, a: nat)
    decreases |steps|
  {
    steps == [] ||
    (Enabled(s, steps[0]) && ReadAfterCallback(s, steps[0], a) && UnreadRun(Apply(s, steps[0]), steps[1..], a))
  }

  lemma {:induction false} UnreadThroughout(s: Engine, steps: seq<Step>, a: nat)
    requires TokensKnown(s) && SoundCall(s, a) && UnreadCall(s, a) && UnreadRun(s, steps, a)
    ensures IsRun(s, steps) && UnreadCall(After(s, steps), a)
    decreases |steps|
  {
    if steps != [] {
      UnreadStep(s, steps[0], a);
      SoundStep(s, steps[0], a);
      StepExtends(s, steps[0]);
      UnreadThroughout(Apply(s, steps[0]), steps[1..], a);
    }
  }

  // A caller that waits for its callback before it reads keeps the block its own until the
  // callback has been looked for: a completion then finds the call still named by it.
  lemma CallbackIsReadInTime(callbackSet: bool, steps: seq<Step>, a: nat, f: nat)
    requires UnreadRun(IDLE.(callbackSet := callbackSet), steps, a)
    ensures IsRun(IDLE.(callbackSet := callbackSet), steps)
    ensures var s := After(IDLE.(callbackSet := callbackSet), steps);
            f < |s.tokens| && s.tokens[f] == Token(a, Delivering) && a < |s.states| && s.states[a].reopened == 0
            ==> !s.states[a].taken && s.named && s.current == a
  {
    var from := IDLE.(callbackSet := callbackSet);
    UnreadThroughout(from, steps, a);
    var s := After(from, steps);
    assert Reaches(callbackSet, steps, s);
    if f < |s.tokens| && s.tokens[f] == Token(a, Delivering) && a < |s.states| && s.states[a].reopened == 0 {
      ReachableInv(s);
      CompletionsCounted(s, a);
      assert Counted(s, a);
      SumBounds(Weights(s.tokens, a), f);
      if s.states[a].taken {
        TakenIsCleanedUp(s, a);
      }
    }
  }
}
