// How a call comes to be released under somebody who still needs its block: by a read that is
// under way, or by one that may start at any time. From this follow the runs in which a lookup
// finds its call gone and a completion finds the block no longer the call's, and exactly when
// the latter can happen without a new read.

module EngineRelease {
  import opened Results
  import opened EngineSections
  import opened EngineSystem
  import opened EngineInvariant
  import opened EngineRuns
  import opened EngineTheorems
  import opened EngineSound
  import opened EngineCompletion
  import opened EngineLookup
  import opened Basics

  // ---- runs without a new read -------------------------------------------------------

  // Nobody starts a read of call `a`.
  predicate Quiet(s: Engine, step: Step, a: nat) {
    !(ReadEntry(step) && s.current == a)
  }

  ghost predicate QuietRun(s: Engine, steps: seq<Step>, a: nat)
    decreases |steps|
  {
    steps == [] || (Enabled(s, steps[0]) && Quiet(s, steps[0], a) && QuietRun(Apply(s, steps[0]), steps[1..], a))
  }

  lemma {:induction false} QuietIsRun(s: Engine, steps: seq<Step>, a: nat)
    requires QuietRun(s, steps, a)
    ensures IsRun(s, steps)
    decreases |steps|
  {
    if steps != [] {
      QuietIsRun(Apply(s, steps[0]), steps[1..], a);
    }
  }

  ghost predicate QuietlyBy(s: Engine, steps: seq<Step>, a: nat, r: Engine) {
    QuietRun(s, steps, a) && IsRun(s, steps) && After(s, steps) == r
  }

  ghost predicate Quietly(s: Engine, a: nat, r: Engine) {
    exists steps: seq<Step> :: QuietlyBy(s, steps, a, r)
  }

  lemma QuietlySelf(s: Engine, a: nat)
    ensures Quietly(s, a, s)
  {
    assert QuietlyBy(s, [], a, s);
  }

  lemma {:induction false} OneMoreQuiet(s: Engine, steps: seq<Step>, a: nat, step: Step)
    requires QuietRun(s, steps, a) && IsRun(s, steps)
    requires Enabled(After(s, steps), step) && Quiet(After(s, steps), step, a)
    ensures QuietRun(s, steps + [step], a)
    decreases |steps|
  {
    var longer := steps + [step];
    if steps != [] {
      OneMoreQuiet(Apply(s, steps[0]), steps[1..], a, step);
      assert longer[1..] == steps[1..] + [step];
    } else {
      assert longer == [step] && longer[1..] == [];
    }
  }

  lemma QuietlyOn(s: Engine, a: nat, m: Engine, step: Step)
    requires Quietly(s, a, m) && Enabled(m, step) && Quiet(m, step, a)
    ensures Quietly(s, a, Apply(m, step))
  {
    var steps: seq<Step> :| QuietlyBy(s, steps, a, m);
    OneMoreQuiet(s, steps, a, step);
    OneMore(s, steps, step);
    assert QuietlyBy(s, steps + [step], a, Apply(m, step));
  }

  // ---- one frame goes on -------------------------------------------------------------

  // From `s` to `m` only token `g`, of call `a`, has gone anywhere.
  ghost predicate OnlyMoved(s: Engine, m: Engine, a: nat, g: nat) {
    && Reachable(m) && Quietly(s, a, m)
    && |m.tokens| == |s.tokens| && |m.states| == |s.states| && g < |s.tokens|
    && (forall k :: 0 <= k < |s.tokens| && k != g ==> m.tokens[k] == s.tokens[k])
    && m.tokens[g].a == a
  }

  lemma Nudge(s: Engine, m: Engine, a: nat, g: nat, step: Step)
    requires OnlyMoved(s, m, a, g) && Moves(step) && !step.Take? && Enabled(m, step) && step.f == g && a < |m.states|
    requires React(step, m.tokens[g].stage, m.states[a], m.callbackSet).handed.Over?
    ensures var x := React(step, m.tokens[g].stage, m.states[a], m.callbackSet);
            && OnlyMoved(s, Apply(m, step), a, g)
            && Apply(m, step).tokens[g] == Token(a, x.stage) && Apply(m, step).states[a] == Logged(x)
            && Apply(m, step).named == m.named && Apply(m, step).current == m.current
  {
    ReachableStep(m, step);
    QuietlyOn(s, a, m, step);
    MovedTokens(m, g, React(step, m.tokens[g].stage, m.states[a], m.callbackSet));
  }

  // A frame at this stage goes on to release a call whose status is settled.
  predicate WouldRelease(stage: Stage, st: CallState) {
    || Releases(stage) || stage.Answering?
    || (stage.Looking? && stage.entry.Status? && st.inner.size == 0)
    || ((stage.Polling? || stage.Parked?) && st.inner.size == 0)
    || (stage.Looking? && stage.entry.Result?
        && !Refuses(ResultVerdict(st.inner, stage.entry.identityOk, stage.entry.bufferSize)))
    || (stage.Fetching? && !Refuses(ResultVerdict(st.inner, stage.identityOk, stage.bufferSize)))
  }

  // Token `g` can be driven on to take the block's reference of the current call `a`.
  ghost predicate Driving(m: Engine, a: nat, g: nat) {
    && Reachable(m) && m.named && m.current == a && a < |m.states|
    && g < |m.tokens| && m.tokens[g].a == a && WouldRelease(m.tokens[g].stage, m.states[a])
    && (Pending(m.states[a]) ==> Releases(m.tokens[g].stage))
    && (m.states[a].inner.cleanedUp ==> Cleans(m.tokens[g].stage))
  }

  function Next(stage: Stage, g: nat): Step
    requires Releases(stage) || Reads(stage)
  {
    match stage
    case Looking(_) => Clone(g)
    case Parked(_) => Wake(g)
    case Polling(_) => Poll(g)
    case Fetching(_, _) => Fetch(g)
    case Answering => Answer(g)
    case Cleaning(_) => Clean(g)
    case SendingCleanup(_) => SendCleanup(g)
    case _ => Take(g)
  }

  function Far(stage: Stage): nat {
    match stage
    case Looking(_) => 7
    case Parked(_) => 6
    case Polling(_) => 5
    case Fetching(_, _) => 5
    case Answering => 4
    case Cleaning(_) => 3
    case SendingCleanup(_) => 2
    case _ => 1
  }

  lemma NextGoesOn(stage: Stage, g: nat, st: CallState, cb: bool)
    requires WouldRelease(stage, st) && !stage.Taking?
    requires (st.inner.status == E_PENDING ==> Releases(stage)) && (st.inner.cleanedUp ==> Cleans(stage))
    ensures Releases(stage) || Reads(stage)
    ensures Moves(Next(stage, g)) && !Next(stage, g).Take? && Fits(Next(stage, g), stage) && Next(stage, g).f == g
    ensures var x := React(Next(stage, g), stage, st, cb);
            && x.handed.Over? && WouldRelease(x.stage, Logged(x)) && Far(x.stage) < Far(stage)
            && (Logged(x).inner.status == E_PENDING ==> Releases(x.stage))
            && (Logged(x).inner.cleanedUp ==> Cleans(x.stage))
  {
  }

  // Only the driven token moves, and its call is released by it.
  ghost predicate Released(s: Engine, r: Engine, a: nat, g: nat) {
    OnlyMoved(s, r, a, g) && r.tokens[g] == Token(a, Dropping) && a < |r.states| && r.states[a].taken
  }

  lemma TakesIt(s: Engine, m: Engine, a: nat, g: nat)
    requires OnlyMoved(s, m, a, g) && Driving(m, a, g) && m.tokens[g].stage.Taking?
    ensures Released(s, Apply(m, Take(g)), a, g)
  {
    ReachableInv(m);
    assert Counted(m, a);
    TakeRetires(m, Take(g));
    ReachableStep(m, Take(g));
    QuietlyOn(s, a, m, Take(g));
  }

  lemma {:induction false} Drive(s: Engine, m: Engine, a: nat, g: nat) returns (r: Engine)
    requires OnlyMoved(s, m, a, g) && Driving(m, a, g)
    ensures Released(s, r, a, g)
    decreases Far(m.tokens[g].stage)
  {
    var stage := m.tokens[g].stage;
    if stage.Taking? {
      r := Apply(m, Take(g));
      TakesIt(s, m, a, g);
    } else {
      NextGoesOn(stage, g, m.states[a], m.callbackSet);
      NeverUsedAfterFree(m, a);
      Nudge(s, m, a, g, Next(stage, g));
      r := Drive(s, Apply(m, Next(stage, g)), a, g);
    }
  }

  lemma DriveOut(s: Engine, a: nat, g: nat) returns (r: Engine)
    requires Driving(s, a, g)
    ensures Released(s, r, a, g)
  {
    QuietlySelf(s, a);
    r := Drive(s, s, a, g);
  }

  // ---- a read can start and release it -----------------------------------------------

  // The block names a finished call.
  predicate Settled(s: Engine) {
    s.named && s.current < |s.states| && !Pending(s.states[s.current])
  }

  // XAsyncGetResult with room enough.
  function Demand(s: Engine): Step
    requires s.current < |s.states|
  {
    Look(Result(true, s.states[s.current].inner.size))
  }

  lemma ReadReleases(s: Engine) returns (r: Engine)
    requires Reachable(s) && Settled(s) && !s.states[s.current].inner.cleanedUp
    ensures Released(Apply(s, Demand(s)), r, s.current, |s.tokens|)
  {
    ReachableStep(s, Demand(s));
    assert Apply(s, Demand(s)).tokens == s.tokens + [Token(s.current, Looking(Demand(s).entry))];
    r := DriveOut(Apply(s, Demand(s)), s.current, |s.tokens|);
  }

  // Every finished call that nobody holds can be lost to a lookup: somebody reads the block to
  // enter for anything at all, the caller fetches the result, and the reference about to be
  // cloned is gone.
  lemma LookupCanDangle(s: Engine, entry: Entry) returns (r: Engine)
    requires Reachable(s) && Settled(s) && NobodyHolds(s, s.current)
    ensures Reachable(r) && |s.tokens| < |r.tokens| && s.current < |r.states|
    ensures r.tokens[|s.tokens|] == Token(s.current, Looking(entry))
    ensures r.states[s.current].strong == 0 && !Enabled(r, Clone(|s.tokens|))
  {
    var a, f, g := s.current, |s.tokens|, |s.tokens| + 1;
    NeverUsedAfterFree(s, a);
    CleanupOnce(s, a);
    var s1 := Apply(s, Look(entry));
    ReachableStep(s, Look(entry));
    assert s1.tokens == s.tokens + [Token(a, Looking(entry))];
    var s2 := ReadReleases(s1);
    r := Apply(s2, Drop(g));
    ReleasedState(s2, a, g);
    ReachableStep(s2, Drop(g));
    MovedTokens(s2, g, React(Drop(g), Dropping, s2.states[a], s2.callbackSet));
    forall k | 0 <= k < |r.tokens| && r.tokens[k].a == a
      ensures Held(r.tokens[k].stage) == 0
    {
      if k < |s.tokens| {
        assert r.tokens[k] == s2.tokens[k] == s1.tokens[k] == s.tokens[k];
      }
    }
    NeverUsedAfterFree(r, a);
    assert r.tokens[f] == s1.tokens[f];
  }

  lemma ReleasedState(s: Engine, a: nat, g: nat)
    requires Reachable(s) && g < |s.tokens| && s.tokens[g] == Token(a, Dropping)
    ensures a < |s.states| && Enabled(s, Drop(g))
  {
    ReachableInv(s);
  }

  lemma StartedCall() returns (s: Engine)
    ensures Reachable(s) && s.tokens == [Token(0, Over)] && |s.states| == 1 && s.states[0].inner == FRESH
    ensures s.named && s.current == 0 && !s.callbackSet
  {
    IdleReachable(false);
    var s0 := IDLE.(callbackSet := false);
    var s1 := Apply(s0, Begin);
    ReachableStep(s0, Begin);
    var s2 := Apply(s1, BeginReturns(0, S_OK));
    ReachableStep(s1, BeginReturns(0, S_OK));
    assert s2.tokens == [Token(0, Dropping)] && s2.states[0].inner == FRESH;
    s := Apply(s2, Drop(0));
    ReachableStep(s2, Drop(0));
    assert s.tokens == [Token(0, Over)];
  }

  // A completion that finds no callback is over.
  lemma SilentCompletionEnds(s: Engine, f: nat) returns (r: Engine)
    requires Reachable(s) && !s.callbackSet && s.named && s.current < |s.states|
    requires f < |s.tokens| && s.tokens[f] == Token(s.current, Delivering)
    ensures Reachable(r) && r.tokens == s.tokens[f := Token(s.current, Over)]
    ensures |r.states| == |s.states| && r.states[s.current].inner == s.states[s.current].inner
    ensures r.named && r.current == s.current
  {
    var a := s.current;
    var s1 := Apply(s, ReadCallback(f));
    ReachableStep(s, ReadCallback(f));
    assert s1.tokens == s.tokens[f := Token(a, Dropping)] && s1.states[a].inner == s.states[a].inner;
    r := Apply(s1, Drop(f));
    ReachableStep(s1, Drop(f));
    assert r.tokens == s.tokens[f := Token(a, Over)];
  }

  // Such calls occur: one reported finished, without a callback, by a provider that has left.
  lemma QuietFinishedCall() returns (s: Engine)
    ensures Reachable(s) && Settled(s) && NobodyHolds(s, s.current)
  {
    var s1 := StartedCall();
    var s2 := ReportCounts(s1, S_OK);
    s := SilentCompletionEnds(s2, 1);
    assert s.tokens[0] == s1.tokens[0] && s.tokens[1] == Token(0, Over);
  }

  // ---- the block's callback ----------------------------------------------------------

  // A completion of the call is about to read the block's callback.
  predicate AboutToRead(s: Engine, f: nat, a: nat) {
    f < |s.tokens| && s.tokens[f] == Token(a, Delivering) && a < |s.states|
  }

  // The engine alone never sees to it: wherever a completion is about to read the block's
  // callback, the call can be released before it does.
  lemma CallbackReadCanComeTooLate(s: Engine, f: nat, a: nat) returns (r: Engine)
    requires Reachable(s) && AboutToRead(s, f, a)
    ensures Leads(s, r) && AboutToRead(r, f, a) && r.states[a].taken
  {
    LeadsSelf(s);
    ReachableInv(s);
    assert Counted(s, a);
    if s.states[a].taken {
      r := s;
    } else if s.states[a].inner.cleanedUp {
      var g := SomebodyCleans(s, a);
      r := DriveOut(s, a, g);
      LeadsQuietly(s, s, a, r);
    } else {
      var m := s;
      if Pending(s.states[a]) {
        m := ReportCounts(s, S_OK);
      }
      r := ReadReleases(m);
      LeadsOn(s, m, Demand(m));
      assert Apply(m, Demand(m)).tokens[f] == m.tokens[f];
      LeadsQuietly(s, Apply(m, Demand(m)), a, r);
    }
  }

  lemma LeadsQuietly(s: Engine, m: Engine, a: nat, r: Engine)
    requires Leads(s, m) && Quietly(m, a, r)
    ensures Leads(s, r)
  {
    var steps: seq<Step> :| QuietlyBy(m, steps, a, r);
    LeadsFurther(s, m, steps);
  }

  // ---- while no read starts ----------------------------------------------------------

  // Somebody already under way will release the call, or has won its cleanup, or it is gone.
  ghost predicate ReleaseUnderWay(s: Engine, a: nat)
    requires a < |s.states|
  {
    || s.states[a].taken || s.states[a].inner.cleanedUp
    || exists g :: 0 <= g < |s.tokens| && s.tokens[g].a == a && WouldRelease(s.tokens[g].stage, s.states[a])
  }

  ghost predicate Safe(s: Engine, a: nat) {
    && a < |s.states| && !Pending(s.states[a]) && !s.states[a].start.Starting? && !ReleaseUnderWay(s, a)
  }

  lemma SafeReact(step: Step, stage: Stage, st: CallState, cb: bool)
    requires Moves(step) && Fits(step, stage) && SoundStage(stage, st) && !WouldRelease(stage, st)
    requires !Pending(st) && !st.start.Starting? && !st.inner.cleanedUp
    ensures var x := React(step, stage, st, cb);
            && SameOutcome(st, Logged(x)) && !Logged(x).inner.cleanedUp
            && !WouldRelease(x.stage, st) && !WouldRelease(x.handed, st)
  {
  }

  lemma SafeMoved(s: Engine, f: nat, x: Reaction, a: nat)
    requires f < |s.tokens| && s.tokens[f].a < |s.states| && Safe(s, a)
    requires s.tokens[f].a == a ==>
               && SameOutcome(s.states[a], Logged(x)) && !Logged(x).inner.cleanedUp && x.st.taken == s.states[a].taken
               && !WouldRelease(x.stage, s.states[a]) && !WouldRelease(x.handed, s.states[a])
    ensures Safe(Moved(s, f, x), a)
  {
    MovedTokens(s, f, x);
    var r := Moved(s, f, x);
    forall k | 0 <= k < |r.tokens| && r.tokens[k].a == a
      ensures !WouldRelease(r.tokens[k].stage, r.states[a])
    {
      SameVerdict(r.tokens[k].stage, s.states[a], r.states[a]);
    }
  }

  lemma SameVerdict(stage: Stage, st: CallState, st': CallState)
    requires SameOutcome(st, st')
    ensures WouldRelease(stage, st) == WouldRelease(stage, st')
  {
  }

  lemma SafeStep(s: Engine, step: Step, a: nat)
    requires Reachable(s) && Enabled(s, step) && Quiet(s, step, a) && Safe(s, a)
    ensures Safe(Apply(s, step), a)
  {
    ReachableInv(s);
    ReachableSound(s, a);
    if Moves(step) {
      var tok := s.tokens[step.f];
      var x := React(step, tok.stage, s.states[tok.a], s.callbackSet);
      ReactTaken(step, tok.stage, s.states[tok.a], s.callbackSet);
      if tok.a == a {
        assert SoundStage(tok.stage, s.states[a]) && !WouldRelease(tok.stage, s.states[a]);
        SafeReact(step, tok.stage, s.states[a], s.callbackSet);
      }
      SafeMoved(s, step.f, x, a);
      if step.Take? {
        assert Counted(s, tok.a);
        TakeRetires(s, step);
        SafeTaken(React1(s, step), a);
      }
    } else {
      SafeEntry(s, step, a);
    }
  }

  lemma SafeTaken(m: Engine, a: nat)
    requires Safe(m, a) && m.named && m.current != a
    ensures Safe(TakeBlock(m), a)
  {
    assert TakeBlock(m).tokens == m.tokens && TakeBlock(m).states[a] == m.states[a];
  }

  lemma SafeEntry(s: Engine, step: Step, a: nat)
    requires TokensKnown(s) && Enabled(s, step) && !Moves(step) && Quiet(s, step, a) && Safe(s, a)
    ensures Safe(Apply(s, step), a)
  {
    var r := Apply(s, step);
    assert r.states[a] == s.states[a];
    forall k | 0 <= k < |r.tokens| && r.tokens[k].a == a
      ensures !WouldRelease(r.tokens[k].stage, r.states[a])
    {
      if k < |s.tokens| {
        assert r.tokens[k] == s.tokens[k];
      }
    }
  }

  lemma {:induction false} SafeThroughout(s: Engine, steps: seq<Step>, a: nat)
    requires Reachable(s) && Safe(s, a) && QuietRun(s, steps, a) && IsRun(s, steps)
    ensures Safe(After(s, steps), a)
    decreases |steps|
  {
    if steps != [] {
      SafeStep(s, steps[0], a);
      ReachableStep(s, steps[0]);
      SafeThroughout(Apply(s, steps[0]), steps[1..], a);
    }
  }

  // The completion can still find its block released, though no read of the call starts.
  ghost predicate CanComeTooLate(s: Engine, f: nat, a: nat, steps: seq<Step>) {
    && QuietRun(s, steps, a) && IsRun(s, steps)
    && AboutToRead(After(s, steps), f, a) && After(s, steps).states[a].taken
  }

  // With the status settled and Begin returned, and no read of the call started meanwhile, the
  // block stays the call's until the completion has read it exactly when no read under way
  // would release the call and its cleanup has not been won.
  lemma CallbackReadIsInTimeExactly(s: Engine, f: nat, a: nat)
    requires Reachable(s) && AboutToRead(s, f, a) && !Pending(s.states[a]) && !s.states[a].start.Starting?
    ensures (exists steps: seq<Step> :: CanComeTooLate(s, f, a, steps)) <==> ReleaseUnderWay(s, a)
  {
    ReachableInv(s);
    assert Counted(s, a);
    if !ReleaseUnderWay(s, a) {
      forall steps: seq<Step> | CanComeTooLate(s, f, a, steps)
        ensures false
      {
        SafeThroughout(s, steps, a);
      }
    } else if s.states[a].taken {
      var none: seq<Step> := [];
      assert CanComeTooLate(s, f, a, none);
    } else {
      var g: nat;
      if s.states[a].inner.cleanedUp {
        g := SomebodyCleans(s, a);
      } else {
        g :| g < |s.tokens| && s.tokens[g].a == a && WouldRelease(s.tokens[g].stage, s.states[a]);
      }
      var r := DriveOut(s, a, g);
      var steps: seq<Step> :| QuietlyBy(s, steps, a, r);
      assert r.tokens[f] == s.tokens[f];
      assert CanComeTooLate(s, f, a, steps);
    }
  }
}
