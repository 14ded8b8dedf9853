// Every step, and so every run, keeps the books of the call engine.

module EngineRuns {
  import opened EngineSystem
  import opened EngineInvariant
  import opened Ledger

  lemma MoveKeeps(s: Engine, step: Step, b: nat)
    requires Moves(step) && !step.Take? && Enabled(s, step) && b < |s.states|
    requires Counted(s, b) && CleanedOnce(s, b)
    ensures Counted(React1(s, step), b) && CleanedOnce(React1(s, step), b)
  {
    var f := step.f;
    var tok := s.tokens[f];
    var x := React(step, tok.stage, s.states[tok.a], s.callbackSet);
    ReactBalanced(step, tok.stage, s.states[tok.a], s.callbackSet);
    CountedMoved(s, f, x, b);
    if tok.a == b {
      CleanedMoved(s, f, x, b);
    } else {
      CleanedElsewhere(s, f, x, b);
    }
  }

  // ---- a token joins -----------------------------------------------------------------

  lemma CountedJoin(s: Engine, r: Engine, tok: Token, b: nat)
    requires b < |s.states| && b < |r.states| && Counted(s, b)
    requires r.tokens == s.tokens + [tok] && r.states[b] == s.states[b] && InBlock(r, b) == InBlock(s, b)
    requires HeldFor(tok, b) == 0 && CleansFor(tok, b) == 0 && DeliversFor(tok, b) == 0
    ensures Counted(r, b)
  {
    TotalSnoc(s.tokens, tok, b);
  }

  lemma CleanedJoin(s: Engine, r: Engine, tok: Token, b: nat)
    requires b < |s.states| && b < |r.states| && CleanedOnce(s, b)
    requires r.tokens == s.tokens + [tok] && r.states[b] == s.states[b] && !Cleans(tok.stage)
    ensures CleanedOnce(r, b)
  {
    forall g | 0 <= g < |r.tokens| && Cleans(r.tokens[g].stage)
      ensures g < |s.tokens| && r.tokens[g] == s.tokens[g]
    {
    }
  }

  lemma LookKeeps(s: Engine, entry: Entry, b: nat)
    requires b < |s.states| && Counted(s, b) && CleanedOnce(s, b)
    ensures Counted(LookUp(s, entry), b) && CleanedOnce(LookUp(s, entry), b)
  {
    var tok := Token(s.current, Looking(entry));
    CountedJoin(s, LookUp(s, entry), tok, b);
    CleanedJoin(s, LookUp(s, entry), tok, b);
  }

  lemma NoTokensOf(tokens: seq<Token>, a: nat)
    requires forall f :: 0 <= f < |tokens| ==> tokens[f].a != a
    ensures Total(tokens, a).held == 0 && Total(tokens, a).owed == 0
    ensures Total(tokens, a).pending == 0 && Total(tokens, a).agents == 0
  {
    var ws := Weights(tokens, a);
    forall i | 0 <= i < |ws|
      ensures ws[i] == Weight(0, 0, 0, 0)
    {
      assert HeldFor(tokens[i], a) == 0 && CleansFor(tokens[i], a) == 0;
      assert DeliversFor(tokens[i], a) == 0 && ReadsFor(tokens[i], a) == 0;
    }
    SumIdle(ws);
  }

  // What a call's first token holds is all that is held.
  lemma FirstToken(tokens: seq<Token>, tok: Token, a: nat)
    requires forall f :: 0 <= f < |tokens| ==> tokens[f].a != a
    ensures Total(tokens + [tok], a).held == HeldFor(tok, a)
    ensures Total(tokens + [tok], a).owed == CleansFor(tok, a)
    ensures Total(tokens + [tok], a).pending == DeliversFor(tok, a)
    ensures Total(tokens + [tok], a).agents == ReadsFor(tok, a)
  {
    NoTokensOf(tokens, a);
    TotalSnoc(tokens, tok, a);
  }

  lemma BeginningHoldsOne(s: Engine, n: nat)
    requires TokensKnown(s) && n == |s.states|
    ensures Total(BeginCall(s).tokens, n).held == 1 && Total(BeginCall(s).tokens, n).owed == 0
    ensures Total(BeginCall(s).tokens, n).pending == 0 && Total(BeginCall(s).tokens, n).agents == 0
  {
    var tok := Token(n, Beginning);
    FirstToken(s.tokens, tok, n);
    assert HeldFor(tok, n) == 1 && CleansFor(tok, n) == 0 && DeliversFor(tok, n) == 0 && ReadsFor(tok, n) == 0;
    assert BeginCall(s).tokens == s.tokens + [tok];
  }

  lemma BeginStarts(s: Engine)
    requires TokensKnown(s) && !s.named
    ensures Counted(BeginCall(s), |s.states|) && CleanedOnce(BeginCall(s), |s.states|)
  {
    var n := |s.states|;
    var r := BeginCall(s);
    BeginningHoldsOne(s, n);
    assert r.states[n] == BEGUN && InBlock(r, n) == 1;
    TimesSnoc([], OpBegin, OpCleanup);
    assert [] + [OpBegin] == [OpBegin];
    forall g | 0 <= g < |r.tokens| && r.tokens[g].a == n
      ensures g == |s.tokens|
    {
    }
  }

  lemma BeginKeeps(s: Engine, b: nat)
    requires !s.named && b < |s.states| && Counted(s, b) && CleanedOnce(s, b)
    ensures Counted(BeginCall(s), b) && CleanedOnce(BeginCall(s), b)
  {
    var tok := Token(|s.states|, Beginning);
    CountedJoin(s, BeginCall(s), tok, b);
    CleanedJoin(s, BeginCall(s), tok, b);
  }

  lemma CallKept(s: Engine, step: Step, b: nat)
    requires Inv(s) && Enabled(s, step) && b < |Apply(s, step).states|
    ensures Counted(Apply(s, step), b) && CleanedOnce(Apply(s, step), b)
  {
    if step.Begin? {
      if b < |s.states| {
        BeginKeeps(s, b);
      } else {
        BeginStarts(s);
      }
    } else if step.Look? {
      LookKeeps(s, step.entry, b);
    } else if step.Take? {
      TakeRetires(s, step);
      RetireKept(s, step.f, b);
    } else if step.SetCallback? {
      var r := Apply(s, step);
      assert Counted(s, b) && CleanedOnce(s, b);
      assert r.tokens == s.tokens && r.states == s.states;
    } else {
      MoveKeeps(s, step, b);
    }
  }

  // Nothing that was there goes away; tokens keep their call.
  ghost predicate Extends(s: Engine, r: Engine) {
    && |s.states| <= |r.states|
    && |s.tokens| <= |r.tokens|
    && (forall f :: 0 <= f < |s.tokens| ==> r.tokens[f].a == s.tokens[f].a)
  }

  lemma MovedTokens(s: Engine, f: nat, x: Reaction)
    requires f < |s.tokens| && s.tokens[f].a < |s.states|
    ensures forall g :: 0 <= g < |Moved(s, f, x).tokens| ==>
              Moved(s, f, x).tokens[g] ==
                if g == f then Token(s.tokens[f].a, x.stage)
                else if g < |s.tokens| then s.tokens[g]
                else Token(s.tokens[f].a, x.handed)
  {
  }

  lemma MovedExtends(s: Engine, f: nat, x: Reaction)
    requires TokensKnown(s) && f < |s.tokens|
    ensures TokensKnown(Moved(s, f, x)) && Extends(s, Moved(s, f, x))
  {
    var r := Moved(s, f, x);
    forall g | 0 <= g < |r.tokens|
      ensures r.tokens[g].a == if g < |s.tokens| then s.tokens[g].a else s.tokens[f].a
    {
    }
  }

  lemma StepExtends(s: Engine, step: Step)
    requires TokensKnown(s) && Enabled(s, step)
    ensures TokensKnown(Apply(s, step)) && Extends(s, Apply(s, step))
  {
    if Moves(step) {
      var tok := s.tokens[step.f];
      MovedExtends(s, step.f, React(step, tok.stage, s.states[tok.a], s.callbackSet));
      assert TokensKnown(React1(s, step)) && Extends(s, React1(s, step));
    }
  }

  lemma StepKeepsInv(s: Engine, step: Step)
    requires Inv(s) && Enabled(s, step)
    ensures Inv(Apply(s, step))
  {
    StepExtends(s, step);
    var r := Apply(s, step);
    forall b | 0 <= b < |r.states|
      ensures Counted(r, b) && CleanedOnce(r, b)
    {
      CallKept(s, step, b);
    }
  }

  lemma {:induction false} RunKeepsInv(s: Engine, steps: seq<Step>)
    requires Inv(s) && IsRun(s, steps)
    ensures Inv(After(s, steps))
    decreases |steps|
  {
    if steps != [] {
      StepKeepsInv(s, steps[0]);
      RunKeepsInv(Apply(s, steps[0]), steps[1..]);
    }
  }

  ghost predicate Reachable(s: Engine) {
    exists callbackSet: bool, steps: seq<Step> :: Reaches(callbackSet, steps, s)
  }

  ghost predicate Reaches(callbackSet: bool, steps: seq<Step>, s: Engine) {
    IsRun(IDLE.(callbackSet := callbackSet), steps) && After(IDLE.(callbackSet := callbackSet), steps) == s
  }

  lemma ReachableInv(s: Engine)
    requires Reachable(s)
    ensures Inv(s)
  {
    var callbackSet: bool, steps: seq<Step> :| Reaches(callbackSet, steps, s);
    RunKeepsInv(IDLE.(callbackSet := callbackSet), steps);
  }

  // ---- runs built up step by step ----------------------------------------------------

  lemma {:induction false} OneMore(s: Engine, steps: seq<Step>, step: Step)
    requires IsRun(s, steps) && Enabled(After(s, steps), step)
    ensures IsRun(s, steps + [step]) && After(s, steps + [step]) == Apply(After(s, steps), step)
    decreases |steps|
  {
    var longer := steps + [step];
    if steps != [] {
      OneMore(Apply(s, steps[0]), steps[1..], step);
      assert longer[1..] == steps[1..] + [step];
    } else {
      assert longer == [step] && longer[1..] == [];
    }
  }

  lemma OneStep(s: Engine, step: Step)
    requires Enabled(s, step)
    ensures IsRun(s, [step]) && After(s, [step]) == Apply(s, step)
  {
    OneMore(s, [], step);
    assert [] + [step] == [step];
  }

  lemma ReachableStep(s: Engine, step: Step)
    requires Reachable(s) && Enabled(s, step)
    ensures Reachable(Apply(s, step))
  {
    var callbackSet: bool, steps: seq<Step> :| Reaches(callbackSet, steps, s);
    OneMore(IDLE.(callbackSet := callbackSet), steps, step);
    assert Reaches(callbackSet, steps + [step], Apply(s, step));
  }

  lemma IdleReachable(callbackSet: bool)
    ensures Reachable(IDLE.(callbackSet := callbackSet))
  {
    assert Reaches(callbackSet, [], IDLE.(callbackSet := callbackSet));
  }

  // ---- what leads to what ------------------------------------------------------------

  ghost predicate LeadsBy(s: Engine, steps: seq<Step>, r: Engine) {
    IsRun(s, steps) && After(s, steps) == r
  }

  ghost predicate Leads(s: Engine, r: Engine) {
    exists steps: seq<Step> :: LeadsBy(s, steps, r)
  }

  lemma LeadsSelf(s: Engine)
    ensures Leads(s, s)
  {
    assert LeadsBy(s, [], s);
  }

  lemma LeadsOn(s: Engine, m: Engine, step: Step)
    requires Leads(s, m) && Enabled(m, step)
    ensures Leads(s, Apply(m, step))
  {
    var steps: seq<Step> :| LeadsBy(s, steps, m);
    OneMore(s, steps, step);
    assert LeadsBy(s, steps + [step], Apply(m, step));
  }

  lemma {:induction false} LeadsFurther(s: Engine, m: Engine, steps: seq<Step>)
    requires Leads(s, m) && IsRun(m, steps)
    ensures Leads(s, After(m, steps))
    decreases |steps|
  {
    if steps != [] {
      LeadsOn(s, m, steps[0]);
      LeadsFurther(s, Apply(m, steps[0]), steps[1..]);
    }
  }
}
