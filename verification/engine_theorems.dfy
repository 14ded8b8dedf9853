// What the books of the call engine come to: references, the block, the one cleanup. These
// hold in every reachable state, whatever the provider and the caller do.

module EngineTheorems {
  import opened EngineSystem
  import opened EngineInvariant
  import opened EngineRuns
  import opened Basics
  import opened Ledger

  function HeldBy(tokens: seq<Token>, a: nat): nat {
    if tokens == [] then 0
    else
      var last := tokens[|tokens| - 1];
      HeldBy(tokens[..|tokens| - 1], a) + (if last.a == a then Held(last.stage) else 0)
  }

  lemma {:induction false} HeldByIsTotal(tokens: seq<Token>, a: nat)
    ensures Total(tokens, a).held == HeldBy(tokens, a)
  {
    if tokens != [] {
      var rest, last := tokens[..|tokens| - 1], tokens[|tokens| - 1];
      HeldByIsTotal(rest, a);
      assert tokens == rest + [last];
      TotalSnoc(rest, last, a);
    }
  }

  // The reference count is the block's reference, while the block has it, plus one for every
  // queued item and executing frame (two while a frame carries one it is about to hand over).
  lemma ReferencesConserved(s: Engine, a: nat)
    requires Reachable(s) && a < |s.states|
    ensures s.states[a].strong == HeldBy(s.tokens, a) + (if s.states[a].taken then 0 else 1)
  {
    ReachableInv(s);
    HeldByIsTotal(s.tokens, a);
    assert Counted(s, a);
  }

  // Nobody holds a reference; somebody may still be looking the state up.
  predicate NobodyHolds(s: Engine, a: nat) {
    forall f :: 0 <= f < |s.tokens| && s.tokens[f].a == a ==> Held(s.tokens[f].stage) == 0
  }

  lemma ReferenceBooks(s: Engine, a: nat)
    requires Inv(s) && a < |s.states|
    ensures s.states[a].strong == 0 <==> s.states[a].taken && NobodyHolds(s, a)
    ensures NobodyHolds(s, a) ==> (s.states[a].inner.cleanedUp <==> s.states[a].taken)
  {
    assert Counted(s, a);
    var ws := Weights(s.tokens, a);
    forall f | 0 <= f < |s.tokens| && s.tokens[f].a == a
      ensures Held(s.tokens[f].stage) <= Total(s.tokens, a).held
    {
      HoldsAtMostTotal(s.tokens, f);
    }
    if NobodyHolds(s, a) {
      forall i | 0 <= i < |ws|
        ensures ws[i].held == 0 && ws[i].owed == 0
      {
      }
      SumIdle(ws);
    }
  }

  // Whoever holds a reference, on a queue or in a frame, finds the state alive, and while the
  // block names it it is alive; it is freed exactly when it is taken and nobody holds one.
  // (Somebody who has read the block and has no reference yet is in engine_lookup.dfy.)
  lemma NeverUsedAfterFree(s: Engine, a: nat)
    requires Reachable(s) && a < |s.states|
    ensures forall f :: 0 <= f < |s.tokens| && s.tokens[f].a == a ==> Held(s.tokens[f].stage) <= s.states[a].strong
    ensures s.named && s.current == a ==> 1 <= s.states[a].strong
    ensures s.states[a].strong == 0 <==> s.states[a].taken && NobodyHolds(s, a)
  {
    ReachableInv(s);
    assert Counted(s, a);
    ReferenceBooks(s, a);
    forall f | 0 <= f < |s.tokens| && s.tokens[f].a == a
      ensures Held(s.tokens[f].stage) <= s.states[a].strong
    {
      HoldsAtMostTotal(s.tokens, f);
    }
  }

  // The block names a call exactly from its Begin until its reference is taken back, so it
  // drives one call at a time; a new Begin is let in exactly when every earlier call has been
  // taken back, and every other entry point is answered exactly when Begin is not.
  lemma BlockNamesTheOneUntakenCall(s: Engine, a: nat)
    requires Reachable(s) && a < |s.states|
    ensures !s.states[a].taken <==> s.named && s.current == a
    ensures Enabled(s, Begin) <==> forall b :: 0 <= b < |s.states| ==> s.states[b].taken
    ensures forall entry: Entry :: Enabled(s, Look(entry)) <==> !Enabled(s, Begin)
  {
    ReachableInv(s);
    assert Counted(s, a);
    if s.named {
      assert Counted(s, s.current);
      assert !s.states[s.current].taken;
    } else {
      forall b | 0 <= b < |s.states|
        ensures s.states[b].taken
      {
        assert Counted(s, b);
      }
    }
  }

  // Once the block's reference is taken back it stays taken, and the call can never be
  // reached through the block again.
  lemma {:induction false} TakenForGood(s: Engine, steps: seq<Step>, a: nat)
    requires Inv(s) && IsRun(s, steps) && a < |s.states| && s.states[a].taken
    ensures a < |After(s, steps).states| && After(s, steps).states[a].taken
    ensures !(After(s, steps).named && After(s, steps).current == a)
    decreases |steps|
  {
    assert Counted(s, a);
    if steps != [] {
      var r := Apply(s, steps[0]);
      StepKeepsInv(s, steps[0]);
      if steps[0].Take? {
        TakeRetires(s, steps[0]);
      } else if Moves(steps[0]) {
        var tok := s.tokens[steps[0].f];
        ReactBalanced(steps[0], tok.stage, s.states[tok.a], s.callbackSet);
      }
      assert a < |r.states| && r.states[a].taken;
      TakenForGood(r, steps[1..], a);
    }
  }

  // Cleanup is sent at most once; it has been sent when the block's reference is gone; and
  // when nobody holds a reference any more, cleaned up, taken back and freed are one.
  lemma CleanupOnce(s: Engine, a: nat)
    requires Reachable(s) && a < |s.states|
    ensures Times(s.states[a].ops, OpCleanup) <= 1
    ensures s.states[a].taken ==> Times(s.states[a].ops, OpCleanup) == 1
    ensures NobodyHolds(s, a) ==>
              && Times(s.states[a].ops, OpCleanup) == Once(s.states[a].inner.cleanedUp)
              && (s.states[a].inner.cleanedUp <==> s.states[a].strong == 0)
  {
    ReachableInv(s);
    assert Counted(s, a) && CleanedOnce(s, a);
    NeverUsedAfterFree(s, a);
    if NobodyHolds(s, a) {
      var ws := Weights(s.tokens, a);
      forall i | 0 <= i < |ws|
        ensures ws[i].owed == 0
      {
      }
      SumIdle(ws);
    }
  }

  // Nobody takes the block's reference but the one token that won the cleanup, and it takes
  // the reference of its own call, never of a later one.
  lemma TakesItsOwn(s: Engine, step: Step)
    requires Reachable(s) && Enabled(s, step) && step.Take?
    ensures var a := s.tokens[step.f].a;
            && s.named && s.current == a && s.states[a].strong >= 2
            && !Apply(s, step).named
            && Apply(s, step).states == s.states[a := s.states[a].(strong := s.states[a].strong - 1, taken := true)]
            && forall g :: 0 <= g < |s.tokens| && s.tokens[g].a == a && Cleans(s.tokens[g].stage) ==> g == step.f
  {
    ReachableInv(s);
    var a := s.tokens[step.f].a;
    TakeRetires(s, step);
    assert Counted(s, a);
    NeverUsedAfterFree(s, a);
    SumBounds(Weights(s.tokens, a), step.f);
    forall g | 0 <= g < |s.tokens| && s.tokens[g].a == a && Cleans(s.tokens[g].stage)
      ensures g == step.f
    {
      OneCleaner(s, step.f, g, a);
    }
  }

  // The books behind delivery: every completion that counted was delivered, found no
  // callback set, or is still on its way.
  lemma CompletionBooks(s: Engine, a: nat)
    requires Inv(s) && a < |s.states|
    ensures s.states[a].delivered + s.states[a].silent <= s.states[a].completions
    ensures NobodyHolds(s, a) ==> s.states[a].completions == s.states[a].delivered + s.states[a].silent
  {
    assert Counted(s, a);
    if NobodyHolds(s, a) {
      var ws := Weights(s.tokens, a);
      forall i | 0 <= i < |ws|
        ensures ws[i].pending == 0
      {
      }
      SumIdle(ws);
    }
  }

  lemma CompletionsAccountedFor(s: Engine, a: nat)
    requires Reachable(s) && a < |s.states|
    ensures s.states[a].delivered + s.states[a].silent <= s.states[a].completions
    ensures NobodyHolds(s, a) ==> s.states[a].completions == s.states[a].delivered + s.states[a].silent
  {
    ReachableInv(s);
    CompletionBooks(s, a);
  }
}
