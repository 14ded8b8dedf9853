// Conservation in the call engine: references, the one cleanup, and completions, for every
// call at once.

module EngineInvariant {
  import opened EngineSystem
  import opened Basics
  import opened Ledger

  // What a token holds of call `a`:
  //   held    references to its state
  //   owed    1 while it carries the cleanup of the call (won, block not yet taken)
  //   pending 1 while it carries a completion not yet delivered
  //   agents  1 while it is a read of the call by its caller
  function Held(stage: Stage): nat {
    if stage.Over? || stage.Looking? then 0
    else if stage.Scheduling? || stage.Posting? || stage.InlineCallback? then 2
    else 1
  }

  predicate Cleans(stage: Stage) {
    stage.SendingCleanup? || stage.Taking?
  }

  predicate Delivers(stage: Stage) {
    stage.Delivering? || stage.Posting? || stage.Box?
  }

  predicate Reads(stage: Stage) {
    || (stage.Looking? && (stage.entry.Status? || stage.entry.Result?))
    || stage.Polling? || stage.Parked? || stage.Fetching? || stage.Answering?
    || (Releases(stage) && stage.reader)
  }

  // On the way to cleanup, or in it.
  predicate Releases(stage: Stage) {
    stage.Cleaning? || stage.SendingCleanup? || stage.Taking?
  }

  function HeldFor(tok: Token, a: nat): nat {
    if tok.a == a then Held(tok.stage) else 0
  }

  function CleansFor(tok: Token, a: nat): nat {
    Once(tok.a == a && Cleans(tok.stage))
  }

  function DeliversFor(tok: Token, a: nat): nat {
    Once(tok.a == a && Delivers(tok.stage))
  }

  function ReadsFor(tok: Token, a: nat): nat {
    Once(tok.a == a && Reads(tok.stage))
  }

  function Weigh(tok: Token, a: nat): Weight {
    Weight(HeldFor(tok, a), CleansFor(tok, a), DeliversFor(tok, a), ReadsFor(tok, a))
  }

  function Weights(tokens: seq<Token>, a: nat): (ws: seq<Weight>)
    ensures |ws| == |tokens| && forall i :: 0 <= i < |tokens| ==> ws[i] == Weigh(tokens[i], a)
  {
    seq(|tokens|, i requires 0 <= i < |tokens| => Weigh(tokens[i], a))
  }

  function Total(tokens: seq<Token>, a: nat): Weight {
    Sum(Weights(tokens, a))
  }

  lemma TotalUpdate(tokens: seq<Token>, f: nat, tok: Token, a: nat)
    requires f < |tokens|
    ensures Total(tokens[f := tok], a).held + HeldFor(tokens[f], a) == Total(tokens, a).held + HeldFor(tok, a)
    ensures Total(tokens[f := tok], a).owed + CleansFor(tokens[f], a) == Total(tokens, a).owed + CleansFor(tok, a)
    ensures Total(tokens[f := tok], a).pending + DeliversFor(tokens[f], a) ==
              Total(tokens, a).pending + DeliversFor(tok, a)
    ensures Total(tokens[f := tok], a).agents + ReadsFor(tokens[f], a) == Total(tokens, a).agents + ReadsFor(tok, a)
  {
    var ws, updated, w := Weights(tokens, a), Weights(tokens[f := tok], a), Weigh(tok, a);
    assert updated == ws[f := w];
    SumUpdate(ws, f, w);
  }

  lemma TotalSnoc(tokens: seq<Token>, tok: Token, a: nat)
    ensures Total(tokens + [tok], a).held == Total(tokens, a).held + HeldFor(tok, a)
    ensures Total(tokens + [tok], a).owed == Total(tokens, a).owed + CleansFor(tok, a)
    ensures Total(tokens + [tok], a).pending == Total(tokens, a).pending + DeliversFor(tok, a)
    ensures Total(tokens + [tok], a).agents == Total(tokens, a).agents + ReadsFor(tok, a)
  {
    var ws, longer, w := Weights(tokens, a), Weights(tokens + [tok], a), Weigh(tok, a);
    forall i | 0 <= i < |longer|
      ensures longer[i] == (ws + [w])[i]
    {
      assert (tokens + [tok])[i] == if i < |tokens| then tokens[i] else tok;
    }
    assert longer == ws + [w];
    SumSnoc(longer, ws, w);
  }

  // A token of call `b` that moves on shifts its call's totals by what it held and holds.
  ghost predicate Shifted(w: Weight, w': Weight, stage: Stage, r: Reaction) {
    && w'.held + Held(stage) == w.held + Held(r.stage) + Held(r.handed)
    && w'.owed + Once(Cleans(stage)) == w.owed + Once(Cleans(r.stage)) + Once(Cleans(r.handed))
    && w'.pending + Once(Delivers(stage)) == w.pending + Once(Delivers(r.stage)) + Once(Delivers(r.handed))
    && w'.agents + Once(Reads(stage)) == w.agents + Once(Reads(r.stage)) + Once(Reads(r.handed))
  }

  ghost predicate SameTotals(w: Weight, w': Weight) {
    w'.held == w.held && w'.owed == w.owed && w'.pending == w.pending && w'.agents == w.agents
  }

  lemma TotalStep(s: Engine, f: nat, r: Reaction, b: nat)
    requires f < |s.tokens| && s.tokens[f].a < |s.states|
    ensures s.tokens[f].a != b ==> SameTotals(Total(s.tokens, b), Total(Moved(s, f, r).tokens, b))
    ensures s.tokens[f].a == b ==>
              Shifted(Total(s.tokens, b), Total(Moved(s, f, r).tokens, b), s.tokens[f].stage, r)
  {
    var a := s.tokens[f].a;
    TotalUpdate(s.tokens, f, Token(a, r.stage), b);
    if !r.handed.Over? {
      TotalSnoc(s.tokens[f := Token(a, r.stage)], Token(a, r.handed), b);
    }
  }

  // ---- the invariant -----------------------------------------------------------------

  function Times(ops: seq<Op>, op: Op): nat {
    if ops == [] then 0 else Times(ops[..|ops| - 1], op) + Once(ops[|ops| - 1] == op)
  }

  lemma TimesSnoc(ops: seq<Op>, x: Op, op: Op)
    ensures Times(ops + [x], op) == Times(ops, op) + Once(x == op)
  {
    assert (ops + [x])[..|ops + [x]| - 1] == ops;
  }

  function InBlock(s: Engine, a: nat): nat {
    Once(s.named && s.current == a)
  }

  // The reference count of a call is the block's reference, if it still has it, plus what
  // queue items and executing frames hold.
  ghost predicate Counted(s: Engine, a: nat)
    requires a < |s.states|
  {
    var st := s.states[a];
    var w := Total(s.tokens, a);
    && st.strong == InBlock(s, a) + w.held
    && InBlock(s, a) == Once(!st.taken)
    && w.owed + Once(st.taken) == Once(st.inner.cleanedUp)
    && st.completions == w.pending + st.delivered + st.silent
  }

  // Cleanup is sent once, by the token that won it.
  ghost predicate CleanedOnce(s: Engine, a: nat)
    requires a < |s.states|
  {
    var sent := Times(s.states[a].ops, OpCleanup);
    && sent <= Once(s.states[a].inner.cleanedUp)
    && (s.states[a].taken ==> sent == 1)
    && CleanersKnow(s, a, sent)
  }

  ghost predicate CleanersKnow(s: Engine, a: nat, sent: nat) {
    forall f :: 0 <= f < |s.tokens| && Cleans(s.tokens[f].stage) && s.tokens[f].a == a
      ==> sent == Once(s.tokens[f].stage.Taking?)
  }

  ghost predicate TokensKnown(s: Engine) {
    && (forall f :: 0 <= f < |s.tokens| ==> s.tokens[f].a < |s.states|)
    && (s.named ==> s.current < |s.states|)
  }

  ghost predicate Inv(s: Engine) {
    && TokensKnown(s)
    && (forall a :: 0 <= a < |s.states| ==> Counted(s, a))
    && (forall a :: 0 <= a < |s.states| ==> CleanedOnce(s, a))
  }

  // ---- one token moves on ------------------------------------------------------------

  // The books of the move balance: references, cleanups, completions.
  ghost predicate Balanced(stage: Stage, st: CallState, r: Reaction) {
    && r.st.taken == st.taken
    && r.st.strong + Held(stage) == st.strong + Held(r.stage) + Held(r.handed)
    && Once(st.inner.cleanedUp) + Once(Cleans(r.stage)) + Once(Cleans(r.handed)) ==
         Once(r.st.inner.cleanedUp) + Once(Cleans(stage))
    && r.st.completions + Once(Delivers(stage)) + st.delivered + st.silent
       == st.completions + Once(Delivers(r.stage)) + Once(Delivers(r.handed)) + r.st.delivered + r.st.silent
  }

  // A cleanup is begun by winning the flag, and sent once on the way to taking the block.
  ghost predicate CleansInOrder(stage: Stage, st: CallState, r: Reaction) {
    && r.st.ops == st.ops
    && !Cleans(r.handed)
    && (r.stage.SendingCleanup? ==> stage.Cleaning? && !st.inner.cleanedUp && r.st.inner.cleanedUp)
    && (r.stage.Taking? ==> stage.SendingCleanup?)
    && (r.stage.Taking? <==> r.sent.OpCleanup?)
    && (!r.stage.SendingCleanup? ==> r.st.inner.cleanedUp == st.inner.cleanedUp)
  }

  lemma ProviderBalanced(step: Step, stage: Stage, st: CallState, cb: bool)
    requires Moves(step) && Fits(step, stage)
    requires step.BeginReturns? || step.SubmitWork? || step.RunWork? || step.WorkReturns?
    ensures Balanced(stage, st, React(step, stage, st, cb))
    ensures CleansInOrder(stage, st, React(step, stage, st, cb))
  {
  }

  lemma CompletionBalanced(step: Step, stage: Stage, st: CallState, cb: bool)
    requires Moves(step) && Fits(step, stage)
    requires step.CompleteLocked? || step.ReadCallback? || step.Post? || step.InlineReturns? ||
             step.RunCompletion? || step.CallbackReturns?
    ensures Balanced(stage, st, React(step, stage, st, cb))
    ensures CleansInOrder(stage, st, React(step, stage, st, cb))
  {
  }

  lemma ReaderBalanced(step: Step, stage: Stage, st: CallState, cb: bool)
    requires Moves(step) && Fits(step, stage)
    requires step.Clone? || step.Poll? || step.Wake? || step.Fetch? || step.Answer?
    ensures Balanced(stage, st, React(step, stage, st, cb))
    ensures CleansInOrder(stage, st, React(step, stage, st, cb))
  {
  }

  lemma CleanupBalanced(step: Step, stage: Stage, st: CallState, cb: bool)
    requires Moves(step) && Fits(step, stage)
    requires step.Clean? || step.SendCleanup? || step.Take?
    ensures !step.Take? ==> Balanced(stage, st, React(step, stage, st, cb))
    ensures CleansInOrder(stage, st, React(step, stage, st, cb))
  {
  }

  lemma CancelSendBalanced(step: Step, stage: Stage, st: CallState, cb: bool)
    requires Moves(step) && Fits(step, stage) && (step.CancelTest? || step.SendCancel?)
    ensures Balanced(stage, st, React(step, stage, st, cb))
    ensures CleansInOrder(stage, st, React(step, stage, st, cb))
  {
  }

  lemma RecheckBalanced(step: Step, stage: Stage, st: CallState, cb: bool)
    requires Moves(step) && Fits(step, stage) && (step.Recheck? || step.Drop?)
    ensures Balanced(stage, st, React(step, stage, st, cb))
    ensures CleansInOrder(stage, st, React(step, stage, st, cb))
  {
  }

  lemma CancelBalanced(step: Step, stage: Stage, st: CallState, cb: bool)
    requires Moves(step) && Fits(step, stage)
    requires step.CancelTest? || step.SendCancel? || step.Recheck? || step.Drop?
    ensures Balanced(stage, st, React(step, stage, st, cb))
    ensures CleansInOrder(stage, st, React(step, stage, st, cb))
  {
    if step.CancelTest? || step.SendCancel? {
      CancelSendBalanced(step, stage, st, cb);
    } else {
      RecheckBalanced(step, stage, st, cb);
    }
  }

  lemma ReactBalanced(step: Step, stage: Stage, st: CallState, cb: bool)
    requires Moves(step) && Fits(step, stage)
    ensures !step.Take? ==> Balanced(stage, st, React(step, stage, st, cb))
    ensures CleansInOrder(stage, st, React(step, stage, st, cb))
  {
    if step.BeginReturns? || step.SubmitWork? || step.RunWork? || step.WorkReturns? {
      ProviderBalanced(step, stage, st, cb);
    } else if step.CompleteLocked? || step.ReadCallback? || step.Post? || step.InlineReturns? || step.RunCompletion?
              || step.CallbackReturns? {
      CompletionBalanced(step, stage, st, cb);
    } else if step.Clone? || step.Poll? || step.Wake? || step.Fetch? || step.Answer? {
      ReaderBalanced(step, stage, st, cb);
    } else if step.Clean? || step.SendCleanup? || step.Take? {
      CleanupBalanced(step, stage, st, cb);
    } else {
      CancelBalanced(step, stage, st, cb);
    }
  }

  lemma ReactTaken(step: Step, stage: Stage, st: CallState, cb: bool)
    requires Moves(step) && Fits(step, stage)
    ensures Logged(React(step, stage, st, cb)).taken == st.taken
  {
    ReactBalanced(step, stage, st, cb);
  }

  lemma CountedMoved(s: Engine, f: nat, x: Reaction, b: nat)
    requires f < |s.tokens| && s.tokens[f].a < |s.states|
    requires Balanced(s.tokens[f].stage, s.states[s.tokens[f].a], x)
    requires b < |s.states| && Counted(s, b)
    ensures Counted(Moved(s, f, x), b)
  {
    TotalStep(s, f, x, b);
  }

  lemma HoldsAtMostTotal(tokens: seq<Token>, f: nat)
    requires f < |tokens|
    ensures Held(tokens[f].stage) <= Total(tokens, tokens[f].a).held
  {
    SumBounds(Weights(tokens, tokens[f].a), f);
  }

  lemma OneCleaner(s: Engine, f: nat, g: nat, a: nat)
    requires a < |s.states| && Counted(s, a)
    requires f < |s.tokens| && Cleans(s.tokens[f].stage) && s.tokens[f].a == a
    requires g < |s.tokens| && Cleans(s.tokens[g].stage) && s.tokens[g].a == a
    ensures f == g && !s.states[a].taken && s.states[a].inner.cleanedUp && s.named && s.current == a
  {
    var ws := Weights(s.tokens, a);
    SumBounds(ws, f);
    if f < g {
      SumTwo(ws, f, g);
    } else if g < f {
      SumTwo(ws, g, f);
    }
  }

  // Before the block's reference is taken, a won cleanup is in somebody's hands.
  lemma SomebodyCleans(s: Engine, a: nat) returns (f: nat)
    requires a < |s.states| && Counted(s, a) && s.states[a].inner.cleanedUp && !s.states[a].taken
    ensures f < |s.tokens| && s.tokens[f].a == a && Cleans(s.tokens[f].stage)
  {
    var ws := Weights(s.tokens, a);
    if forall i :: 0 <= i < |ws| ==> ws[i].owed == 0 {
      SumIdle(ws);
    }
    var i :| 0 <= i < |ws| && ws[i].owed != 0;
    f := i;
  }

  // How often Cleanup has been sent goes with who carries it: a token that moves on ...
  lemma CleanedMoved(s: Engine, f: nat, x: Reaction, b: nat)
    requires f < |s.tokens| && s.tokens[f].a == b && b < |s.states|
    requires x.st.taken == s.states[b].taken && CleansInOrder(s.tokens[f].stage, s.states[b], x)
    requires Counted(s, b) && CleanedOnce(s, b)
    ensures !s.tokens[f].stage.Taking? ==> CleanedOnce(Moved(s, f, x), b)
  {
    if s.tokens[f].stage.Taking? {
      return;
    }
    var r, ops := Moved(s, f, x), s.states[b].ops;
    var sent := Times(r.states[b].ops, OpCleanup);
    TimesSnoc(ops, x.sent, OpCleanup);
    if Cleans(s.tokens[f].stage) {
      OneCleaner(s, f, f, b);
    }
    forall g | 0 <= g < |r.tokens| && Cleans(r.tokens[g].stage) && r.tokens[g].a == b
      ensures sent == Once(r.tokens[g].stage.Taking?)
    {
      if g != f {
        assert g < |s.tokens| && r.tokens[g] == s.tokens[g];
        if Cleans(s.tokens[f].stage) {
          OneCleaner(s, f, g, b);
        }
      }
    }
  }

  // ... says nothing new about the other calls.
  lemma CleanedElsewhere(s: Engine, f: nat, x: Reaction, b: nat)
    requires f < |s.tokens| && s.tokens[f].a < |s.states| && s.tokens[f].a != b
    requires b < |s.states| && CleanedOnce(s, b)
    ensures CleanedOnce(Moved(s, f, x), b)
  {
    var r := Moved(s, f, x);
    forall g | 0 <= g < |r.tokens| && r.tokens[g].a == b
      ensures g < |s.tokens| && r.tokens[g] == s.tokens[g]
    {
    }
  }

  // The token that takes the block's reference finds its own call named there.
  function Retired(s: Engine, f: nat): Engine
    requires f < |s.tokens| && s.tokens[f].a < |s.states|
  {
    var a := s.tokens[f].a;
    var st := s.states[a];
    s.(named := false,
       tokens := s.tokens[f := Token(a, Dropping)],
       states := s.states[a := st.(strong := st.strong - 1, taken := true)])
  }

  lemma TakeRetires(s: Engine, step: Step)
    requires step.Take? && Enabled(s, step) && Counted(s, s.tokens[step.f].a)
    ensures s.named && s.current == s.tokens[step.f].a
    ensures Apply(s, step) == Retired(s, step.f)
  {
    OneCleaner(s, step.f, step.f, s.tokens[step.f].a);
  }

  lemma RetireKept(s: Engine, f: nat, b: nat)
    requires f < |s.tokens| && s.tokens[f].stage.Taking? && s.tokens[f].a < |s.states| && b < |s.states|
    requires s.named && s.current == s.tokens[f].a
    requires Counted(s, b) && CleanedOnce(s, b)
    ensures Counted(Retired(s, f), b)
    ensures CleanedOnce(Retired(s, f), b)
  {
    var a := s.tokens[f].a;
    TotalUpdate(s.tokens, f, Token(a, Dropping), b);
    var r := Retired(s, f);
    forall g | 0 <= g < |r.tokens| && Cleans(r.tokens[g].stage) && r.tokens[g].a == b
      ensures g != f && r.tokens[g] == s.tokens[g]
    {
    }
    if a == b {
      OneCleaner(s, f, f, a);
      assert Times(s.states[b].ops, OpCleanup) == 1;
    }
  }
}
