// The order in which a provider is called: Begin, DoWork any number of times, at most one
// GetResult, at most one Cleanup, and nothing after it. It holds of a call that is not
// cancelled, whose provider leaves no work item outstanding when it finishes, and whose
// caller reads it from one place at a time; other calls on the block are unrestricted.

module EngineOrder {
  import opened Results
  import opened EngineSystem
  import opened EngineInvariant
  import opened EngineRuns
  import opened EngineSound
  import opened EngineLookup
  import opened Ledger

  predicate Follows(before: Op, op: Op) {
    match op
    case OpDoWork => before.OpBegin? || before.OpDoWork?
    case OpGetResult => before.OpBegin? || before.OpDoWork?
    case OpCleanup => before.OpBegin? || before.OpDoWork? || before.OpGetResult?
    case _ => false
  }

  predicate InOrder(ops: seq<Op>) {
    if |ops| <= 1 then ops == [OpBegin]
    else InOrder(ops[..|ops| - 1]) && Follows(ops[|ops| - 2], ops[|ops| - 1])
  }

  function Last(ops: seq<Op>): Op {
    if ops == [] then NoOp else ops[|ops| - 1]
  }

  lemma InOrderSnoc(ops: seq<Op>, op: Op)
    requires InOrder(ops) && Follows(Last(ops), op)
    ensures InOrder(ops + [op]) && Last(ops + [op]) == op
  {
    assert (ops + [op])[..|ops + [op]| - 1] == ops;
  }

  function Passes(n: nat): seq<Op> {
    seq(n, _ => OpDoWork)
  }

  predicate Ending(tail: seq<Op>) {
    tail == [] || tail == [OpGetResult] || tail == [OpCleanup] || tail == [OpGetResult, OpCleanup]
  }

  ghost predicate Shaped(ops: seq<Op>, n: nat, tail: seq<Op>) {
    ops == [OpBegin] + Passes(n) + tail && Ending(tail)
  }

  lemma ShapeGrows(ops: seq<Op>, n: nat, tail: seq<Op>, op: Op)
    requires Shaped(ops, n, tail) && Follows(Last(ops), op)
    ensures Shaped(ops + [op], n + 1, []) || Shaped(ops + [op], n, tail + [op])
  {
    assert tail != [] ==> Last(ops) == tail[|tail| - 1];
    if op.OpDoWork? {
      assert Passes(n) + [OpDoWork] == Passes(n + 1);
      assert ops + [op] == [OpBegin] + Passes(n + 1) + [];
    } else {
      assert ops + [op] == [OpBegin] + Passes(n) + (tail + [op]);
    }
  }

  ghost predicate HasShape(ops: seq<Op>) {
    exists n: nat, tail :: Shaped(ops, n, tail)
  }

  lemma ShapeBegins()
    ensures HasShape([OpBegin])
  {
    assert Passes(0) == [];
    assert [OpBegin] + Passes(0) + [] == [OpBegin];
    assert Shaped([OpBegin], 0, []);
  }

  lemma ShapeExtends(ops: seq<Op>, op: Op)
    requires HasShape(ops) && Follows(Last(ops), op)
    ensures HasShape(ops + [op])
  {
    var n: nat, tail :| Shaped(ops, n, tail);
    ShapeGrows(ops, n, tail, op);
  }

  // What being in order amounts to.
  lemma {:induction false} OrderedShape(ops: seq<Op>)
    requires InOrder(ops)
    ensures HasShape(ops)
    decreases |ops|
  {
    if |ops| <= 1 {
      ShapeBegins();
    } else {
      var rest, last := ops[..|ops| - 1], ops[|ops| - 1];
      OrderedShape(rest);
      ShapeExtends(rest, last);
      assert ops == rest + [last];
    }
  }

  // ---- the discipline ----------------------------------------------------------------

  // On the work queue, or about to be.
  predicate Waits(stage: Stage) {
    stage.WorkItem? || stage.Scheduling? || (stage.Looking? && stage.entry.Schedule?)
  }

  ghost predicate NothingWaits(s: Engine, a: nat) {
    forall f :: 0 <= f < |s.tokens| && s.tokens[f].a == a ==> !Waits(s.tokens[f].stage)
  }

  // Call `a` is not cancelled; it is rescheduled only while pending; it is read by one frame
  // at a time; nothing of it waits on the work queue when it finishes, by completion or by a
  // rejected Begin, and only a pending call is rejected.
  ghost predicate Tidy(s: Engine, step: Step, a: nat)
    requires Enabled(s, step)
  {
    && (step.Look? && s.current == a ==>
          && !step.entry.Cancel?
          && (step.entry.Schedule? ==> Pending(s.states[a]))
          && (ReadEntry(step) ==> NobodyReads(s, a)))
    && (step.CompleteLocked? && s.tokens[step.f].a == a && Pending(s.states[a]) ==> NothingWaits(s, a))
    && (step.BeginReturns? && s.tokens[step.f].a == a && step.hr != S_OK ==>
          step.hr != E_PENDING && Pending(s.states[a]) && NothingWaits(s, a))
  }

  // ---- the invariant -----------------------------------------------------------------

  // The caller has had its result, or the successful call is being released.
  predicate Closing(st: CallState) {
    Last(st.ops).OpGetResult? || (st.inner.cleanedUp && st.inner.status == S_OK)
  }

  // A read that has not found the call over.
  predicate Looks(stage: Stage) {
    Reads(stage) && !Releases(stage)
  }

  predicate Cancels(stage: Stage) {
    stage.CancelEntry? || stage.SendingCancel? || stage.Rechecking? || (stage.Looking? && stage.entry.Cancel?)
  }

  predicate TidyStage(stage: Stage, st: CallState) {
    && (Waits(stage) ==> Pending(st))
    && !Cancels(stage)
    && (Releases(stage) ==> !Pending(st) && (stage.reader || st.inner.status != S_OK))
    && (stage.Answering? ==> st.inner.status == S_OK)
    && (Looks(stage) ==> !Closing(st))
  }

  predicate TidyState(st: CallState) {
    && InOrder(st.ops)
    && (Last(st.ops).OpGetResult? ==> st.inner.status == S_OK)
    && (Last(st.ops).OpCleanup? ==> st.inner.cleanedUp)
    && (st.inner.cleanedUp ==> !Pending(st))
  }

  ghost predicate TidyTokens(s: Engine, a: nat)
    requires a < |s.states|
  {
    forall f :: 0 <= f < |s.tokens| && s.tokens[f].a == a ==> TidyStage(s.tokens[f].stage, s.states[a])
  }

  ghost predicate TidyReaders(s: Engine, a: nat)
    requires a < |s.states|
  {
    && Readers(s, a) <= 1
    && (Closing(s.states[a]) && !s.states[a].taken ==> Readers(s, a) == 1)
  }

  ghost predicate TidyCall(s: Engine, a: nat) {
    a < |s.states| ==> TidyState(s.states[a]) && TidyTokens(s, a) && TidyReaders(s, a)
  }

  // ---- one token of the call moves on ------------------------------------------------

  ghost predicate TidyFrom(step: Step, stage: Stage, st: CallState) {
    && TidyStage(stage, st) && TidyState(st)
    && (stage.SendingCleanup? ==> !Last(st.ops).OpCleanup? && st.inner.cleanedUp)
    && (step.BeginReturns? && step.hr != S_OK ==> step.hr != E_PENDING && Pending(st))
  }

  // The state afterwards, what moved and what was handed to a queue are tidy; only a
  // pending status changes; and only a reader closes the call.
  ghost predicate TidyTo(stage: Stage, st: CallState, r: Reaction) {
    var st' := Logged(r);
    && TidyState(st')
    && TidyStage(r.stage, st') && TidyStage(r.handed, st')
    && (!Pending(st) ==> st'.inner.status == st.inner.status)
    && (Closing(st') && !Closing(st) ==> Reads(stage))
    && (Closing(st) ==> Closing(st'))
    && (Reads(r.stage) ==> Reads(stage))
    && !Reads(r.handed)
    && (Closing(st') && Reads(stage) && !Reads(r.stage) ==>
          stage.Taking? || (stage.Cleaning? && st.inner.cleanedUp && st.inner.status == S_OK))
  }

  lemma TidyBeginReturns(step: Step, st: CallState, cb: bool)
    requires step.BeginReturns? && TidyFrom(step, Beginning, st)
    ensures TidyTo(Beginning, st, React(step, Beginning, st, cb))
  {
  }

  lemma TidySubmitWork(step: Step, completes: bool, st: CallState, cb: bool)
    requires step.SubmitWork? && TidyFrom(step, Scheduling(completes), st)
    ensures TidyTo(Scheduling(completes), st, React(step, Scheduling(completes), st, cb))
  {
  }

  lemma TidyRunWork(step: Step, st: CallState, cb: bool)
    requires step.RunWork? && TidyFrom(step, WorkItem, st)
    ensures TidyTo(WorkItem, st, React(step, WorkItem, st, cb))
  {
    InOrderSnoc(st.ops, OpDoWork);
    var r := React(step, WorkItem, st, cb);
    if !step.canceled {
      assert r.stage == Working && r.handed == Over;
      assert Logged(r) == st.(ops := st.ops + [OpDoWork]);
    }
  }

  lemma TidyWorkReturns(step: Step, st: CallState, cb: bool)
    requires step.WorkReturns? && TidyFrom(step, Working, st)
    ensures TidyTo(Working, st, React(step, Working, st, cb))
  {
  }

  // A step that sends nothing and leaves status, size and flags as they are.
  lemma TidyUnsent(stage: Stage, st: CallState, r: Reaction)
    requires TidyState(st) && r.sent.NoOp? && r.st.ops == st.ops && r.st.inner == st.inner
    requires TidyStage(r.stage, st) && TidyStage(r.handed, st) && !Reads(r.handed)
    requires (Reads(r.stage) ==> Reads(stage)) && (Closing(st) && Reads(stage) ==> Reads(r.stage))
    ensures TidyTo(stage, st, r)
  {
  }

  lemma TidyCompletes(step: Step, stage: Stage, st: CallState, cb: bool)
    requires Moves(step) && Fits(step, stage) && TidyFrom(step, stage, st) && step.CompleteLocked?
    ensures TidyTo(stage, st, React(step, stage, st, cb))
  {
  }

  lemma TidyDelivery(step: Step, stage: Stage, st: CallState, cb: bool)
    requires Moves(step) && Fits(step, stage) && TidyFrom(step, stage, st) && (step.ReadCallback? || step.Post?)
    ensures TidyTo(stage, st, React(step, stage, st, cb))
  {
    TidyUnsent(stage, st, React(step, stage, st, cb));
  }

  lemma TidyCompletion(step: Step, stage: Stage, st: CallState, cb: bool)
    requires Moves(step) && Fits(step, stage) && TidyFrom(step, stage, st)
    requires step.CompleteLocked? || step.ReadCallback? || step.Post?
    ensures TidyTo(stage, st, React(step, stage, st, cb))
  {
    if step.CompleteLocked? {
      TidyCompletes(step, stage, st, cb);
    } else {
      TidyDelivery(step, stage, st, cb);
    }
  }

  lemma TidyCallback(step: Step, stage: Stage, st: CallState, cb: bool)
    requires Moves(step) && Fits(step, stage) && TidyFrom(step, stage, st)
    requires step.InlineReturns? || step.RunCompletion? || step.CallbackReturns?
    ensures TidyTo(stage, st, React(step, stage, st, cb))
  {
    TidyUnsent(stage, st, React(step, stage, st, cb));
  }

  lemma TidyPoll(step: Step, stage: Stage, st: CallState, cb: bool)
    requires Moves(step) && Fits(step, stage) && TidyFrom(step, stage, st) && (step.Poll? || step.Wake?)
    ensures TidyTo(stage, st, React(step, stage, st, cb))
  {
    TidyUnsent(stage, st, React(step, stage, st, cb));
  }

  lemma TidyFetch(step: Step, stage: Stage, st: CallState, cb: bool)
    requires Moves(step) && Fits(step, stage) && TidyFrom(step, stage, st) && step.Fetch?
    ensures TidyTo(stage, st, React(step, stage, st, cb))
  {
    TidyUnsent(stage, st, React(step, stage, st, cb));
  }

  lemma TidyDrop(step: Step, stage: Stage, st: CallState, cb: bool)
    requires Moves(step) && Fits(step, stage) && TidyFrom(step, stage, st) && step.Drop?
    ensures TidyTo(stage, st, React(step, stage, st, cb))
  {
    TidyUnsent(stage, st, React(step, stage, st, cb));
  }

  lemma TidyRead(step: Step, stage: Stage, st: CallState, cb: bool)
    requires Moves(step) && Fits(step, stage) && TidyFrom(step, stage, st)
    requires step.Poll? || step.Wake? || step.Fetch? || step.Drop?
    ensures TidyTo(stage, st, React(step, stage, st, cb))
  {
    if step.Fetch? {
      TidyFetch(step, stage, st, cb);
    } else if step.Drop? {
      TidyDrop(step, stage, st, cb);
    } else {
      TidyPoll(step, stage, st, cb);
    }
  }

  lemma TidyClone(step: Step, entry: Entry, st: CallState, cb: bool)
    requires step.Clone? && TidyFrom(step, Looking(entry), st)
    ensures TidyTo(Looking(entry), st, React(step, Looking(entry), st, cb))
  {
  }

  lemma TidyAnswer(step: Step, st: CallState, cb: bool)
    requires step.Answer? && TidyFrom(step, Answering, st)
    ensures TidyTo(Answering, st, React(step, Answering, st, cb))
  {
    InOrderSnoc(st.ops, OpGetResult);
  }

  lemma TidyRelease(step: Step, stage: Stage, st: CallState, cb: bool)
    requires Moves(step) && Fits(step, stage) && TidyFrom(step, stage, st)
    requires step.Clean? || step.SendCleanup? || step.Take?
    ensures TidyTo(stage, st, React(step, stage, st, cb))
  {
    if step.SendCleanup? {
      InOrderSnoc(st.ops, OpCleanup);
    }
  }

  lemma TidyReact(step: Step, stage: Stage, st: CallState, cb: bool)
    requires Moves(step) && Fits(step, stage) && TidyFrom(step, stage, st)
    ensures TidyTo(stage, st, React(step, stage, st, cb))
  {
    if step.BeginReturns? {
      TidyBeginReturns(step, st, cb);
    } else if step.SubmitWork? {
      TidySubmitWork(step, stage.completes, st, cb);
    } else if step.RunWork? {
      TidyRunWork(step, st, cb);
    } else if step.WorkReturns? {
      TidyWorkReturns(step, st, cb);
    } else if step.CompleteLocked? || step.ReadCallback? || step.Post? {
      TidyCompletion(step, stage, st, cb);
    } else if step.InlineReturns? || step.RunCompletion? || step.CallbackReturns? {
      TidyCallback(step, stage, st, cb);
    } else if step.Clone? {
      TidyClone(step, stage.entry, st, cb);
    } else if step.Answer? {
      TidyAnswer(step, st, cb);
    } else if step.Poll? || step.Wake? || step.Fetch? || step.Drop? {
      TidyRead(step, stage, st, cb);
    } else if step.Clean? || step.SendCleanup? || step.Take? {
      TidyRelease(step, stage, st, cb);
    }
  }

  // A status leaves E_PENDING only by the two steps the discipline constrains.
  lemma StatusLeavesPending(step: Step, stage: Stage, st: CallState, cb: bool)
    requires Moves(step) && Fits(step, stage) && Pending(st)
    ensures !Pending(Logged(React(step, stage, st, cb))) ==>
              (step.CompleteLocked? || (step.BeginReturns? && step.hr != S_OK))
  {
  }

  // A bystander of the same call stays tidy.
  lemma BystanderTidy(other: Stage, stage: Stage, st: CallState, r: Reaction)
    requires TidyStage(other, st) && TidyTo(stage, st, r)
    requires Pending(st) && !Pending(Logged(r)) ==> !Waits(other)
    requires Reads(stage) ==> !Reads(other)
    ensures TidyStage(other, Logged(r))
  {
  }

  lemma TwoReaders(s: Engine, f: nat, g: nat, a: nat)
    requires f < |s.tokens| && g < |s.tokens| && f != g && s.tokens[f].a == a && s.tokens[g].a == a
    requires Reads(s.tokens[f].stage) && Reads(s.tokens[g].stage)
    ensures Readers(s, a) >= 2
  {
    var ws := Weights(s.tokens, a);
    if f < g {
      SumTwo(ws, f, g);
    } else {
      SumTwo(ws, g, f);
    }
  }

  lemma FromTidy(s: Engine, step: Step, a: nat)
    requires Moves(step) && Enabled(s, step) && Tidy(s, step, a) && Inv(s) && TidyCall(s, a) && s.tokens[step.f].a == a
    ensures TidyFrom(step, s.tokens[step.f].stage, s.states[a])
  {
    assert Counted(s, a) && CleanedOnce(s, a);
    var ops := s.states[a].ops;
    if s.tokens[step.f].stage.SendingCleanup? {
      OneCleaner(s, step.f, step.f, a);
      assert Times(ops, OpCleanup) == 0;
    }
  }

  // ---- every step --------------------------------------------------------------------

  lemma BystandersTidy(s: Engine, step: Step, g: nat, a: nat)
    requires Moves(step) && Enabled(s, step) && Tidy(s, step, a) && TidyCall(s, a) && s.tokens[step.f].a == a
    requires g < |s.tokens| && g != step.f && s.tokens[g].a == a
    requires TidyTo(s.tokens[step.f].stage, s.states[a],
                    React(step, s.tokens[step.f].stage, s.states[a], s.callbackSet))
    ensures TidyStage(s.tokens[g].stage, Logged(React(step, s.tokens[step.f].stage, s.states[a], s.callbackSet)))
  {
    var stage, st := s.tokens[step.f].stage, s.states[a];
    if Pending(st) {
      StatusLeavesPending(step, stage, st, s.callbackSet);
    }
    if Reads(stage) && Reads(s.tokens[g].stage) {
      TwoReaders(s, step.f, g, a);
    }
    BystanderTidy(s.tokens[g].stage, stage, st, React(step, stage, st, s.callbackSet));
  }

  lemma TidyMoveTokens(s: Engine, step: Step, a: nat)
    requires Moves(step) && Enabled(s, step) && Tidy(s, step, a) && Inv(s) && TidyCall(s, a) && s.tokens[step.f].a == a
    ensures TidyState(React1(s, step).states[a]) && TidyTokens(React1(s, step), a)
  {
    var tok, st := s.tokens[step.f], s.states[a];
    var x := React(step, tok.stage, st, s.callbackSet);
    FromTidy(s, step, a);
    TidyReact(step, tok.stage, st, s.callbackSet);
    AllBystandersTidy(s, step, x, a);
    TidyAfterMove(s, step.f, x, a);
  }

  lemma TidyAfterMove(s: Engine, f: nat, x: Reaction, a: nat)
    requires f < |s.tokens| && s.tokens[f].a == a && a < |s.states| && TidyTo(s.tokens[f].stage, s.states[a], x)
    requires forall g :: 0 <= g < |s.tokens| && g != f && s.tokens[g].a == a ==>
               TidyStage(s.tokens[g].stage, Logged(x))
    ensures TidyState(Moved(s, f, x).states[a]) && TidyTokens(Moved(s, f, x), a)
  {
    MovedTokens(s, f, x);
  }

  lemma AllBystandersTidy(s: Engine, step: Step, x: Reaction, a: nat)
    requires Moves(step) && Enabled(s, step) && Tidy(s, step, a) && TidyCall(s, a) && s.tokens[step.f].a == a
    requires x == React(step, s.tokens[step.f].stage, s.states[a], s.callbackSet)
    requires TidyTo(s.tokens[step.f].stage, s.states[a], x)
    ensures forall g :: 0 <= g < |s.tokens| && g != step.f && s.tokens[g].a == a ==>
              TidyStage(s.tokens[g].stage, Logged(x))
  {
    forall g | 0 <= g < |s.tokens| && g != step.f && s.tokens[g].a == a
      ensures TidyStage(s.tokens[g].stage, Logged(x))
    {
      BystandersTidy(s, step, g, a);
    }
  }

  // The readers of a closing call: when the reader leaves, the block has been taken.
  lemma TidyMoveReaders(s: Engine, step: Step, a: nat)
    requires Moves(step) && Enabled(s, step) && Tidy(s, step, a) && Inv(s) && TidyCall(s, a) && s.tokens[step.f].a == a
    ensures TidyReaders(React1(s, step), a) || (step.Take? && Readers(React1(s, step), a) <= 1)
  {
    var f, stage, st := step.f, s.tokens[step.f].stage, s.states[a];
    var x := React(step, stage, st, s.callbackSet);
    FromTidy(s, step, a);
    TidyReact(step, stage, st, s.callbackSet);
    ReadersShift(s, f, x, a);
    assert Counted(s, a);
    ReactTaken(step, stage, st, s.callbackSet);
    if Reads(stage) {
      SumBounds(Weights(s.tokens, a), f);
      assert Readers(s, a) == 1;
      if stage.Cleaning? && st.inner.cleanedUp && st.inner.status == S_OK && !st.taken {
        var g := SomebodyCleans(s, a);
        TwoReaders(s, f, g, a);
      }
    }
  }

  lemma TidyElsewhere(s: Engine, f: nat, x: Reaction, a: nat)
    requires f < |s.tokens| && s.tokens[f].a < |s.states| && TidyCall(s, a) && s.tokens[f].a != a
    ensures TidyCall(Moved(s, f, x), a)
  {
    MovedTokens(s, f, x);
    TotalStep(s, f, x, a);
  }

  // Taking the block's reference ends the last claim on the readers.
  lemma TidyTake(s: Engine, step: Step, a: nat)
    requires step.Take? && Enabled(s, step) && Inv(s) && a < |s.states|
    requires TidyState(React1(s, step).states[a]) && TidyTokens(React1(s, step), a) && Readers(React1(s, step), a) <= 1
    requires s.tokens[step.f].a != a ==> TidyReaders(React1(s, step), a)
    ensures TidyCall(Apply(s, step), a)
  {
    assert Counted(s, s.tokens[step.f].a);
    TakeRetires(s, step);
    var m, r := React1(s, step), Apply(s, step);
    assert r.tokens == m.tokens && r == TakeBlock(m);
    assert r.states[a].ops == m.states[a].ops && r.states[a].inner == m.states[a].inner;
  }

  lemma TidyLook(s: Engine, entry: Entry, a: nat)
    requires Enabled(s, Look(entry)) && Tidy(s, Look(entry), a) && Inv(s) && TidyCall(s, a)
    ensures TidyCall(LookUp(s, entry), a)
  {
    if a < |s.states| {
      var tok := Token(s.current, Looking(entry));
      TotalSnoc(s.tokens, tok, a);
      var r := LookUp(s, entry);
      if s.current == a {
        assert Counted(s, a);
        if ReadEntry(Look(entry)) {
          NoReaders(s, a);
        }
        assert TidyStage(tok.stage, s.states[a]);
      }
      forall g | 0 <= g < |r.tokens| && r.tokens[g].a == a
        ensures TidyStage(r.tokens[g].stage, r.states[a])
      {
        if g < |s.tokens| {
          assert r.tokens[g] == s.tokens[g];
        }
      }
    }
  }

  lemma TidyBegin(s: Engine)
    requires Inv(s) && !s.named
    ensures TidyCall(BeginCall(s), |s.states|)
  {
    var n := |s.states|;
    var r := BeginCall(s);
    BeginningHoldsOne(s, n);
    forall g | 0 <= g < |r.tokens| && r.tokens[g].a == n
      ensures g == |s.tokens|
    {
    }
  }

  lemma TidyBeginOther(s: Engine, a: nat)
    requires a < |s.states| && TidyCall(s, a)
    ensures TidyCall(BeginCall(s), a)
  {
    var r := BeginCall(s);
    TotalSnoc(s.tokens, Token(|s.states|, Beginning), a);
    forall g | 0 <= g < |r.tokens| && r.tokens[g].a == a
      ensures g < |s.tokens| && r.tokens[g] == s.tokens[g]
    {
    }
  }

  lemma TidyStep(s: Engine, step: Step, a: nat)
    requires Inv(s) && Enabled(s, step) && Tidy(s, step, a) && TidyCall(s, a)
    ensures TidyCall(Apply(s, step), a)
  {
    if step.Begin? {
      if a < |s.states| {
        TidyBeginOther(s, a);
      } else if a == |s.states| {
        TidyBegin(s);
      }
    } else if step.Look? {
      TidyLook(s, step.entry, a);
    } else if Moves(step) {
      if s.tokens[step.f].a == a {
        TidyMoveTokens(s, step, a);
        TidyMoveReaders(s, step, a);
      } else {
        var tok := s.tokens[step.f];
        TidyElsewhere(s, step.f, React(step, tok.stage, s.states[tok.a], s.callbackSet), a);
      }
      if step.Take? && a < |s.states| {
        TidyTake(s, step, a);
      }
    } else {
      TidySetCallback(s, step, a);
    }
  }

  lemma TidySetCallback(s: Engine, step: Step, a: nat)
    requires step.SetCallback? && TidyCall(s, a)
    ensures TidyCall(Apply(s, step), a)
  {
    var r := Apply(s, step);
    assert r.tokens == s.tokens && r.states == s.states;
  }

  ghost predicate TidyRun(s: Engine, steps: seq<Step>, a: nat)
    decreases |steps|
  {
    steps == [] || (Enabled(s, steps[0]) && Tidy(s, steps[0], a) && TidyRun(Apply(s, steps[0]), steps[1..], a))
  }

  lemma {:induction false} TidyThroughout(s: Engine, steps: seq<Step>, a: nat)
    requires Inv(s) && TidyCall(s, a) && TidyRun(s, steps, a)
    ensures IsRun(s, steps) && Inv(After(s, steps)) && TidyCall(After(s, steps), a)
    decreases |steps|
  {
    if steps != [] {
      TidyStep(s, steps[0], a);
      StepKeepsInv(s, steps[0]);
      TidyThroughout(Apply(s, steps[0]), steps[1..], a);
    }
  }

  // The provider of a tidy call is sent Begin, then DoWork any number of times, then at most
  // one GetResult, then at most one Cleanup.
  lemma ProviderIsCalledInOrder(callbackSet: bool, steps: seq<Step>, a: nat)
    requires TidyRun(IDLE.(callbackSet := callbackSet), steps, a)
    ensures IsRun(IDLE.(callbackSet := callbackSet), steps)
    ensures var s := After(IDLE.(callbackSet := callbackSet), steps);
            a < |s.states| ==> HasShape(s.states[a].ops)
  {
    var from := IDLE.(callbackSet := callbackSet);
    TidyThroughout(from, steps, a);
    var s := After(from, steps);
    if a < |s.states| {
      OrderedShape(s.states[a].ops);
    }
  }
}
