// Each entry point by itself: what a call comes to when one of its frames goes from its first
// step to its return and nobody else moves. This is the sequential meaning of XAsyncGetStatus,
// XAsyncGetResult, XAsyncCancel, XAsyncSchedule, XAsyncComplete, of XAsyncBegin from its
// provider's answer on, and of the two queue callbacks; the transition system interleaves it.

module EngineAlone {
  import opened Results
  import opened EngineSystem
  import opened EngineInvariant
  import opened EngineRuns
  import opened EngineSections
  import opened Basics

  // ---- one frame's run ---------------------------------------------------------------

  // A run of frame `f` alone, to its return in `r`.
  ghost predicate Alone(s: Engine, steps: seq<Step>, f: nat, r: Engine)
    decreases |steps|
  {
    && f < |s.tokens| && s.tokens[f].a < |s.states|
    && if steps == [] then s.tokens[f].stage.Over? && r == s
       else Moves(steps[0]) && steps[0].f == f && Enabled(s, steps[0]) && Alone(Apply(s, steps[0]), steps[1..], f, r)
  }

  lemma {:induction false} AloneIsRun(s: Engine, steps: seq<Step>, f: nat, r: Engine)
    requires Alone(s, steps, f, r)
    ensures IsRun(s, steps) && After(s, steps) == r
    decreases |steps|
  {
    if steps != [] {
      AloneIsRun(Apply(s, steps[0]), steps[1..], f, r);
    }
  }

  // Nothing but frame `f`'s call has changed, to `st`; its frame has returned, and has left
  // these items on queues; the block has lost the call if its reference has been taken back.
  ghost predicate Leaves(s: Engine, r: Engine, f: nat, st: CallState, items: seq<Stage>) {
    && f < |s.tokens| && s.tokens[f].a < |s.states|
    && r.callbackSet == s.callbackSet && r.current == s.current
    && r.states == s.states[s.tokens[f].a := st]
    && r.tokens == s.tokens[f := Token(s.tokens[f].a, Over)] + Items(s.tokens[f].a, items)
    && (r.named <==> s.named && st.taken == s.states[s.tokens[f].a].taken)
  }

  function Items(a: nat, items: seq<Stage>): (tokens: seq<Token>)
    ensures |tokens| == |items| && forall i :: 0 <= i < |items| ==> tokens[i] == Token(a, items[i])
  {
    seq(|items|, i requires 0 <= i < |items| => Token(a, items[i]))
  }

  // Frame `f` is at `stage` for call `a`, whose state is `st`.
  predicate Stands(s: Engine, f: nat, a: nat, stage: Stage, st: CallState) {
    f < |s.tokens| && s.tokens[f] == Token(a, stage) && a < |s.states| && s.states[a] == st
  }

  // The frame's first step, and what is left to run.
  lemma FirstStep(s: Engine, steps: seq<Step>, f: nat, r: Engine) returns (m: Engine)
    requires Alone(s, steps, f, r) && !s.tokens[f].stage.Over?
    ensures steps != [] && Moves(steps[0]) && steps[0].f == f && Enabled(s, steps[0])
    ensures m == Apply(s, steps[0]) && Alone(m, steps[1..], f, r)
  {
    m := Apply(s, steps[0]);
  }

  lemma NoStepLeft(s: Engine, steps: seq<Step>, f: nat, r: Engine)
    requires Alone(s, steps, f, r) && s.tokens[f].stage.Over?
    ensures steps == [] && r == s
  {
  }

  // From `s` to `m` only frame `f` has moved on, leaving items on queues behind it.
  ghost predicate Passes(s: Engine, m: Engine, f: nat, items: seq<Stage>) {
    && f < |s.tokens| && s.tokens[f].a < |s.states| && |m.states| == |s.states|
    && m.callbackSet == s.callbackSet && m.current == s.current && m.named == s.named
    && m.states == s.states[s.tokens[f].a := m.states[s.tokens[f].a]]
    && m.states[s.tokens[f].a].taken == s.states[s.tokens[f].a].taken
    && |s.tokens| + |items| == |m.tokens| && m.tokens[f].a == s.tokens[f].a
    && m.tokens == s.tokens[f := m.tokens[f]] + Items(s.tokens[f].a, items)
  }

  lemma PassesOn(s: Engine, m: Engine, r: Engine, f: nat, st: CallState, first: seq<Stage>, rest: seq<Stage>)
    requires Passes(s, m, f, first) && Leaves(m, r, f, st, rest)
    ensures Leaves(s, r, f, st, first + rest)
  {
    var a := s.tokens[f].a;
    assert Items(a, first + rest) == Items(a, first) + Items(a, rest);
    assert m.tokens[f := Token(a, Over)] == s.tokens[f := Token(a, Over)] + Items(a, first);
  }

  lemma PassesBy(s: Engine, m: Engine, r: Engine, f: nat, st: CallState, items: seq<Stage>)
    requires Passes(s, m, f, []) && Leaves(m, r, f, st, items)
    ensures Leaves(s, r, f, st, items)
  {
    PassesOn(s, m, r, f, st, [], items);
    assert [] + items == items;
  }

  function Handed(x: Reaction): seq<Stage> {
    if x.handed.Over? then [] else [x.handed]
  }

  lemma MovePasses(s: Engine, f: nat, a: nat, stage: Stage, st: CallState, x: Reaction)
    requires Stands(s, f, a, stage, st)
    ensures Stands(Moved(s, f, x), f, a, x.stage, Logged(x))
    ensures Logged(x).taken == st.taken ==> Passes(s, Moved(s, f, x), f, Handed(x))
  {
    MovedTokens(s, f, x);
  }

  // ---- the same of the call's state alone --------------------------------------------

  // Taking the block's reference back.
  function Lost(st: CallState): CallState {
    st.(strong := st.strong - 1, taken := true)
  }

  // The steps take a frame from `stage`, with its call's state `st`, to its return, leaving
  // the state `st'` and these items on queues.
  predicate Goes(steps: seq<Step>, stage: Stage, st: CallState, cb: bool, st': CallState, items: seq<Stage>) {
    if steps == [] then stage.Over? && st' == st && items == []
    else
      && Moves(steps[0]) && Fits(steps[0], stage)
      && var x := React(steps[0], stage, st, cb);
         var next := if steps[0].Take? then Lost(Logged(x)) else Logged(x);
         Handed(x) <= items && Goes(steps[1..], x.stage, next, cb, st', items[|Handed(x)|..])
  }

  lemma GoesFirst(
    steps: seq<Step>, step: Step, stage: Stage, st: CallState, cb: bool, st': CallState, items: seq<Stage>)
    requires Moves(step) && Fits(step, stage)
    requires var x := React(step, stage, st, cb);
             Goes(steps, x.stage, if step.Take? then Lost(Logged(x)) else Logged(x), cb, st', items)
    ensures Goes([step] + steps, stage, st, cb, st', Handed(React(step, stage, st, cb)) + items)
  {
    var x := React(step, stage, st, cb);
    assert ([step] + steps)[1..] == steps && (Handed(x) + items)[|Handed(x)|..] == items;
  }

  lemma StepPasses(s: Engine, step: Step, f: nat)
    requires Reachable(s) && Moves(step) && !step.Take? && Enabled(s, step) && step.f == f
    ensures var tok := s.tokens[f];
            var x := React(step, tok.stage, s.states[tok.a], s.callbackSet);
            Stands(Apply(s, step), f, tok.a, x.stage, Logged(x)) && Passes(s, Apply(s, step), f, Handed(x))
  {
    var tok := s.tokens[f];
    ReactTaken(step, tok.stage, s.states[tok.a], s.callbackSet);
    MovePasses(s, f, tok.a, tok.stage, s.states[tok.a], React(step, tok.stage, s.states[tok.a], s.callbackSet));
  }

  function Dropped(st: CallState): CallState {
    st.(strong := st.strong - 1)
  }

  lemma GoesTaking(steps: seq<Step>, stage: Stage, st: CallState, cb: bool)
    requires |steps| == 2 && steps[0].Take? && steps[1].Drop? && stage.Taking?
    ensures Goes(steps, stage, st, cb, Dropped(Lost(st)), [])
  {
    var rest := steps[1..];
    assert rest[1..] == [];
    assert Goes(rest[1..], Over, Dropped(Lost(st)), cb, Dropped(Lost(st)), []);
    assert Goes(rest, Dropping, Lost(st), cb, Dropped(Lost(st)), []);
  }

  lemma TakeStep(s: Engine, step: Step, f: nat)
    requires Reachable(s) && step.Take? && step.f == f && Enabled(s, step)
    ensures var m, a := Apply(s, step), s.tokens[f].a;
            && m.tokens == s.tokens[f := Token(a, Dropping)] && m.states == s.states[a := Lost(s.states[a])]
            && m.callbackSet == s.callbackSet && m.current == s.current
            && s.named && !m.named && !s.states[a].taken
  {
    ReachableInv(s);
    assert Counted(s, s.tokens[f].a);
    TakeRetires(s, step);
  }

  lemma DropLeaves(s: Engine, steps: seq<Step>, f: nat, r: Engine)
    requires Reachable(s) && Alone(s, steps, f, r) && s.tokens[f].stage.Dropping?
    ensures |steps| == 1 && steps[0].Drop? && Leaves(s, r, f, Dropped(s.states[s.tokens[f].a]), [])
  {
    var m := FirstStep(s, steps, f, r);
    StepPasses(s, steps[0], f);
    NoStepLeft(m, steps[1..], f, r);
    PassesToItsEnd(s, m, f, []);
  }

  lemma PassesToItsEnd(s: Engine, m: Engine, f: nat, items: seq<Stage>)
    requires Passes(s, m, f, items) && m.tokens[f].stage.Over?
    ensures Leaves(s, m, f, m.states[s.tokens[f].a], items)
  {
  }

  // After the taking back only the frame's return is left.
  lemma TakeLeaves(s: Engine, steps: seq<Step>, f: nat, r: Engine)
    requires Reachable(s) && Alone(s, steps, f, r) && s.tokens[f].stage.Taking?
    ensures |steps| == 2 && steps[0].Take? && steps[1].Drop?
    ensures Leaves(s, r, f, Dropped(Lost(s.states[s.tokens[f].a])), [])
  {
    var m := FirstStep(s, steps, f, r);
    TakeStep(s, steps[0], f);
    ReachableStep(s, steps[0]);
    DropLeaves(m, steps[1..], f, r);
    assert r.tokens == s.tokens[f := Token(s.tokens[f].a, Over)];
  }

  lemma {:induction false} AloneGoes(s: Engine, steps: seq<Step>, f: nat, r: Engine)
    returns (st': CallState, items: seq<Stage>)
    requires Reachable(s) && Alone(s, steps, f, r)
    ensures Goes(steps, s.tokens[f].stage, s.states[s.tokens[f].a], s.callbackSet, st', items)
    ensures Leaves(s, r, f, st', items)
    decreases |steps|
  {
    var a, stage, st := s.tokens[f].a, s.tokens[f].stage, s.states[s.tokens[f].a];
    if steps == [] {
      st', items := st, [];
    } else if stage.Taking? {
      st', items := Dropped(Lost(st)), [];
      TakeLeaves(s, steps, f, r);
      GoesTaking(steps, stage, st, s.callbackSet);
    } else {
      var m := FirstStep(s, steps, f, r);
      var x := React(steps[0], stage, st, s.callbackSet);
      StepPasses(s, steps[0], f);
      ReachableStep(s, steps[0]);
      var rest;
      st', rest := AloneGoes(m, steps[1..], f, r);
      PassesOn(s, m, r, f, st', Handed(x), rest);
      GoesFirst(steps[1..], steps[0], stage, st, s.callbackSet, st', rest);
      assert steps == [steps[0]] + steps[1..];
      items := Handed(x) + rest;
    }
  }

  // ---- leaving -----------------------------------------------------------------------

  // What `cleanup` makes of a call: nothing the second time; the first time Cleanup is sent
  // and the block's reference taken back.
  function CleanedUp(st: CallState): CallState {
    if st.inner.cleanedUp then st
    else
      st.(inner := st.inner.(cleanedUp := true), ops := st.ops + [OpCleanup], taken := true, strong := st.strong - 1)
  }

  lemma Ends(steps: seq<Step>, st: CallState, cb: bool, st': CallState, items: seq<Stage>)
    requires Goes(steps, Over, st, cb, st', items)
    ensures steps == [] && st' == st && items == []
  {
  }

  lemma Drops(steps: seq<Step>, st: CallState, cb: bool, st': CallState, items: seq<Stage>)
    requires Goes(steps, Dropping, st, cb, st', items)
    ensures st' == Dropped(st) && items == []
  {
    assert steps[0].Drop?;
    Ends(steps[1..], Dropped(st), cb, st', items);
  }

  lemma Cleans(steps: seq<Step>, stage: Stage, st: CallState, cb: bool, st': CallState, items: seq<Stage>)
    requires stage.Cleaning? && Goes(steps, stage, st, cb, st', items)
    ensures st' == Dropped(CleanedUp(st)) && items == []
  {
    assert steps[0].Clean?;
    if st.inner.cleanedUp {
      Drops(steps[1..], st, cb, st', items);
    } else {
      Sends(steps[1..], SendingCleanup(stage.reader), st.(inner := st.inner.(cleanedUp := true)), cb, st', items);
    }
  }

  lemma Sends(steps: seq<Step>, stage: Stage, st: CallState, cb: bool, st': CallState, items: seq<Stage>)
    requires stage.SendingCleanup? && Goes(steps, stage, st, cb, st', items)
    ensures st' == Dropped(Lost(st.(ops := st.ops + [OpCleanup]))) && items == []
  {
    assert steps[0].SendCleanup?;
    var sent := st.(ops := st.ops + [OpCleanup]);
    assert steps[1].Take? && Goes(steps[1..][1..], Dropping, Lost(sent), cb, st', items);
    Drops(steps[1..][1..], Lost(sent), cb, st', items);
  }

  // ---- completing --------------------------------------------------------------------

  // What reporting a call finished makes of it: nothing if it is finished already; else it
  // takes the status and the size, the completion counts and waiters are notified.
  function Settled(st: CallState, hr: HResult, size: nat): CallState {
    st.(inner := st.inner.(status := hr, size := size), completions := st.completions + 1, notices := st.notices + 1,
        reopened := st.reopened + Once(hr == E_PENDING))
  }

  // And its delivery: silent without a callback; else a box on the completion queue, which
  // holds a reference, or, when the queue refuses it, the callback here and now. The third
  // step is the one that hands the box over.
  predicate Completed(steps: seq<Step>, st: CallState, cb: bool, hr: HResult, size: nat, st': CallState,
                      items: seq<Stage>)
  {
    if st.inner.status != E_PENDING then st' == Dropped(st) && items == []
    else if !cb then
      st' == Dropped(Settled(st, hr, size).(silent := st.silent + 1)) && items == []
    else
      && |steps| > 2 && steps[2].Post?
      && if steps[2].taken then st' == Settled(st, hr, size) && items == [Box]
         else st' == Dropped(Settled(st, hr, size).(delivered := st.delivered + 1)) && items == []
  }

  lemma Posts(steps: seq<Step>, st: CallState, cb: bool, st': CallState, items: seq<Stage>)
    requires Goes(steps, Posting, st, cb, st', items)
    ensures steps != [] && steps[0].Post?
    ensures if steps[0].taken then st' == Dropped(st) && items == [Box]
            else st' == Dropped(Dropped(st.(delivered := st.delivered + 1))) && items == []
  {
    assert steps[0].Post?;
    if steps[0].taken {
      assert items[0] == Box;
      Drops(steps[1..], st, cb, st', items[1..]);
    } else {
      var told := st.(delivered := st.delivered + 1);
      assert steps[1].InlineReturns? && Goes(steps[1..][1..], Dropping, Dropped(told), cb, st', items);
      Drops(steps[1..][1..], Dropped(told), cb, st', items);
    }
  }

  lemma Delivered(steps: seq<Step>, st: CallState, cb: bool, st': CallState, items: seq<Stage>)
    requires Goes(steps, Delivering, st, cb, st', items)
    ensures var told := st.(notices := st.notices + 1);
            if !cb then st' == Dropped(told.(silent := st.silent + 1)) && items == []
            else
              && |steps| > 1 && steps[1].Post?
              && if steps[1].taken then st' == told && items == [Box]
                 else st' == Dropped(told.(delivered := st.delivered + 1)) && items == []
  {
    assert steps[0].ReadCallback?;
    var told := st.(notices := st.notices + 1);
    if cb {
      assert Goes(steps[1..], Posting, told.(strong := st.strong + 1), cb, st', items);
      Posts(steps[1..], told.(strong := st.strong + 1), cb, st', items);
    } else {
      Drops(steps[1..], told.(silent := st.silent + 1), cb, st', items);
    }
  }

  lemma Completes(steps: seq<Step>, stage: Stage, st: CallState, cb: bool, st': CallState, items: seq<Stage>)
    requires stage.Completing? && Goes(steps, stage, st, cb, st', items)
    ensures Completed(steps, st, cb, stage.result, stage.size, st', items)
  {
    assert steps[0].CompleteLocked?;
    if st.inner.status != E_PENDING {
      Drops(steps[1..], st, cb, st', items);
    } else {
      var first := st.(inner := st.inner.(status := stage.result, size := stage.size),
                       completions := st.completions + 1, reopened := st.reopened + Once(stage.result == E_PENDING));
      assert Goes(steps[1..], Delivering, first, cb, st', items);
      Delivered(steps[1..], first, cb, st', items);
    }
  }

  // ---- the entry points --------------------------------------------------------------

  function Held1(st: CallState): CallState {
    st.(strong := st.strong + 1)
  }

  lemma ResultGoes(steps: seq<Step>, idOk: bool, room: nat, st: CallState, cb: bool, st': CallState, items: seq<Stage>)
    requires Goes(steps, Looking(Result(idOk, room)), st, cb, st', items)
    ensures items == []
    ensures st.inner.status == E_PENDING ==> st' == st
    ensures st.inner.status == S_OK && (!idOk || room < st.inner.size) ==> st' == st
    ensures st.inner.status != S_OK && st.inner.status != E_PENDING ==> st' == CleanedUp(st)
    ensures st.inner.status == S_OK && idOk && st.inner.size <= room ==>
              st' == CleanedUp(st.(ops := st.ops + [OpGetResult]))
  {
    assert steps[0].Clone?;
    FetchGoes(steps[1..], idOk, room, Held1(st), cb, st', items);
  }

  lemma AnswerGoes(steps: seq<Step>, st: CallState, cb: bool, st': CallState, items: seq<Stage>)
    requires Goes(steps, Answering, st, cb, st', items)
    ensures st' == Dropped(CleanedUp(st.(ops := st.ops + [OpGetResult]))) && items == []
  {
    assert steps[0].Answer?;
    Cleans(steps[1..], Cleaning(true), st.(ops := st.ops + [OpGetResult]), cb, st', items);
  }

  lemma FetchGoes(steps: seq<Step>, idOk: bool, room: nat, st: CallState, cb: bool, st': CallState, items: seq<Stage>)
    requires Goes(steps, Fetching(idOk, room), st, cb, st', items)
    ensures items == []
    ensures st.inner.status == E_PENDING ==> st' == Dropped(st)
    ensures st.inner.status == S_OK && (!idOk || room < st.inner.size) ==> st' == Dropped(st)
    ensures st.inner.status != S_OK && st.inner.status != E_PENDING ==> st' == Dropped(CleanedUp(st))
    ensures st.inner.status == S_OK && idOk && st.inner.size <= room ==>
              st' == Dropped(CleanedUp(st.(ops := st.ops + [OpGetResult])))
  {
    assert steps[0].Fetch?;
    var rest := steps[1..];
    if st.inner.status == S_OK && idOk && st.inner.size <= room {
      AnswerGoes(rest, st, cb, st', items);
    } else if st.inner.status != S_OK && st.inner.status != E_PENDING {
      Cleans(rest, Cleaning(true), st, cb, st', items);
    } else {
      Drops(rest, st, cb, st', items);
    }
  }

  // XAsyncGetResult: a pending call, another API's, or one with too small a buffer is left as
  // it is; a failed one is released; else the provider's GetResult is sent first.
  lemma GetResultAlone(s: Engine, steps: seq<Step>, f: nat, r: Engine, a: nat, idOk: bool, room: nat)
    requires Reachable(s) && Alone(s, steps, f, r) && s.tokens[f] == Token(a, Looking(Result(idOk, room)))
    ensures var st := s.states[a];
            && (st.inner.status == E_PENDING ==> Leaves(s, r, f, st, []))
            && (st.inner.status == S_OK && (!idOk || room < st.inner.size) ==> Leaves(s, r, f, st, []))
            && (st.inner.status != S_OK && st.inner.status != E_PENDING ==> Leaves(s, r, f, CleanedUp(st), []))
            && (st.inner.status == S_OK && idOk && st.inner.size <= room ==>
                  Leaves(s, r, f, CleanedUp(st.(ops := st.ops + [OpGetResult])), []))
  {
    var st', items := AloneGoes(s, steps, f, r);
    ResultGoes(steps, idOk, room, s.states[a], s.callbackSet, st', items);
  }

  lemma PollGoes(steps: seq<Step>, wait: bool, st: CallState, cb: bool, st': CallState, items: seq<Stage>)
    requires Goes(steps, Polling(wait), st, cb, st', items)
    ensures items == [] && !(wait && st.inner.status == E_PENDING)
    ensures st' == Dropped(if st.inner.status != E_PENDING && st.inner.size == 0 then CleanedUp(st) else st)
    decreases |steps|
  {
    assert steps[0].Poll?;
    var rest := steps[1..];
    if wait && st.inner.status == E_PENDING {
      assert steps[1].Wake?;
      PollGoes(rest[1..], true, st, cb, st', items);
    } else if st.inner.status != E_PENDING && st.inner.size == 0 {
      Cleans(rest, Cleaning(true), st, cb, st', items);
    } else {
      Drops(rest, st, cb, st', items);
    }
  }

  // XAsyncGetStatus: a finished call with nothing to fetch is released, any other is left as
  // it is; one that waits does not return by itself while the call is pending.
  lemma GetStatusAlone(s: Engine, steps: seq<Step>, f: nat, r: Engine, a: nat, wait: bool)
    requires Reachable(s) && Alone(s, steps, f, r) && s.tokens[f] == Token(a, Looking(Status(wait)))
    ensures var st := s.states[a];
            && !(wait && st.inner.status == E_PENDING)
            && (st.inner.status != E_PENDING && st.inner.size == 0 ==> Leaves(s, r, f, CleanedUp(st), []))
            && (st.inner.status == E_PENDING || st.inner.size != 0 ==> Leaves(s, r, f, st, []))
  {
    var st', items := AloneGoes(s, steps, f, r);
    assert steps[0].Clone?;
    PollGoes(steps[1..], wait, Held1(s.states[a]), s.callbackSet, st', items);
  }

  // XAsyncGetResultSize, and XAsyncBegin's test that the block is free: nothing changes.
  lemma PeekAlone(s: Engine, steps: seq<Step>, f: nat, r: Engine, a: nat)
    requires Reachable(s) && Alone(s, steps, f, r) && s.tokens[f] == Token(a, Looking(Peek))
    ensures Leaves(s, r, f, s.states[a], [])
  {
    var st', items := AloneGoes(s, steps, f, r);
    assert steps[0].Clone?;
    Drops(steps[1..], Held1(s.states[a]), s.callbackSet, st', items);
  }

  // XAsyncComplete.
  lemma CompleteAlone(s: Engine, steps: seq<Step>, f: nat, r: Engine, a: nat, hr: HResult, size: nat)
    returns (st': CallState, items: seq<Stage>)
    requires Reachable(s) && Alone(s, steps, f, r) && s.tokens[f] == Token(a, Looking(Report(hr, size)))
    ensures Leaves(s, r, f, st', items)
    ensures steps != [] && Completed(steps[1..], Held1(s.states[a]), s.callbackSet, hr, size, st', items)
  {
    st', items := AloneGoes(s, steps, f, r);
    assert steps[0].Clone?;
    Completes(steps[1..], Completing(hr, size), Held1(s.states[a]), s.callbackSet, st', items);
  }

  // Submitting a pass: a work item that holds a reference, or, refused, nothing of the kind;
  // a pass somebody counts on is then reported as aborted.
  predicate Scheduled(steps: seq<Step>, completes: bool, st: CallState, cb: bool, st': CallState, items: seq<Stage>) {
    && steps != [] && steps[0].SubmitWork?
    && if steps[0].taken then st' == Dropped(st) && items == [WorkItem]
       else if completes then Completed(steps[1..], Dropped(st), cb, E_ABORT, 0, st', items)
       else st' == Dropped(Dropped(st)) && items == []
  }

  lemma Schedules(steps: seq<Step>, stage: Stage, st: CallState, cb: bool, st': CallState, items: seq<Stage>)
    requires stage.Scheduling? && Goes(steps, stage, st, cb, st', items)
    ensures Scheduled(steps, stage.completes, st, cb, st', items)
  {
    assert steps[0].SubmitWork?;
    if steps[0].taken {
      assert items[0] == WorkItem;
      Drops(steps[1..], st, cb, st', items[1..]);
    } else if stage.completes {
      Completes(steps[1..], Completing(E_ABORT, 0), Dropped(st), cb, st', items);
    } else {
      Drops(steps[1..], Dropped(st), cb, st', items);
    }
  }

  // XAsyncSchedule, and XAsyncRun's first pass, which nobody counts on.
  lemma ScheduleAlone(s: Engine, steps: seq<Step>, f: nat, r: Engine, a: nat, completes: bool)
    returns (st': CallState, items: seq<Stage>)
    requires Reachable(s) && Alone(s, steps, f, r) && s.tokens[f] == Token(a, Looking(Schedule(completes)))
    ensures Leaves(s, r, f, st', items)
    ensures steps != [] && Scheduled(steps[1..], completes, Held1(Held1(s.states[a])), s.callbackSet, st', items)
  {
    st', items := AloneGoes(s, steps, f, r);
    assert steps[0].Clone?;
    Schedules(steps[1..], Scheduling(completes), Held1(Held1(s.states[a])), s.callbackSet, st', items);
  }

  // XAsyncCancel: of a call that is over or cancelled already, nothing; else the provider is
  // told, and given a pass to notice.
  lemma CancelAlone(s: Engine, steps: seq<Step>, f: nat, r: Engine, a: nat)
    returns (st': CallState, items: seq<Stage>)
    requires Reachable(s) && Alone(s, steps, f, r) && s.tokens[f] == Token(a, Looking(Cancel))
    ensures Leaves(s, r, f, st', items)
    ensures var st := s.states[a];
            var told := st.(inner := st.inner.(canceled := true), ops := st.ops + [OpCancel]);
            if st.inner.status != E_PENDING || st.inner.canceled then st' == st && items == []
            else |steps| > 4 && Scheduled(steps[4..], true, Held1(Held1(told)), s.callbackSet, st', items)
  {
    st', items := AloneGoes(s, steps, f, r);
    CancelGoes(steps, s.states[a], s.callbackSet, st', items);
  }

  lemma CancelGoes(steps: seq<Step>, st: CallState, cb: bool, st': CallState, items: seq<Stage>)
    requires Goes(steps, Looking(Cancel), st, cb, st', items)
    ensures var told := st.(inner := st.inner.(canceled := true), ops := st.ops + [OpCancel]);
            if st.inner.status != E_PENDING || st.inner.canceled then st' == st && items == []
            else |steps| > 4 && Scheduled(steps[4..], true, Held1(Held1(told)), cb, st', items)
  {
    assert steps[0].Clone?;
    if st.inner.status != E_PENDING || st.inner.canceled {
      Drops(steps[1..][1..], Held1(st), cb, st', items);
    } else {
      var flagged := st.(inner := st.inner.(canceled := true));
      assert Goes(steps[1..][1..], SendingCancel, Held1(flagged), cb, st', items);
      CancelSends(steps[1..][1..], Held1(flagged), cb, st', items);
      assert steps[1..][1..][2..] == steps[4..];
    }
  }

  lemma CancelSends(steps: seq<Step>, st: CallState, cb: bool, st': CallState, items: seq<Stage>)
    requires Goes(steps, SendingCancel, st, cb, st', items) && st.inner.status == E_PENDING
    ensures |steps| > 2 && Scheduled(steps[2..], true, Held1(st.(ops := st.ops + [OpCancel])), cb, st', items)
  {
    assert steps[0].SendCancel?;
    Rechecks(steps[1..], st.(ops := st.ops + [OpCancel]), cb, st', items);
    assert steps[1..][1..] == steps[2..];
  }

  // A call that completed while its provider was told is given no further pass.
  lemma Rechecks(steps: seq<Step>, st: CallState, cb: bool, st': CallState, items: seq<Stage>)
    requires Goes(steps, Rechecking, st, cb, st', items)
    ensures st.inner.status != E_PENDING ==> st' == Dropped(st) && items == []
    ensures st.inner.status == E_PENDING ==> |steps| > 1 && Scheduled(steps[1..], true, Held1(st), cb, st', items)
  {
    assert steps[0].Recheck?;
    if st.inner.status == E_PENDING {
      Schedules(steps[1..], Scheduling(true), Held1(st), cb, st', items);
    } else {
      Drops(steps[1..], st, cb, st', items);
    }
  }

  function Rejection(st: CallState, hr: HResult): CallState {
    st.(start := Rejected, inner := st.inner.(status := hr), reopened := st.reopened + Once(hr == E_PENDING))
  }

  lemma BeginGoes(steps: seq<Step>, st: CallState, cb: bool, st': CallState, items: seq<Stage>)
    requires Goes(steps, Beginning, st, cb, st', items)
    ensures steps != [] && steps[0].BeginReturns? && items == []
    ensures st' == Dropped(if steps[0].hr == S_OK then st.(start := Started) else CleanedUp(Rejection(st, steps[0].hr)))
  {
    assert steps[0].BeginReturns?;
    if steps[0].hr == S_OK {
      Drops(steps[1..], st.(start := Started), cb, st', items);
    } else {
      Cleans(steps[1..], Cleaning(false), Rejection(st, steps[0].hr), cb, st', items);
    }
  }

  // XAsyncBegin from the provider's answer on: let in, or rejected with that status and
  // cleaned up.
  lemma BeginAlone(s: Engine, steps: seq<Step>, f: nat, r: Engine, a: nat)
    requires Reachable(s) && Alone(s, steps, f, r) && s.tokens[f] == Token(a, Beginning)
    ensures steps != [] && steps[0].BeginReturns?
    ensures var st, hr := s.states[a], steps[0].hr;
            Leaves(s, r, f, Dropped(if hr == S_OK then st.(start := Started) else CleanedUp(Rejection(st, hr))), [])
  {
    var st', items := AloneGoes(s, steps, f, r);
    BeginGoes(steps, s.states[a], s.callbackSet, st', items);
  }

  // A work item: cancelled by its port, the call is reported as aborted; else the provider
  // does a pass, and reports by returning anything but E_PENDING.
  lemma WorkAlone(s: Engine, steps: seq<Step>, f: nat, r: Engine, a: nat)
    returns (st': CallState, items: seq<Stage>)
    requires Reachable(s) && Alone(s, steps, f, r) && s.tokens[f] == Token(a, WorkItem)
    ensures Leaves(s, r, f, st', items) && steps != [] && steps[0].RunWork?
    ensures var st := s.states[a];
            var worked := st.(ops := st.ops + [OpDoWork]);
            if steps[0].canceled then Completed(steps[1..], st, s.callbackSet, E_ABORT, 0, st', items)
            else
              && |steps| > 1 && steps[1].WorkReturns?
              && if steps[1].hr == E_PENDING then st' == Dropped(worked) && items == []
                 else Completed(steps[2..], worked, s.callbackSet, steps[1].hr, 0, st', items)
  {
    st', items := AloneGoes(s, steps, f, r);
    WorkGoes(steps, s.states[a], s.callbackSet, st', items);
  }

  lemma WorkGoes(steps: seq<Step>, st: CallState, cb: bool, st': CallState, items: seq<Stage>)
    requires Goes(steps, WorkItem, st, cb, st', items)
    ensures steps != [] && steps[0].RunWork?
    ensures var worked := st.(ops := st.ops + [OpDoWork]);
            if steps[0].canceled then Completed(steps[1..], st, cb, E_ABORT, 0, st', items)
            else
              && |steps| > 1 && steps[1].WorkReturns?
              && if steps[1].hr == E_PENDING then st' == Dropped(worked) && items == []
                 else Completed(steps[2..], worked, cb, steps[1].hr, 0, st', items)
  {
    assert steps[0].RunWork?;
    if steps[0].canceled {
      Completes(steps[1..], Completing(E_ABORT, 0), st, cb, st', items);
    } else {
      var worked := st.(ops := st.ops + [OpDoWork]);
      assert steps[1].WorkReturns?;
      assert steps[1..][1..] == steps[2..];
      if steps[1].hr == E_PENDING {
        Drops(steps[2..], worked, cb, st', items);
      } else {
        Completes(steps[2..], Completing(steps[1].hr, 0), worked, cb, st', items);
      }
    }
  }

  lemma BoxGoes(steps: seq<Step>, st: CallState, cb: bool, st': CallState, items: seq<Stage>)
    requires Goes(steps, Box, st, cb, st', items)
    ensures st' == Dropped(st.(delivered := st.delivered + 1)) && items == []
  {
    assert steps[0].RunCompletion?;
    var told := st.(delivered := st.delivered + 1);
    assert steps[1].CallbackReturns?;
    Drops(steps[1..][1..], told, cb, st', items);
  }

  // A box on the completion queue: the callback is invoked, cancelled or not.
  lemma BoxAlone(s: Engine, steps: seq<Step>, f: nat, r: Engine, a: nat)
    requires Reachable(s) && Alone(s, steps, f, r) && s.tokens[f] == Token(a, Box)
    ensures Leaves(s, r, f, Dropped(s.states[a].(delivered := s.states[a].delivered + 1)), [])
  {
    var st', items := AloneGoes(s, steps, f, r);
    BoxGoes(steps, s.states[a], s.callbackSet, st', items);
  }

  // ---- nobody is stuck ---------------------------------------------------------------

  // A frame's next step; queues take what they are given and providers answer S_OK, as they
  // may.
  function NextStep(stage: Stage, f: nat): Step {
    match stage
    case Looking(_) => Clone(f)
    case WorkItem => RunWork(f, false)
    case Box => RunCompletion(f)
    case Beginning => BeginReturns(f, S_OK)
    case Scheduling(_) => SubmitWork(f, true)
    case Completing(_, _) => CompleteLocked(f)
    case Delivering => ReadCallback(f)
    case Posting => Post(f, true)
    case InlineCallback => InlineReturns(f)
    case Working => WorkReturns(f, S_OK)
    case CallingBack => CallbackReturns(f)
    case Polling(_) => Poll(f)
    case Parked(_) => Wake(f)
    case Fetching(_, _) => Fetch(f)
    case Answering => Answer(f)
    case Cleaning(_) => Clean(f)
    case SendingCleanup(_) => SendCleanup(f)
    case Taking(_) => Take(f)
    case CancelEntry => CancelTest(f)
    case SendingCancel => SendCancel(f)
    case Rechecking => Recheck(f)
    case Dropping => Drop(f)
    case Over => Begin
  }

  // Whoever acts for a call and is not done can go on, unless the call was freed under a
  // lookup that has no reference yet.
  lemma NobodyIsStuck(s: Engine, f: nat)
    requires Reachable(s) && f < |s.tokens| && !s.tokens[f].stage.Over?
    ensures var step := NextStep(s.tokens[f].stage, f);
            && Moves(step) && step.f == f && s.tokens[f].a < |s.states|
            && (Enabled(s, step) || (s.tokens[f].stage.Looking? && s.states[s.tokens[f].a].strong <= 0))
  {
    ReachableInv(s);
  }
}
