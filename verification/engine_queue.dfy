// The call engine running on its queue's two ports, or on one port that is both sides of the
// queue. Every hand-over of the engine is a submit to a port, every resumption an invocation
// by it; the ports go on serving other users. What the engine's own model takes on trust (each
// item it hands over comes back exactly once) is proved here from the ports, in every
// interleaving of them all.

module EngineQueue {
  import opened Basics
  import opened Results
  import E = EngineSystem
  import EI = EngineInvariant
  import ER = EngineRuns
  import ET = EngineTheorems
  import EC = EngineCompletion
  import P = PortSystem
  import PI = PortInvariant
  import PR = PortRuns
  import PT = PortTheorems
  import opened PortContract

  datatype Side = Work | Done

  // A port with the engine's outstanding items on it: token index to callback identity.
  datatype Link = Link(port: P.Sys, items: map<nat, nat>)

  // `shared` when one port, `work`, is both sides of the queue; `done` is then no part of it.
  datatype Joint = Joint(shared: bool, work: Link, done: Link, engine: E.Engine)

  // The port that serves a side.
  function At(shared: bool, side: Side): Side {
    if shared then Work else side
  }

  datatype Step =
    | PortAlone(at: Side, portStep: P.Step)
    | EngineAlone(engineStep: E.Step)
    | HandOver(side: Side, c: nat, f: nat)
    | Resume(at: Side, c: nat, f: nat)

  // Whether a token at this stage waits on this port.
  predicate WaitsOn(shared: bool, at: Side, stage: E.Stage) {
    (stage.WorkItem? && at.Work?) || (stage.Box? && at == At(shared, Done))
  }

  predicate TouchesQueue(step: E.Step) {
    step.SubmitWork? || step.Post? || step.RunWork? || step.RunCompletion?
  }

  function On(j: Joint, at: Side): Link {
    if at.Work? then j.work else j.done
  }

  function WithLink(j: Joint, at: Side, l: Link): Joint {
    if at.Work? then j.(work := l) else j.(done := l)
  }

  function Submission(side: Side, f: nat, taken: bool): E.Step {
    if side.Work? then E.SubmitWork(f, taken) else E.Post(f, taken)
  }

  // A resumed item goes on as what it is.
  function Resumption(e: E.Engine, f: nat, canceled: bool): E.Step {
    if f < |e.tokens| && e.tokens[f].stage.WorkItem? then E.RunWork(f, canceled) else E.RunCompletion(f)
  }

  predicate Submits(l: Link, c: nat) {
    c < |l.port.calls| && l.port.calls[c].Submitting?
  }

  predicate Invokes(l: Link, c: nat) {
    c < |l.port.calls| && P.CanInvoke(l.port.calls[c])
  }

  // A port step on its own is nobody's resumption; a resumption is an invocation of the
  // identity an item was accepted under. It is NOT asked that the engine be ready for it.
  predicate Enabled(j: Joint, step: Step) {
    match step
    case PortAlone(at, ps) =>
      P.Enabled(On(j, at).port, ps) && (ps.Invoke? ==> InvokedId(On(j, at).port, ps.c) !in On(j, at).items.Values)
    case EngineAlone(es) => E.Enabled(j.engine, es) && !TouchesQueue(es)
    case HandOver(side, c, f) =>
      var l := On(j, At(j.shared, side));
      Submits(l, c) && E.Enabled(j.engine, Submission(side, f, Accepts(l.port, c)))
    case Resume(at, c, f) =>
      Invokes(On(j, at), c) && f in On(j, at).items && On(j, at).items[f] == InvokedId(On(j, at).port, c)
  }

  function HandedOver(l: Link, c: nat, index: nat): Link
    requires Submits(l, c)
  {
    Link(P.DoSubmit(l.port, c), if Accepts(l.port, c) then l.items[index := |l.port.accepted|] else l.items)
  }

  function Resumed(l: Link, c: nat, f: nat): Link
    requires Invokes(l, c)
  {
    Link(P.DoInvoke(l.port, c), l.items - {f})
  }

  function EngineAfter(e: E.Engine, step: E.Step): E.Engine {
    if E.Enabled(e, step) then E.Apply(e, step) else e
  }

  function Apply(j: Joint, step: Step): Joint
    requires Enabled(j, step)
  {
    match step
    case PortAlone(at, ps) => WithLink(j, at, On(j, at).(port := P.Apply(On(j, at).port, ps)))
    case EngineAlone(es) => j.(engine := E.Apply(j.engine, es))
    case HandOver(side, c, f) =>
      var at := At(j.shared, side);
      WithLink(j, at, HandedOver(On(j, at), c, |j.engine.tokens|))
        .(engine := E.Apply(j.engine, Submission(side, f, Accepts(On(j, at).port, c))))
    case Resume(at, c, f) =>
      WithLink(j, at, Resumed(On(j, at), c, f))
        .(engine := EngineAfter(j.engine, Resumption(j.engine, f, InvokedAsCanceled(On(j, at).port, c))))
  }

  // ---- the invariant -----------------------------------------------------------------

  // The items are exactly the tokens waiting on this port, each under an identity of its own
  // that the port accepted and has not invoked.
  ghost predicate Linked(l: Link, tokens: seq<E.Token>, shared: bool, at: Side) {
    && PI.Inv(l.port)
    && (forall f: nat :: f in l.items <==> f < |tokens| && WaitsOn(shared, at, tokens[f].stage))
    && (forall f :: f in l.items ==> Outstanding(l.port, l.items[f]))
    && (forall f, g :: f in l.items && g in l.items && l.items[f] == l.items[g] ==> f == g)
  }

  ghost predicate Inv(j: Joint) {
    && ER.Reachable(j.engine)
    && Linked(j.work, j.engine.tokens, j.shared, Work)
    && Linked(j.done, j.engine.tokens, j.shared, Done)
  }

  // ---- what engine steps do to waiting tokens ----------------------------------------

  // The tokens waiting on a port stay; a new one appears only when something is handed over.
  ghost predicate SameWaiting(shared: bool, at: Side, tokens: seq<E.Token>, tokens': seq<E.Token>) {
    && |tokens| <= |tokens'|
    && (forall f :: 0 <= f < |tokens| ==> WaitsOn(shared, at, tokens'[f].stage) == WaitsOn(shared, at, tokens[f].stage))
    && (forall f :: |tokens| <= f < |tokens'| ==> !WaitsOn(shared, at, tokens'[f].stage))
  }

  lemma ReactLeavesQueues(step: E.Step, stage: E.Stage, st: E.CallState, cb: bool)
    requires E.Moves(step) && E.Fits(step, stage)
    ensures var r := E.React(step, stage, st, cb);
            && !r.stage.WorkItem? && !r.stage.Box?
            && (r.handed.WorkItem? <==> step.SubmitWork? && step.taken)
            && (r.handed.Box? <==> step.Post? && step.taken)
            && (r.handed.Over? || r.handed.WorkItem? || r.handed.Box?)
            && (stage.WorkItem? <==> step.RunWork?) && (stage.Box? <==> step.RunCompletion?)
  {
  }

  lemma MovedLeavesQueues(e: E.Engine, f: nat, x: E.Reaction, shared: bool, at: Side)
    requires f < |e.tokens| && e.tokens[f].a < |e.states|
    requires WaitsOn(shared, at, x.stage) == WaitsOn(shared, at, e.tokens[f].stage) && !WaitsOn(shared, at, x.handed)
    ensures SameWaiting(shared, at, e.tokens, E.Moved(e, f, x).tokens)
  {
    ER.MovedTokens(e, f, x);
  }

  lemma MoveLeavesQueues(e: E.Engine, step: E.Step, shared: bool, at: Side)
    requires E.Moves(step) && E.Enabled(e, step)
    requires at.Work? ==> !step.RunWork? && !(step.SubmitWork? && step.taken)
    requires at == At(shared, Done) ==> !step.RunCompletion? && !(step.Post? && step.taken)
    ensures SameWaiting(shared, at, e.tokens, E.Apply(e, step).tokens)
  {
    var tok := e.tokens[step.f];
    ReactLeavesQueues(step, tok.stage, e.states[tok.a], e.callbackSet);
    MovedLeavesQueues(e, step.f, E.React(step, tok.stage, e.states[tok.a], e.callbackSet), shared, at);
    assert E.Apply(e, step).tokens == E.React1(e, step).tokens;
  }

  lemma EngineLeavesQueues(e: E.Engine, step: E.Step, shared: bool, at: Side)
    requires E.Enabled(e, step) && !TouchesQueue(step)
    ensures SameWaiting(shared, at, e.tokens, E.Apply(e, step).tokens)
  {
    if E.Moves(step) {
      MoveLeavesQueues(e, step, shared, at);
    }
  }

  lemma SubmissionAdds(e: E.Engine, shared: bool, side: Side, f: nat)
    requires E.Enabled(e, Submission(side, f, true))
    ensures var tokens, at := E.Apply(e, Submission(side, f, true)).tokens, At(shared, side);
            && |tokens| == |e.tokens| + 1
            && WaitsOn(shared, at, tokens[|e.tokens|].stage)
            && SameWaiting(shared, at, e.tokens, tokens[..|e.tokens|])
  {
    var step, tok := Submission(side, f, true), e.tokens[f];
    ReactLeavesQueues(step, tok.stage, e.states[tok.a], e.callbackSet);
    ER.MovedTokens(e, f, E.React(step, tok.stage, e.states[tok.a], e.callbackSet));
  }

  lemma ResumptionRemoves(e: E.Engine, step: E.Step, shared: bool, at: Side)
    requires E.Enabled(e, step) && (step.RunWork? || step.RunCompletion?)
    ensures var tokens := E.Apply(e, step).tokens;
            && |tokens| == |e.tokens|
            && !WaitsOn(shared, at, tokens[step.f].stage)
            && forall g :: 0 <= g < |tokens| && g != step.f ==> tokens[g] == e.tokens[g]
  {
    var tok := e.tokens[step.f];
    ReactLeavesQueues(step, tok.stage, e.states[tok.a], e.callbackSet);
    ER.MovedTokens(e, step.f, E.React(step, tok.stage, e.states[tok.a], e.callbackSet));
  }

  // ---- every step keeps the link -----------------------------------------------------

  lemma LinkKept(l: Link, tokens: seq<E.Token>, tokens': seq<E.Token>, shared: bool, at: Side)
    requires Linked(l, tokens, shared, at) && SameWaiting(shared, at, tokens, tokens')
    ensures Linked(l, tokens', shared, at)
  {
  }

  lemma LinkPortAlone(l: Link, ps: P.Step, tokens: seq<E.Token>, shared: bool, at: Side)
    requires Linked(l, tokens, shared, at) && P.Enabled(l.port, ps)
    requires ps.Invoke? ==> InvokedId(l.port, ps.c) !in l.items.Values
    ensures Linked(l.(port := P.Apply(l.port, ps)), tokens, shared, at)
  {
    PR.StepKeepsInv(l.port, ps);
    forall f | f in l.items
      ensures Outstanding(P.Apply(l.port, ps), l.items[f])
    {
      PortStepContract(l.port, ps, l.items[f]);
      assert l.items[f] in l.items.Values;
    }
  }

  lemma LinkRefused(l: Link, c: nat, tokens: seq<E.Token>, tokens': seq<E.Token>, shared: bool, at: Side)
    requires Linked(l, tokens, shared, at) && Submits(l, c) && !Accepts(l.port, c)
    requires SameWaiting(shared, at, tokens, tokens')
    ensures Linked(HandedOver(l, c, |tokens|), tokens', shared, at)
  {
    var ps := P.Submit(c);
    assert P.Enabled(l.port, ps) && P.Apply(l.port, ps) == P.DoSubmit(l.port, c);
    LinkPortAlone(l, ps, tokens, shared, at);
    LinkKept(HandedOver(l, c, |tokens|), tokens, tokens', shared, at);
  }

  lemma StaysOutstanding(l: Link, c: nat, f: nat)
    requires PI.Inv(l.port) && Submits(l, c) && f in l.items && Outstanding(l.port, l.items[f])
    ensures Outstanding(P.DoSubmit(l.port, c), l.items[f]) && l.items[f] < |l.port.accepted|
  {
    var ps := P.Submit(c);
    assert P.Enabled(l.port, ps) && P.Apply(l.port, ps) == P.DoSubmit(l.port, c);
    PortStepContract(l.port, ps, l.items[f]);
  }

  lemma NewIsOutstanding(l: Link, c: nat)
    requires PI.Inv(l.port) && Submits(l, c) && Accepts(l.port, c)
    ensures PI.Inv(P.DoSubmit(l.port, c)) && Outstanding(P.DoSubmit(l.port, c), |l.port.accepted|)
  {
    var ps := P.Submit(c);
    assert P.Enabled(l.port, ps) && P.Apply(l.port, ps) == P.DoSubmit(l.port, c);
    PortStepContract(l.port, ps, |l.port.accepted|);
  }

  lemma LinkAccepted(l: Link, c: nat, tokens: seq<E.Token>, tokens': seq<E.Token>, shared: bool, at: Side)
    requires Linked(l, tokens, shared, at) && Submits(l, c) && Accepts(l.port, c)
    requires |tokens'| == |tokens| + 1 && WaitsOn(shared, at, tokens'[|tokens|].stage)
    requires SameWaiting(shared, at, tokens, tokens'[..|tokens|])
    ensures Linked(HandedOver(l, c, |tokens|), tokens', shared, at)
  {
    var r := HandedOver(l, c, |tokens|);
    NewIsOutstanding(l, c);
    forall f | f in l.items
      ensures Outstanding(r.port, l.items[f]) && l.items[f] < |l.port.accepted|
    {
      StaysOutstanding(l, c, f);
    }
    forall f | 0 <= f < |tokens|
      ensures WaitsOn(shared, at, tokens'[f].stage) == WaitsOn(shared, at, tokens[f].stage)
    {
      assert tokens'[f] == tokens'[..|tokens|][f];
    }
  }

  lemma LinkResume(l: Link, c: nat, f: nat, tokens: seq<E.Token>, tokens': seq<E.Token>, shared: bool, at: Side)
    requires Linked(l, tokens, shared, at) && Invokes(l, c) && f in l.items && l.items[f] == InvokedId(l.port, c)
    requires |tokens'| == |tokens| && !WaitsOn(shared, at, tokens'[f].stage)
    requires forall g :: 0 <= g < |tokens| && g != f ==> tokens'[g] == tokens[g]
    ensures Linked(Resumed(l, c, f), tokens', shared, at)
  {
    var ps := P.Invoke(c);
    PR.StepKeepsInv(l.port, ps);
    forall g | g in l.items && g != f
      ensures Outstanding(P.DoInvoke(l.port, c), l.items[g])
    {
      PortStepContract(l.port, ps, l.items[g]);
    }
  }

  // The engine's continuation of a resumed item.
  function Continues(j: Joint, at: Side, c: nat, f: nat): E.Step
    requires Invokes(On(j, at), c)
  {
    Resumption(j.engine, f, InvokedAsCanceled(On(j, at).port, c))
  }

  // The engine is ready for every invocation a port makes of one of its items.
  lemma InvocationFindsItsToken(j: Joint, at: Side, c: nat, f: nat)
    requires Inv(j) && Enabled(j, Resume(at, c, f))
    ensures E.Enabled(j.engine, Continues(j, at, c, f)) && WaitsOn(j.shared, at, j.engine.tokens[f].stage)
  {
    ER.ReachableInv(j.engine);
    assert f < |j.engine.tokens| && WaitsOn(j.shared, at, j.engine.tokens[f].stage);
  }

  lemma EngineStaysReachable(j: Joint, step: Step)
    requires Inv(j) && Enabled(j, step)
    ensures ER.Reachable(Apply(j, step).engine)
  {
    match step
    case PortAlone(_, _) =>
    case EngineAlone(es) => ER.ReachableStep(j.engine, es);
    case HandOver(side, c, f) =>
      ER.ReachableStep(j.engine, Submission(side, f, Accepts(On(j, At(j.shared, side)).port, c)));
    case Resume(at, c, f) =>
      InvocationFindsItsToken(j, at, c, f);
      ER.ReachableStep(j.engine, Continues(j, at, c, f));
  }

  lemma LinkHandOver(j: Joint, side: Side, c: nat, f: nat)
    requires Inv(j) && Enabled(j, HandOver(side, c, f))
    ensures var at := At(j.shared, side);
            Linked(HandedOver(On(j, at), c, |j.engine.tokens|), Apply(j, HandOver(side, c, f)).engine.tokens,
                   j.shared, at)
  {
    var at := At(j.shared, side);
    var l := On(j, at);
    var taken := Accepts(l.port, c);
    var tokens' := E.Apply(j.engine, Submission(side, f, taken)).tokens;
    if taken {
      SubmissionAdds(j.engine, j.shared, side, f);
      LinkAccepted(l, c, j.engine.tokens, tokens', j.shared, at);
    } else {
      MoveLeavesQueues(j.engine, Submission(side, f, taken), j.shared, at);
      LinkRefused(l, c, j.engine.tokens, tokens', j.shared, at);
    }
  }

  lemma LinkResumption(j: Joint, at: Side, c: nat, f: nat)
    requires Inv(j) && Enabled(j, Resume(at, c, f))
    ensures Linked(Resumed(On(j, at), c, f), Apply(j, Resume(at, c, f)).engine.tokens, j.shared, at)
  {
    InvocationFindsItsToken(j, at, c, f);
    ResumptionRemoves(j.engine, Continues(j, at, c, f), j.shared, at);
    LinkResume(On(j, at), c, f, j.engine.tokens, E.Apply(j.engine, Continues(j, at, c, f)).tokens, j.shared, at);
  }

  // The port an item does not go to or come from.
  lemma HandOverElsewhere(j: Joint, side: Side, c: nat, f: nat, at: Side)
    requires Inv(j) && Enabled(j, HandOver(side, c, f)) && At(j.shared, side) != at
    ensures Linked(On(j, at), Apply(j, HandOver(side, c, f)).engine.tokens, j.shared, at)
  {
    var step := Submission(side, f, Accepts(On(j, At(j.shared, side)).port, c));
    MoveLeavesQueues(j.engine, step, j.shared, at);
    LinkKept(On(j, at), j.engine.tokens, E.Apply(j.engine, step).tokens, j.shared, at);
  }

  lemma ResumeElsewhere(j: Joint, from: Side, c: nat, f: nat, at: Side)
    requires Inv(j) && Enabled(j, Resume(from, c, f)) && from != at
    ensures Linked(On(j, at), Apply(j, Resume(from, c, f)).engine.tokens, j.shared, at)
  {
    InvocationFindsItsToken(j, from, c, f);
    var step := Continues(j, from, c, f);
    MoveLeavesQueues(j.engine, step, j.shared, at);
    LinkKept(On(j, at), j.engine.tokens, E.Apply(j.engine, step).tokens, j.shared, at);
  }

  lemma LinkStep(j: Joint, step: Step, at: Side)
    requires Inv(j) && Enabled(j, step)
    ensures Linked(On(Apply(j, step), at), Apply(j, step).engine.tokens, j.shared, at)
  {
    match step
    case EngineAlone(es) =>
      EngineLeavesQueues(j.engine, es, j.shared, at);
      LinkKept(On(j, at), j.engine.tokens, Apply(j, step).engine.tokens, j.shared, at);
    case PortAlone(port, ps) =>
      if port == at {
        LinkPortAlone(On(j, at), ps, j.engine.tokens, j.shared, at);
      }
    case HandOver(side, c, f) =>
      if At(j.shared, side) == at {
        LinkHandOver(j, side, c, f);
      } else {
        HandOverElsewhere(j, side, c, f, at);
      }
    case Resume(from, c, f) =>
      if from == at {
        LinkResumption(j, at, c, f);
      } else {
        ResumeElsewhere(j, from, c, f, at);
      }
  }

  lemma StepKeepsInv(j: Joint, step: Step)
    requires Inv(j) && Enabled(j, step)
    ensures Inv(Apply(j, step))
  {
    EngineStaysReachable(j, step);
    LinkStep(j, step, Work);
    LinkStep(j, step, Done);
  }

  // ---- runs --------------------------------------------------------------------------

  ghost predicate FreshQueue(l: Link) {
    l.items == map[] && exists mode, parallelism, now :: l.port == P.Initial(mode, parallelism, now)
  }

  lemma FreshLinked(l: Link, shared: bool, at: Side)
    requires FreshQueue(l)
    ensures Linked(l, [], shared, at)
  {
    var mode, parallelism, now :| l.port == P.Initial(mode, parallelism, now);
    PI.InitialInv(mode, parallelism, now);
  }

  ghost predicate IsRun(j: Joint, steps: seq<Step>)
    decreases |steps|
  {
    steps == [] || (Enabled(j, steps[0]) && IsRun(Apply(j, steps[0]), steps[1..]))
  }

  ghost function After(j: Joint, steps: seq<Step>): Joint
    requires IsRun(j, steps)
    decreases |steps|
  {
    if steps == [] then j else After(Apply(j, steps[0]), steps[1..])
  }

  lemma {:induction false} RunKeepsInv(j: Joint, steps: seq<Step>)
    requires Inv(j) && IsRun(j, steps)
    ensures Inv(After(j, steps))
    decreases |steps|
  {
    if steps != [] {
      StepKeepsInv(j, steps[0]);
      RunKeepsInv(Apply(j, steps[0]), steps[1..]);
    }
  }

  ghost predicate FreshJoint(j: Joint) {
    FreshQueue(j.work) && FreshQueue(j.done) && exists callbackSet :: j.engine == E.IDLE.(callbackSet := callbackSet)
  }

  lemma FreshInv(j: Joint)
    requires FreshJoint(j)
    ensures Inv(j)
  {
    var callbackSet :| j.engine == E.IDLE.(callbackSet := callbackSet);
    ER.IdleReachable(callbackSet);
    FreshLinked(j.work, j.shared, Work);
    FreshLinked(j.done, j.shared, Done);
  }

  // An item and only it resumes under an identity, and it finds its state alive.
  ghost predicate ResumesItem(j: Joint, at: Side, c: nat, f: nat)
    requires Invokes(On(j, at), c)
  {
    var l := On(j, at);
    && Enabled(j, Resume(at, c, f))
    && E.Enabled(j.engine, Continues(j, at, c, f))
    && j.engine.states[j.engine.tokens[f].a].strong >= 1
    && forall g :: g in l.items && l.items[g] == InvokedId(l.port, c) ==> g == f
  }

  lemma ItemIsReady(j: Joint, at: Side, c: nat, f: nat)
    requires Inv(j) && Enabled(j, Resume(at, c, f))
    ensures ResumesItem(j, at, c, f)
  {
    InvocationFindsItsToken(j, at, c, f);
    ER.ReachableInv(j.engine);
    HoldsItsState(j.engine, f);
  }

  // Whatever a port invokes, in any run of engine and ports together, is either another
  // user's callback or exactly one item of the engine, still waiting with its reference: no
  // item is lost, resumed twice, or resumed after its state is gone.
  lemma EveryInvocationIsAnItemOrForeign(j0: Joint, steps: seq<Step>, at: Side, c: nat)
    requires FreshJoint(j0) && IsRun(j0, steps) && Invokes(On(After(j0, steps), at), c)
    ensures || Enabled(After(j0, steps), PortAlone(at, P.Invoke(c)))
            || exists f: nat :: ResumesItem(After(j0, steps), at, c, f)
  {
    FreshInv(j0);
    RunKeepsInv(j0, steps);
    var j := After(j0, steps);
    var l, id := On(j, at), InvokedId(On(j, at).port, c);
    if id in l.items.Values {
      var f :| f in l.items && l.items[f] == id;
      ItemIsReady(j, at, c, f);
    }
  }

  lemma HoldsItsState(e: E.Engine, f: nat)
    requires EI.Inv(e) && f < |e.tokens| && EI.Held(e.tokens[f].stage) > 0
    ensures e.tokens[f].a < |e.states| && e.states[e.tokens[f].a].strong >= 1
  {
    var a := e.tokens[f].a;
    assert EI.Counted(e, a);
    EI.HoldsAtMostTotal(e.tokens, f);
  }

  // No frame of the engine holds call `a`; items may still wait on the ports.
  predicate NoFrame(e: E.Engine, a: nat) {
    forall f :: 0 <= f < |e.tokens| && e.tokens[f].a == a ==>
      EI.Held(e.tokens[f].stage) == 0 || e.tokens[f].stage.WorkItem? || e.tokens[f].stage.Box?
  }

  predicate ShutDown(s: P.Sys) {
    s.port.terminated && forall c :: 0 <= c < |s.calls| ==> s.calls[c].Returned?
  }

  lemma NothingWaitsAfterShutdown(l: Link, tokens: seq<E.Token>, shared: bool, at: Side, f: nat)
    requires Linked(l, tokens, shared, at) && ShutDown(l.port) && f < |tokens|
    ensures !WaitsOn(shared, at, tokens[f].stage)
  {
    if WaitsOn(shared, at, tokens[f].stage) {
      assert f in l.items && Outstanding(l.port, l.items[f]);
      PT.EmptyWhenLeft(l.port, l.items[f]);
    }
  }

  // End to end: run the engine on its ports, terminate them while callbacks are queued,
  // cancelled, refused or delivered inline, let everybody leave. Then a call that was let in
  // has been delivered, or found no callback, once for each report that counted: exactly
  // once if it is finished and was never reported as E_PENDING; and each cleaned-up call is
  // freed.
  lemma DeliveredAcrossShutdown(j0: Joint, steps: seq<Step>, a: nat)
    requires FreshJoint(j0) && IsRun(j0, steps)
    requires ShutDown(After(j0, steps).work.port) && (After(j0, steps).shared || ShutDown(After(j0, steps).done.port))
    requires NoFrame(After(j0, steps).engine, a) && a < |After(j0, steps).engine.states|
    ensures var st := After(j0, steps).engine.states[a];
            && (!st.start.Rejected? ==> st.delivered + st.silent == st.reopened + Once(st.inner.status != E_PENDING))
            && (st.inner.cleanedUp <==> st.strong == 0)
  {
    FreshInv(j0);
    RunKeepsInv(j0, steps);
    var j := After(j0, steps);
    forall f | 0 <= f < |j.engine.tokens| && j.engine.tokens[f].a == a
      ensures EI.Held(j.engine.tokens[f].stage) == 0
    {
      NothingWaitsAfterShutdown(j.work, j.engine.tokens, j.shared, Work, f);
      if !j.shared {
        NothingWaitsAfterShutdown(j.done, j.engine.tokens, j.shared, Done, f);
      }
    }
    ET.CleanupOnce(j.engine, a);
    if !j.engine.states[a].start.Rejected? {
      EC.DeliveredExactlyOnce(j.engine, a);
    }
  }
}
