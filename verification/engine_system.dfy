// One XAsyncBlock through any number of calls, under every interleaving. A token is
// somebody who acts for a call: an item waiting on a queue, or an executing frame of the
// engine with the point it has reached. Providers and the caller may enter the engine at any
// time; each step is one lock-held section, one provider or callback invocation, one hand-over
// to a queue, or one unlocked access to the block: an entry point reads the block's words,
// and only then, with nothing held in between, clones the reference they name.

module EngineSystem {
  import opened Results
  import opened EngineSections
  import opened Basics

  // NoOp: nothing is sent.
  datatype Op = NoOp | OpBegin | OpDoWork | OpGetResult | OpCancel | OpCleanup

  datatype Start = Starting | Started | Rejected

  // strong: the reference count; taken: the block's reference has been taken back; start:
  // what became of the provider's Begin; completions, silent, delivered: completions that
  // counted, those that found no callback set, and callbacks invoked; reopened: reports that
  // left the call pending, being reports of E_PENDING; notices: how often `completed` was
  // notified; ops: what the provider was sent.
  datatype CallState = CallState(
    inner: Inner,
    strong: int,
    taken: bool,
    start: Start,
    completions: nat,
    silent: nat,
    delivered: nat,
    reopened: nat,
    notices: nat,
    ops: seq<Op>)

  // What somebody enters the engine for. Peek is XAsyncBegin's test that the block is free
  // and XAsyncGetResultSize, which clone and drop; a Status that waits does so unless it is
  // asked inside a dispatch.
  datatype Entry =
    | Peek
    | Schedule(completes: bool)
    | Report(result: HResult, size: nat)
    | Status(wait: bool)
    | Result(identityOk: bool, bufferSize: nat)
    | Cancel

  // Where somebody who acts for a call stands.
  datatype Stage =
    // done: holds nothing
    | Over
    // state_of: has read the block's words, has no reference yet
    | Looking(entry: Entry)
    // waiting on the work queue, or boxed on the completion queue
    | WorkItem
    | Box
    // XAsyncBegin, provider's Begin under way
    | Beginning
    // XAsyncSchedule, XAsyncCancel's extra pass (completes) or run_provider's Begin (not):
    // own reference plus the raw one about to be submitted
    | Scheduling(completes: bool)
    // complete_state: before its lock, after it, with the box in hand, running it inline
    | Completing(result: HResult, size: nat)
    | Delivering
    | Posting
    | InlineCallback
    // work_callback in DoWork; completion_callback in the caller's routine
    | Working
    | CallingBack
    // the caller's reads; parked on `completed` since so many notifications
    | Polling(wait: bool)
    | Parked(seen: nat)
    | Fetching(identityOk: bool, bufferSize: nat)
    | Answering
    // cleanup: before its lock, before sending Cleanup, before taking the block's reference
    | Cleaning(reader: bool)
    | SendingCleanup(reader: bool)
    | Taking(reader: bool)
    // XAsyncCancel
    | CancelEntry
    | SendingCancel
    | Rechecking
    // about to drop its own reference and return
    | Dropping

  datatype Token = Token(a: nat, stage: Stage)

  datatype Engine = Engine(named: bool, current: nat, callbackSet: bool, states: seq<CallState>, tokens: seq<Token>)

  datatype Step =
    | SetCallback(set_: bool)
    | Begin
    | Look(entry: Entry)
    | Clone(f: nat)
    | BeginReturns(f: nat, hr: HResult)
    | SubmitWork(f: nat, taken: bool)
    | CompleteLocked(f: nat)
    | ReadCallback(f: nat)
    | Post(f: nat, taken: bool)
    | InlineReturns(f: nat)
    | RunWork(f: nat, canceled: bool)
    | WorkReturns(f: nat, hr: HResult)
    | RunCompletion(f: nat)
    | CallbackReturns(f: nat)
    | Poll(f: nat)
    | Wake(f: nat)
    | Fetch(f: nat)
    | Answer(f: nat)
    | Clean(f: nat)
    | SendCleanup(f: nat)
    | Take(f: nat)
    | CancelTest(f: nat)
    | SendCancel(f: nat)
    | Recheck(f: nat)
    | Drop(f: nat)

  const IDLE := Engine(false, 0, false, [], [])

  const BEGUN := CallState(FRESH, 2, false, Starting, 0, 0, 0, 0, 0, [OpBegin])

  predicate Moves(step: Step) {
    !step.SetCallback? && !step.Begin? && !step.Look?
  }

  // Entry points find the state through the block; without one they return
  // E_ILLEGAL_METHOD_CALL (or nothing) and change nothing. Begin wants the block free.
  // Cloning a state that has been freed is undefined, and no step.
  predicate Enabled(s: Engine, step: Step) {
    if step.SetCallback? then true
    else if step.Begin? then !s.named
    else if step.Look? then s.named && s.current < |s.states|
    else
      && step.f < |s.tokens| && Fits(step, s.tokens[step.f].stage) && s.tokens[step.f].a < |s.states|
      && (step.Clone? ==> s.states[s.tokens[step.f].a].strong > 0)
  }

  predicate Fits(step: Step, stage: Stage)
    requires Moves(step)
  {
    match step
    case Clone(_) => stage.Looking?
    case BeginReturns(_, _) => stage.Beginning?
    case SubmitWork(_, _) => stage.Scheduling?
    case CompleteLocked(_) => stage.Completing?
    case ReadCallback(_) => stage.Delivering?
    case Post(_, _) => stage.Posting?
    case InlineReturns(_) => stage.InlineCallback?
    case RunWork(_, _) => stage.WorkItem?
    case WorkReturns(_, _) => stage.Working?
    case RunCompletion(_) => stage.Box?
    case CallbackReturns(_) => stage.CallingBack?
    case Poll(_) => stage.Polling?
    case Wake(_) => stage.Parked?
    case Fetch(_) => stage.Fetching?
    case Answer(_) => stage.Answering?
    case Clean(_) => stage.Cleaning?
    case SendCleanup(_) => stage.SendingCleanup?
    case Take(_) => stage.Taking?
    case CancelTest(_) => stage.CancelEntry?
    case SendCancel(_) => stage.SendingCancel?
    case Recheck(_) => stage.Rechecking?
    case Drop(_) => stage.Dropping?
  }

  // Where an entry goes on once it has its reference, and how many it takes.
  function Entered(entry: Entry): (Stage, nat) {
    match entry
    case Peek => (Dropping, 1)
    case Schedule(completes) => (Scheduling(completes), 2)
    case Report(result, size) => (Completing(result, size), 1)
    case Status(wait) => (Polling(wait), 1)
    case Result(identityOk, bufferSize) => (Fetching(identityOk, bufferSize), 1)
    case Cancel => (CancelEntry, 1)
  }

  // `handed` is what goes to a queue, Over when nothing does; `sent` what the provider is
  // sent.
  datatype Reaction = Reaction(stage: Stage, st: CallState, handed: Stage, sent: Op)

  // What a step makes of its token and of the state the token refers to, and what it hands
  // to a queue. Taking the block's reference is left to `Apply`.
  function React(step: Step, stage: Stage, st: CallState, callbackSet: bool): Reaction
    requires Moves(step) && Fits(step, stage)
  {
    match step
    case Clone(_) =>
      var (next, n) := Entered(stage.entry);
      Reaction(next, st.(strong := st.strong + n), Over, NoOp)
    case BeginReturns(_, hr) =>
      if hr == S_OK then Reaction(Dropping, st.(start := Started), Over, NoOp)
      else
        Reaction(Cleaning(false),
                 st.(start := Rejected, inner := st.inner.(status := hr),
                     reopened := st.reopened + Once(hr == E_PENDING)),
                 Over, NoOp)
    case SubmitWork(_, taken) =>
      if taken then Reaction(Dropping, st, WorkItem, NoOp)
      else if stage.completes then Reaction(Completing(E_ABORT, 0), st.(strong := st.strong - 1), Over, NoOp)
      else Reaction(Dropping, st.(strong := st.strong - 1), Over, NoOp)
    case CompleteLocked(_) =>
      var (inner, first) := Complete(st.inner, stage.result, stage.size);
      if first then
        Reaction(Delivering,
                 st.(inner := inner, completions := st.completions + 1,
                     reopened := st.reopened + Once(stage.result == E_PENDING)),
                 Over, NoOp)
      else Reaction(Dropping, st, Over, NoOp)
    case ReadCallback(_) =>
      // and `completed` is notified
      if callbackSet then Reaction(Posting, st.(strong := st.strong + 1, notices := st.notices + 1), Over, NoOp)
      else Reaction(Dropping, st.(silent := st.silent + 1, notices := st.notices + 1), Over, NoOp)
    case Post(_, taken) =>
      if taken then Reaction(Dropping, st, Box, NoOp)
      else Reaction(InlineCallback, st.(delivered := st.delivered + 1), Over, NoOp)
    case InlineReturns(_) => Reaction(Dropping, st.(strong := st.strong - 1), Over, NoOp)
    case RunWork(_, canceled) =>
      if canceled then Reaction(Completing(E_ABORT, 0), st, Over, NoOp) else Reaction(Working, st, Over, OpDoWork)
    case WorkReturns(_, hr) =>
      if hr == E_PENDING then Reaction(Dropping, st, Over, NoOp) else Reaction(Completing(hr, 0), st, Over, NoOp)
    case RunCompletion(_) => Reaction(CallingBack, st.(delivered := st.delivered + 1), Over, NoOp)
    case CallbackReturns(_) => Reaction(Dropping, st, Over, NoOp)
    case Poll(_) =>
      if stage.wait && st.inner.status == E_PENDING then Reaction(Parked(st.notices), st, Over, NoOp)
      else Reaction(if StatusCleansUp(st.inner) then Cleaning(true) else Dropping, st, Over, NoOp)
    // notified, or spuriously: the status is tested again
    case Wake(_) => Reaction(Polling(true), st, Over, NoOp)
    case Fetch(_) =>
      var verdict := ResultVerdict(st.inner, stage.identityOk, stage.bufferSize);
      Reaction(if verdict.Deliver? then Answering else if verdict.Failed? then Cleaning(true) else Dropping,
               st, Over, NoOp)
    case Answer(_) => Reaction(Cleaning(true), st, Over, OpGetResult)
    case Clean(_) =>
      var (inner, won) := ClaimCleanup(st.inner);
      if won then Reaction(SendingCleanup(stage.reader), st.(inner := inner), Over, NoOp)
      else Reaction(Dropping, st, Over, NoOp)
    case SendCleanup(_) => Reaction(Taking(stage.reader), st, Over, OpCleanup)
    case Take(_) => Reaction(Dropping, st, Over, NoOp)
    case CancelTest(_) =>
      var (inner, tell) := RequestCancel(st.inner);
      if tell then Reaction(SendingCancel, st.(inner := inner), Over, NoOp) else Reaction(Dropping, st, Over, NoOp)
    case SendCancel(_) => Reaction(Rechecking, st, Over, OpCancel)
    case Recheck(_) =>
      if st.inner.status == E_PENDING then Reaction(Scheduling(true), st.(strong := st.strong + 1), Over, NoOp)
      else Reaction(Dropping, st, Over, NoOp)
    case Drop(_) => Reaction(Over, st.(strong := st.strong - 1), Over, NoOp)
  }

  // `take_state`: whichever state the block names loses the block's reference.
  function TakeBlock(s: Engine): Engine {
    if !s.named || s.current >= |s.states| then s
    else
      var st := s.states[s.current];
      s.(named := false, states := s.states[s.current := st.(strong := st.strong - 1, taken := true)])
  }

  // The call's state after a reaction, with what was sent to the provider noted.
  function Logged(r: Reaction): CallState {
    if r.sent.NoOp? then r.st else r.st.(ops := r.st.ops + [r.sent])
  }

  function Moved(s: Engine, f: nat, r: Reaction): Engine
    requires f < |s.tokens| && s.tokens[f].a < |s.states|
  {
    var a := s.tokens[f].a;
    var tokens := s.tokens[f := Token(a, r.stage)];
    s.(tokens := if r.handed.Over? then tokens else tokens + [Token(a, r.handed)], states := s.states[a := Logged(r)])
  }

  function React1(s: Engine, step: Step): Engine
    requires Moves(step) && Enabled(s, step)
  {
    var tok := s.tokens[step.f];
    Moved(s, step.f, React(step, tok.stage, s.states[tok.a], s.callbackSet))
  }

  function LookUp(s: Engine, entry: Entry): Engine {
    s.(tokens := s.tokens + [Token(s.current, Looking(entry))])
  }

  function BeginCall(s: Engine): Engine {
    var a := |s.states|;
    s.(named := true, current := a, states := s.states + [BEGUN], tokens := s.tokens + [Token(a, Beginning)])
  }

  function Apply(s: Engine, step: Step): Engine
    requires Enabled(s, step)
  {
    if step.SetCallback? then s.(callbackSet := step.set_)
    else if step.Begin? then BeginCall(s)
    else if step.Look? then LookUp(s, step.entry)
    else if step.Take? then TakeBlock(React1(s, step))
    else React1(s, step)
  }

  ghost predicate IsRun(s: Engine, steps: seq<Step>)
    decreases |steps|
  {
    steps == [] || (Enabled(s, steps[0]) && IsRun(Apply(s, steps[0]), steps[1..]))
  }

  ghost function After(s: Engine, steps: seq<Step>): Engine
    requires IsRun(s, steps)
    decreases |steps|
  {
    if steps == [] then s else After(Apply(s, steps[0]), steps[1..])
  }
}
