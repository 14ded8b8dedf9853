// `run_sync`: a blocking closure turned into an asynchronous call. The boxed context is
// shared by the worker that runs the closure and by the provider's GetResult, and is freed by
// Cleanup, or by `run_sync` itself when XAsyncBegin rejects the block. One call, read by one
// caller, not cancelled by it; the worker and the caller interleave freely.

module RunSync {
  import opened Results
  import opened Basics
  import opened EngineSections

  // The closure's value as it lies in memory: what GetResult copies out.
  type Bytes = seq<bv8>

  datatype Outcome = Value(value: Bytes) | Error(hr: HResult)

  // The shared context's mutable part, as `run_sync` boxes it.
  datatype Ctx = Ctx(result: HResult, payload: Option<Bytes>)

  function Boxed(): Ctx {
    Ctx(E_ABORT, None)
  }

  // The context as an object, with the provider's operations that touch it.
  class Context {
    var result: HResult
    var payload: Option<Bytes>
    var canceled: bool

    function View(): Ctx
      reads this
    {
      Ctx(result, payload)
    }

    constructor ()
      ensures View() == Boxed() && !canceled
    {
      result, payload, canceled := E_ABORT, None, false;
    }

    // The worker's pass, up to reporting.
    method Work(poolCanceled: bool, outcome: Outcome)
      requires payload == None
      modifies this`result, this`payload
      ensures View() == Ctx(ResultOf(poolCanceled, outcome), PayloadOf(poolCanceled, outcome))
    {
      if poolCanceled {
        result := E_ABORT;
      } else {
        match outcome
        case Value(value) =>
          result := S_OK;
          payload := Some(value);
        case Error(hr) =>
          result := hr;
      }
    }

    // What GetResult copies into the caller's buffer.
    method GetResult() returns (copied: Option<Bytes>)
      ensures copied == Copied(View())
    {
      copied := None;
      if result == S_OK && payload.Some? {
        copied := payload;
      }
    }
  }

  function ResultOf(poolCanceled: bool, outcome: Outcome): HResult {
    if poolCanceled then E_ABORT else if outcome.Value? then S_OK else outcome.hr
  }

  function PayloadOf(poolCanceled: bool, outcome: Outcome): Option<Bytes> {
    if !poolCanceled && outcome.Value? then Some(outcome.value) else None
  }

  function Copied(ctx: Ctx): Option<Bytes> {
    if ctx.result == S_OK then ctx.payload else None
  }

  // ---- the protocol ------------------------------------------------------------------

  // Queued on the pool, about to write `result`, about to store the payload, about to
  // report, done.
  datatype Worker = Unborn | Queued | Writing | Storing | Reporting | Reported

  datatype Caller =
    | Before
    | Rejected
    | Ready
    | Answering                 // in the provider's GetResult
    | Releasing                 // in cleanup, before its lock
    | Freeing                   // about to send Cleanup
    | Taking                    // about to take the block's reference

  // What the caller has got out of the call so far.
  datatype Read =
    | NotRead
    | Status(hr: HResult)       // a final status without a payload, by XAsyncGetStatus
    | Failure(hr: HResult)      // the final error, by XAsyncGetResult
    | Payload(value: Bytes)
    | Blank                     // S_OK with the buffer untouched

  datatype Sys = Sys(
    outcome: Outcome,        // what the closure returns
    size: nat,                  // size_of::()
    canceled: bool,             // the pool cancelled the worker
    worker: Worker,
    caller: Caller,
    ctx: Ctx,
    frees: nat,                 // how often the context was freed
    strays: nat,                // how often it was touched after that
    inner: Inner,
    named: bool,                // the block names the call
    read: Read)

  datatype Step =
    | Call(inUse: bool, submitted: bool)
    | PoolRuns(poolCanceled: bool)
    | WriteResult
    | StorePayload
    | Report
    | GetStatus
    | GetResult(identityOk: bool, room: nat)
    | Answer
    | Release
    | Free
    | Take

  function Start(outcome: Outcome, size: nat): Sys {
    Sys(outcome, size, false, Unborn, Before, Boxed(), 0, 0, FRESH, false, NotRead)
  }

  predicate Enabled(s: Sys, step: Step) {
    match step
    case Call(_, _) => s.caller.Before?
    case PoolRuns(_) => s.worker.Queued?
    case WriteResult => s.worker.Writing?
    case StorePayload => s.worker.Storing?
    case Report => s.worker.Reporting?
    case GetStatus => s.caller.Ready? && s.named
    case GetResult(_, _) => s.caller.Ready? && s.named
    case Answer => s.caller.Answering?
    case Release => s.caller.Releasing?
    case Free => s.caller.Freeing?
    case Take => s.caller.Taking?
  }

  // Touching the context, wherever that happens.
  function Touch(s: Sys): Sys {
    if s.frees > 0 then s.(strays := s.strays + 1) else s
  }

  function Apply(s: Sys, step: Step): Sys
    requires Enabled(s, step)
  {
    match step
    case Call(inUse, submitted) =>
      if inUse then s.(caller := Rejected, frees := s.frees + 1)
      else s.(caller := Ready, named := true, worker := if submitted then Queued else Writing)
    case PoolRuns(poolCanceled) => s.(worker := Writing, canceled := poolCanceled)
    case WriteResult =>
      Touch(s).(ctx := s.ctx.(result := ResultOf(s.canceled, s.outcome)),
                worker := if PayloadOf(s.canceled, s.outcome).Some? then Storing else Reporting)
    case StorePayload =>
      Touch(s).(ctx := s.ctx.(payload := PayloadOf(s.canceled, s.outcome)), worker := Reporting)
    case Report =>
      Touch(s).(worker := Reported, inner := if s.named then Complete(s.inner, s.ctx.result, s.size).0 else s.inner)
    case GetStatus =>
      if StatusCleansUp(s.inner) then s.(caller := Releasing, read := Status(s.inner.status)) else s
    case GetResult(identityOk, room) =>
      var verdict := ResultVerdict(s.inner, identityOk, room);
      if verdict.Deliver? then s.(caller := Answering)
      else if verdict.Failed? then s.(caller := Releasing, read := Failure(verdict.hr))
      else s
    case Answer =>
      Touch(s).(caller := Releasing, read := if Copied(s.ctx).Some? then Payload(Copied(s.ctx).value) else Blank)
    case Release =>
      var (inner, won) := ClaimCleanup(s.inner);
      s.(inner := inner, caller := if won then Freeing else Ready)
    case Free => Touch(s).(caller := Taking, frees := s.frees + 1)
    case Take => s.(caller := Ready, named := false)
  }

  ghost predicate IsRun(s: Sys, steps: seq<Step>)
    decreases |steps|
  {
    steps == [] || (Enabled(s, steps[0]) && IsRun(Apply(s, steps[0]), steps[1..]))
  }

  ghost function After(s: Sys, steps: seq<Step>): Sys
    requires IsRun(s, steps)
    decreases |steps|
  {
    if steps == [] then s else After(Apply(s, steps[0]), steps[1..])
  }

  // ---- the invariant -----------------------------------------------------------------

  // The status the worker reports in the end.
  function FinalStatus(s: Sys): HResult {
    ResultOf(s.canceled, s.outcome)
  }

  predicate WorkerOk(s: Sys) {
    match s.worker
    case Unborn => s.ctx == Boxed() && (s.caller.Before? || s.caller.Rejected?)
    case Queued => s.ctx == Boxed()
    case Writing => s.ctx == Boxed()
    case Storing => s.ctx == Ctx(FinalStatus(s), None) && PayloadOf(s.canceled, s.outcome).Some?
    case Reporting => s.ctx == Ctx(FinalStatus(s), PayloadOf(s.canceled, s.outcome))
    case Reported => s.ctx == Ctx(FinalStatus(s), PayloadOf(s.canceled, s.outcome))
  }

  // The status is what was reported, and only then does anybody release the call.
  predicate InnerOk(s: Sys) {
    && (!s.worker.Reported? ==> s.inner == FRESH)
    && (s.worker.Reported? ==> s.inner.status == FinalStatus(s))
    && (s.inner.status != E_PENDING ==> s.inner.size == s.size)
    && (s.caller.Answering? ==> s.inner.status == S_OK && !s.inner.cleanedUp)
    && (s.caller.Releasing? ==> s.inner.status != E_PENDING && !s.inner.cleanedUp)
    && (s.caller.Freeing? || s.caller.Taking? ==> s.inner.cleanedUp)
    && (s.inner.cleanedUp ==> s.inner.status != E_PENDING)
    && (s.caller.Ready? ==> s.named == !s.inner.cleanedUp)
    && (s.caller.Answering? || s.caller.Releasing? || s.caller.Freeing? || s.caller.Taking? ==> s.named)
    && (s.caller.Before? || s.caller.Rejected? ==> s.worker.Unborn? && !s.named && !s.inner.cleanedUp)
  }

  predicate Owned(s: Sys) {
    && s.strays == 0
    && s.frees == if s.caller.Rejected? || s.caller.Taking? || (s.inner.cleanedUp && !s.caller.Freeing?) then 1 else 0
  }

  predicate ReadOk(s: Sys) {
    && (s.read.NotRead? || s.caller.Releasing? || s.caller.Freeing? || s.caller.Taking? || s.inner.cleanedUp)
    && match s.read
    case NotRead => !s.inner.cleanedUp && !s.caller.Releasing?
    case Status(hr) => hr == FinalStatus(s) && hr != E_PENDING && s.size == 0 && s.worker.Reported?
    case Failure(hr) => hr == FinalStatus(s) && hr != E_PENDING && hr != S_OK && s.worker.Reported?
    case Payload(value) => PayloadOf(s.canceled, s.outcome) == Some(value) && s.worker.Reported?
    case Blank => s.outcome == Error(S_OK) && !s.canceled && s.worker.Reported?
  }

  predicate Inv(s: Sys) {
    WorkerOk(s) && InnerOk(s) && Owned(s) && ReadOk(s)
  }

  lemma StepKeepsInv(s: Sys, step: Step)
    requires Inv(s) && Enabled(s, step)
    ensures Inv(Apply(s, step))
    ensures Apply(s, step).outcome == s.outcome && Apply(s, step).size == s.size
  {
  }

  lemma {:induction false} RunKeepsInv(s: Sys, steps: seq<Step>)
    requires Inv(s) && IsRun(s, steps)
    ensures Inv(After(s, steps)) && After(s, steps).outcome == s.outcome && After(s, steps).size == s.size
    decreases |steps|
  {
    if steps != [] {
      StepKeepsInv(s, steps[0]);
      RunKeepsInv(Apply(s, steps[0]), steps[1..]);
    }
  }

  ghost predicate Reachable(s: Sys) {
    exists steps: seq<Step> :: Reaches(steps, s)
  }

  ghost predicate Reaches(steps: seq<Step>, s: Sys) {
    IsRun(Start(s.outcome, s.size), steps) && After(Start(s.outcome, s.size), steps) == s
  }

  lemma ReachableInv(s: Sys)
    requires Reachable(s)
    ensures Inv(s)
  {
    var steps: seq<Step> :| Reaches(steps, s);
    RunKeepsInv(Start(s.outcome, s.size), steps);
  }

  // ---- what the protocol promises ----------------------------------------------------

  // The context is never freed twice and never touched once freed; it has been freed exactly
  // when the call was rejected or released, and from then on nobody holds on to it.
  lemma FreedExactlyOnce(s: Sys)
    requires Reachable(s)
    ensures s.frees <= 1 && s.strays == 0
    ensures s.frees == 1 <==> s.caller.Rejected? || s.caller.Taking? || (s.caller.Ready? && !s.named)
    ensures s.frees == 1 ==> s.worker.Unborn? || s.worker.Reported?
    ensures s.caller.Ready? && !s.read.NotRead? ==> s.frees == 1
  {
    ReachableInv(s);
  }

  // ---- what the pool did -------------------------------------------------------------

  // The pool cancelled the worker instead of running it.
  predicate PoolCancels(steps: seq<Step>) {
    PoolRuns(true) in steps
  }

  lemma {:induction false} CanceledByThePool(s: Sys, steps: seq<Step>)
    requires Inv(s) && IsRun(s, steps) && (s.canceled ==> !s.worker.Unborn? && !s.worker.Queued?)
    ensures After(s, steps).canceled <==> s.canceled || PoolCancels(steps)
    decreases |steps|
  {
    if steps != [] {
      StepKeepsInv(s, steps[0]);
      CanceledByThePool(Apply(s, steps[0]), steps[1..]);
      assert steps == [steps[0]] + steps[1..];
    }
  }

  predicate PoolRan(steps: seq<Step>) {
    PoolRuns(true) in steps || PoolRuns(false) in steps
  }

  lemma {:induction false} WorkerFollows(s: Sys, steps: seq<Step>)
    requires Inv(s) && IsRun(s, steps)
    ensures var r := After(s, steps);
            && (r.worker.Unborn? <==> s.worker.Unborn? && Call(false, true) !in steps && Call(false, false) !in steps)
            && (r.worker.Queued? <==> (s.worker.Queued? || Call(false, true) in steps) && !PoolRan(steps))
            && (!s.caller.Before? ==> forall inUse, submitted :: Call(inUse, submitted) !in steps)
    decreases |steps|
  {
    if steps != [] {
      StepKeepsInv(s, steps[0]);
      WorkerFollows(Apply(s, steps[0]), steps[1..]);
      assert steps == [steps[0]] + steps[1..];
    }
  }

  // The worker is started with the call, whichever way that goes: it is queued exactly while
  // the pool that took it has neither run nor cancelled it, and runs at once if the pool
  // refused it.
  lemma StartedWithTheCall(outcome: Outcome, size: nat, steps: seq<Step>)
    requires IsRun(Start(outcome, size), steps)
    ensures var s := After(Start(outcome, size), steps);
            && (s.worker.Unborn? <==> Call(false, true) !in steps && Call(false, false) !in steps)
            && (s.worker.Queued? <==> Call(false, true) in steps && !PoolRan(steps))
  {
    WorkerFollows(Start(outcome, size), steps);
  }

  lemma CanceledInRun(outcome: Outcome, size: nat, steps: seq<Step>)
    requires IsRun(Start(outcome, size), steps)
    ensures var s := After(Start(outcome, size), steps);
            && Reachable(s) && s.outcome == outcome && s.size == size
            && (s.canceled <==> PoolCancels(steps))
  {
    CanceledByThePool(Start(outcome, size), steps);
    RunKeepsInv(Start(outcome, size), steps);
    assert Reaches(steps, After(Start(outcome, size), steps));
  }

  // Whatever the caller reads is the closure's outcome, its value or its error, unless in the
  // run the pool cancelled the worker, and then it is E_ABORT. Only an error of S_OK reads as
  // success without a value, and only a value of no size as a mere status.
  lemma ReadsTheOutcome(outcome: Outcome, size: nat, steps: seq<Step>)
    requires IsRun(Start(outcome, size), steps)
    ensures var read := After(Start(outcome, size), steps).read;
            if PoolCancels(steps) then
              read.NotRead? || read == Failure(E_ABORT) || (read == Status(E_ABORT) && size == 0)
            else match read
                 case NotRead => true
                 case Payload(value) => outcome == Value(value)
                 case Failure(hr) => outcome == Error(hr) && hr != S_OK
                 case Status(hr) => size == 0 && (outcome == Error(hr) || (outcome.Value? && hr == S_OK))
                 case Blank => outcome == Error(S_OK)
  {
    CanceledInRun(outcome, size, steps);
    ReachableInv(After(Start(outcome, size), steps));
  }

  // What the caller takes a read to mean is what the closure returned.
  predicate Conveys(read: Read, outcome: Outcome) {
    match read
    case Payload(value) => outcome == Value(value)
    case Failure(hr) => outcome == Error(hr)
    case Status(hr) => if hr == S_OK then outcome.Value? else outcome == Error(hr)
    case Blank => false
    case NotRead => false
  }

  // In a run in which the worker is done and the pool ran it: the call released, the caller
  // has learned the outcome exactly when it is not an error dressed as success; a closure that
  // fails with E_PENDING never finishes its call, so it is never released; and the size of a
  // finished call is the value's.
  lemma OutcomeConveyedExactly(outcome: Outcome, size: nat, steps: seq<Step>)
    requires IsRun(Start(outcome, size), steps) && !PoolCancels(steps)
    requires After(Start(outcome, size), steps).worker.Reported?
    ensures var s := After(Start(outcome, size), steps);
            && (s.inner.cleanedUp ==> (Conveys(s.read, outcome) <==> outcome != Error(S_OK)))
            && (outcome == Error(E_PENDING) <==> s.inner.status == E_PENDING)
            && (outcome == Error(E_PENDING) ==> s.read.NotRead? && s.frees == 0)
            && (s.inner.status != E_PENDING ==> s.inner.size == size)
  {
    CanceledInRun(outcome, size, steps);
    ReachableInv(After(Start(outcome, size), steps));
  }

  // And in one in which the pool cancelled it, the call has failed with E_ABORT.
  lemma CancelledRunAborts(outcome: Outcome, size: nat, steps: seq<Step>)
    requires IsRun(Start(outcome, size), steps) && PoolCancels(steps)
    requires After(Start(outcome, size), steps).worker.Reported?
    ensures After(Start(outcome, size), steps).inner.status == E_ABORT
    ensures After(Start(outcome, size), steps).inner.size == size
  {
    CanceledInRun(outcome, size, steps);
    ReachableInv(After(Start(outcome, size), steps));
  }

  // Such a call can always be read: a caller that asks with room enough is answered, and
  // one with nothing to fetch is released by asking for its status.
  lemma FinishedCallsCanBeRead(s: Sys, room: nat)
    requires Reachable(s) && s.worker.Reported? && s.caller.Ready? && s.named
    requires s.inner.status != E_PENDING && s.size <= room
    ensures Enabled(s, GetResult(true, room))
    ensures var r := Apply(s, GetResult(true, room));
            if s.inner.status == S_OK then
              r.caller.Answering? && Apply(r, Answer).caller.Releasing?
              && Apply(r, Answer).read == (if s.outcome.Value? then Payload(s.outcome.value) else Blank)
            else r.caller.Releasing? && r.read == Failure(s.inner.status)
    ensures s.size == 0 ==> Apply(s, GetStatus).caller.Releasing? && Apply(s, GetStatus).read == Status(s.inner.status)
  {
    ReachableInv(s);
  }
}
