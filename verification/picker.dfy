// The operation a file picker hands back: its completion handler may be registered before,
// while or after the pick finishes, on another thread. Handlers are named by the
// registration (SetCompleted call) that brought them.

module Picker {
  import opened Results
  import opened Basics

  type Path = string

  datatype Outcome = Picked(path: Option<Path>) | PickFailed(hr: HResult)

  datatype Status = Started | Completed | Error

  datatype OpState = OpState(status: Status, error: HResult, picked: Option<Path>, handler: Option<nat>)

  const FRESH := OpState(Started, 0, None, None)

  // What GetResults answers. NoFile is the successful null of a cancelled pick.
  datatype Answer = File(path: Path) | NoFile | Failed(hr: HResult)

  function Recorded(s: OpState, outcome: Outcome): OpState {
    match outcome
    case Picked(path) => s.(status := Completed, picked := path)
    case PickFailed(hr) => s.(status := Error, error := hr)
  }

  // Registering a handler, and whether it is to be told at once.
  function Registered(s: OpState, handler: Option<nat>): (OpState, bool) {
    (s.(handler := handler), !s.status.Started?)
  }

  function ResultsOf(s: OpState): Answer {
    match s.status
    case Completed => if s.picked.Some? then File(s.picked.value) else NoFile
    case Error => Failed(s.error)
    case Started => Failed(E_ILLEGAL_METHOD_CALL)
  }

  // What the title is to make of an outcome.
  function AnswerFor(outcome: Outcome): Answer {
    match outcome
    case Picked(path) => if path.Some? then File(path.value) else NoFile
    case PickFailed(hr) => Failed(hr)
  }

  class OperationState {
    var status: Status
    var error: HResult
    var picked: Option<Path>
    var handler: Option<nat>

    function View(): OpState
      reads this
    {
      OpState(status, error, picked, handler)
    }

    constructor ()
      ensures View() == FRESH
    {
      status, error, picked, handler := Started, 0, None, None;
    }

    // `finish` under its lock: records the outcome and says whom to tell.
    method Record(outcome: Outcome) returns (tell: Option<nat>)
      modifies this`status, this`error, this`picked
      ensures View() == Recorded(old(View()), outcome) && tell == handler
    {
      match outcome {
        case Picked(path) =>
          status := Completed;
          picked := path;
        case PickFailed(hr) =>
          status := Error;
          error := hr;
      }
      tell := handler;
    }

    // SetCompleted under its lock: whether to tell the handler at once. What GetResults
    // answers is not touched, and a handler not told at once is the one a finish tells.
    method Register(value: Option<nat>) returns (completeNow: bool)
      modifies this`handler
      ensures (View(), completeNow) == Registered(old(View()), value)
      ensures ResultsOf(View()) == ResultsOf(old(View()))
      ensures !completeNow ==> forall outcome: Outcome :: Recorded(View(), outcome).handler == value
    {
      handler := value;
      completeNow := status != Started;
    }

    method GetResults() returns (answer: Answer)
      ensures answer == ResultsOf(View())
    {
      match status
      case Completed =>
        if picked.None? {
          return NoFile;
        }
        answer := File(picked.value);
      case Error => answer := Failed(error);
      case Started => answer := Failed(E_ILLEGAL_METHOD_CALL);
    }
  }

  // ---- the race ----------------------------------------------------------------------

  // Whoever may invoke a handler: not there yet, holding the handler it will invoke, having
  // read the status it will pass, done.
  datatype Teller =
    | Idle
    | Told(who: nat)
    | Ready(who: nat, status: Status)
    | Done

  datatype Job = Unstarted | Queued | Finishing(outcome: Outcome) | Finished(outcome: Outcome)

  // A SetCompleted call: whether its value is null, whether it has registered, whether the
  // operation was finished when it did.
  datatype Registration = Registration(isNull: bool, registered: bool, late: bool, teller: Teller)

  // A handler ran: with this status, and GetResults called from it answered this.
  datatype Invocation = Invocation(who: nat, status: Status, answer: Answer)

  datatype Sys = Sys(
    state: OpState,
    job: Job,
    jobRan: nat,
    finisher: Teller,
    chosen: Option<nat>,        // the handler `finish` found
    registrations: seq<Registration>,
    invoked: seq<Invocation>)

  const INITIAL := Sys(FRESH, Unstarted, 0, Idle, None, [], [])

  datatype Step =
    | Start(queued: bool)       // `start`, with what `run_later` answered
    | RunJob(outcome: Outcome)  // the message loop runs the deferred pick
    | CompletedAtOnce(outcome: Outcome) // `completed`: no job at all
    | FinishLocked
    | FinisherReads
    | FinisherInvokes
    | SetCompleted(isNull: bool)
    | RegisterLocked(i: nat)
    | RegistrarReads(i: nat)
    | RegistrarInvokes(i: nat)

  predicate Enabled(s: Sys, step: Step) {
    match step
    case Start(_) => s.job.Unstarted?
    case RunJob(_) => s.job.Queued?
    case CompletedAtOnce(_) => s.job.Unstarted?
    case FinishLocked => s.job.Finishing?
    case FinisherReads => s.finisher.Told?
    case FinisherInvokes => s.finisher.Ready?
    case SetCompleted(_) => !s.job.Unstarted?
    case RegisterLocked(i) => i < |s.registrations| && !s.registrations[i].registered
    case RegistrarReads(i) => i < |s.registrations| && s.registrations[i].teller.Told?
    case RegistrarInvokes(i) => i < |s.registrations| && s.registrations[i].teller.Ready?
  }

  function Invoked(s: Sys, t: Teller): seq<Invocation>
    requires t.Ready?
  {
    s.invoked + [Invocation(t.who, t.status, ResultsOf(s.state))]
  }

  function Apply(s: Sys, step: Step): Sys
    requires Enabled(s, step)
  {
    match step
    case Start(queued) => s.(job := if queued then Queued else Finishing(PickFailed(E_FAIL)))
    case RunJob(outcome) => s.(job := Finishing(outcome), jobRan := s.jobRan + 1)
    case CompletedAtOnce(outcome) => s.(job := Finishing(outcome))
    case FinishLocked =>
      s.(state := Recorded(s.state, s.job.outcome), job := Finished(s.job.outcome), chosen := s.state.handler,
         finisher := if s.state.handler.Some? then Told(s.state.handler.value) else Done)
    case FinisherReads => s.(finisher := Ready(s.finisher.who, s.state.status))
    case FinisherInvokes => s.(invoked := Invoked(s, s.finisher), finisher := Done)
    case SetCompleted(isNull) => s.(registrations := s.registrations + [Registration(isNull, false, false, Idle)])
    case RegisterLocked(i) =>
      var r := s.registrations[i];
      var (state, late) := Registered(s.state, if r.isNull then None else Some(i));
      s.(state := state,
         registrations := s.registrations[
           i := Registration(r.isNull, true, late, if late && !r.isNull then Told(i) else Done)])
    case RegistrarReads(i) =>
      var r := s.registrations[i];
      s.(registrations := s.registrations[i := r.(teller := Ready(r.teller.who, s.state.status))])
    case RegistrarInvokes(i) =>
      var r := s.registrations[i];
      s.(invoked := Invoked(s, r.teller), registrations := s.registrations[i := r.(teller := Done)])
  }

  ghost predicate IsRun(s: Sys, steps: seq<Step>)
    decreases |steps|
  {
    steps == [] || (Enabled(s, steps[0]) && IsRun(Apply(s, steps[0]), steps[1..]))
  }

  ghost function After(s: Sys, steps: seq<Step>): Sys
    requires IsRun(s, steps)
    decreases |steps|
  {
    if steps == [] then s else After(Apply(s, steps[0]), steps[1..])
  }

  // ---- the invariant -----------------------------------------------------------------

  function Times(invoked: seq<Invocation>, i: nat): nat {
    if invoked == [] then 0 else Times(invoked[..|invoked| - 1], i) + Once(invoked[|invoked| - 1].who == i)
  }

  lemma TimesSnoc(invoked: seq<Invocation>, x: Invocation, i: nat)
    ensures Times(invoked + [x], i) == Times(invoked, i) + Once(x.who == i)
  {
    assert (invoked + [x])[..|invoked + [x]| - 1] == invoked;
  }

  function Holds(t: Teller, i: nat): nat {
    Once((t.Told? || t.Ready?) && t.who == i)
  }

  // Whose handler is to run: the one `finish` found, and every one registered after it.
  predicate Due(s: Sys, i: nat)
    requires i < |s.registrations|
  {
    s.chosen == Some(i) || (s.registrations[i].late && !s.registrations[i].isNull)
  }

  ghost predicate Ran(s: Sys, i: nat)
    requires i < |s.registrations|
  {
    Times(s.invoked, i) + Holds(s.registrations[i].teller, i) + Holds(s.finisher, i) == Once(Due(s, i))
  }

  ghost predicate TellerOk(s: Sys, t: Teller) {
    && (t.Told? || t.Ready? ==> s.job.Finished?)
    && (t.Ready? ==> t.status == s.state.status)
  }

  ghost predicate RegistrationOk(s: Sys, i: nat)
    requires i < |s.registrations|
  {
    var r := s.registrations[i];
    && TellerOk(s, r.teller)
    && (r.teller.Told? || r.teller.Ready? ==> r.teller.who == i)
    && (r.late ==> r.registered && s.job.Finished?)
    && (!r.registered ==> r.teller.Idle?)
    && (s.state.handler == Some(i) ==> r.registered && !r.isNull)
    && (s.chosen == Some(i) ==> r.registered && !r.isNull && !r.late)
    && (r.registered && !r.late && !r.isNull && |s.registrations| == 1 ==>
          if s.job.Finished? then s.chosen == Some(i) else s.state.handler == Some(i))
  }

  predicate InvocationOk(s: Sys, x: Invocation) {
    && s.job.Finished?
    && x.status == s.state.status
    && x.answer == AnswerFor(s.job.outcome)
  }

  ghost predicate Consistent(s: Sys) {
    && (s.job.Finished? <==> !s.state.status.Started?)
    && (s.job.Finished? ==> ResultsOf(s.state) == AnswerFor(s.job.outcome))
    && (s.job.Finished? ==> (s.state.status.Completed? <==> s.job.outcome.Picked?))
    && (!s.job.Finished? ==> s.state.picked == None && s.chosen == None)
    && (s.job.Finished? <==> !s.finisher.Idle?)
    && (s.state.handler.Some? ==> s.state.handler.value < |s.registrations|)
    && (s.chosen.Some? ==> s.chosen.value < |s.registrations|)
    && TellerOk(s, s.finisher)
    && s.jobRan <= Once(!s.job.Unstarted? && !s.job.Queued?)
    && (s.finisher.Told? || s.finisher.Ready? ==> s.chosen == Some(s.finisher.who))
  }

  ghost predicate Inv(s: Sys) {
    && Consistent(s)
    && (forall i :: 0 <= i < |s.registrations| ==> RegistrationOk(s, i) && Ran(s, i))
    && (forall k :: 0 <= k < |s.invoked| ==> InvocationOk(s, s.invoked[k]))
    && (forall i: nat :: i >= |s.registrations| ==> Times(s.invoked, i) == 0)
  }

  // ---- every step keeps it -----------------------------------------------------------

  lemma StartKept(s: Sys, step: Step)
    requires Inv(s) && Enabled(s, step) && (step.Start? || step.RunJob? || step.CompletedAtOnce? || step.FinisherReads?)
    ensures Inv(Apply(s, step))
  {
    var r := Apply(s, step);
    assert r.invoked == s.invoked && r.registrations == s.registrations;
    forall i | 0 <= i < |r.registrations|
      ensures RegistrationOk(r, i) && Ran(r, i)
    {
      assert RegistrationOk(s, i) && Ran(s, i);
    }
  }

  // Nothing runs before the operation is finished, and nobody is told to.
  lemma RunningMeansFinished(s: Sys)
    requires Inv(s)
    ensures s.invoked != [] ==> s.job.Finished?
    ensures forall i ::
              (0 <= i < |s.registrations| && (s.registrations[i].teller.Told? || s.registrations[i].teller.Ready?)) ==>
                s.job.Finished?
  {
    if s.invoked != [] {
      assert InvocationOk(s, s.invoked[0]);
    }
    forall i | 0 <= i < |s.registrations| && (s.registrations[i].teller.Told? || s.registrations[i].teller.Ready?)
      ensures s.job.Finished?
    {
      assert RegistrationOk(s, i);
    }
  }

  lemma FinishKept(s: Sys)
    requires Inv(s) && s.job.Finishing?
    ensures Inv(Apply(s, FinishLocked))
  {
    var r := Apply(s, FinishLocked);
    RunningMeansFinished(s);
    forall i | 0 <= i < |r.registrations|
      ensures RegistrationOk(r, i) && Ran(r, i)
    {
      assert RegistrationOk(s, i) && Ran(s, i);
    }
  }

  lemma FinisherInvokesKept(s: Sys)
    requires Inv(s) && s.finisher.Ready?
    ensures Inv(Apply(s, FinisherInvokes))
  {
    var r, x := Apply(s, FinisherInvokes), Invocation(s.finisher.who, s.finisher.status, ResultsOf(s.state));
    assert r.invoked == s.invoked + [x];
    forall i: nat
      ensures Times(r.invoked, i) == Times(s.invoked, i) + Once(x.who == i)
    {
      TimesSnoc(s.invoked, x, i);
    }
    forall i | 0 <= i < |r.registrations|
      ensures RegistrationOk(r, i) && Ran(r, i)
    {
      assert RegistrationOk(s, i) && Ran(s, i);
    }
    forall k | 0 <= k < |r.invoked|
      ensures InvocationOk(r, r.invoked[k])
    {
      if k < |s.invoked| {
        assert InvocationOk(s, s.invoked[k]);
      }
    }
  }

  lemma SetCompletedKept(s: Sys, isNull: bool)
    requires Inv(s) && !s.job.Unstarted?
    ensures Inv(Apply(s, SetCompleted(isNull)))
  {
    var r, n := Apply(s, SetCompleted(isNull)), |s.registrations|;
    assert s.chosen != Some(n) && s.state.handler != Some(n);
    forall i | 0 <= i < |r.registrations|
      ensures RegistrationOk(r, i) && Ran(r, i)
    {
      if i < n {
        assert RegistrationOk(s, i) && Ran(s, i);
      }
    }
  }

  lemma RegisterKept(s: Sys, j: nat)
    requires Inv(s) && Enabled(s, RegisterLocked(j))
    ensures Inv(Apply(s, RegisterLocked(j)))
  {
    var r := Apply(s, RegisterLocked(j));
    assert RegistrationOk(s, j) && Ran(s, j);
    forall i | 0 <= i < |r.registrations|
      ensures RegistrationOk(r, i) && Ran(r, i)
    {
      assert RegistrationOk(s, i) && Ran(s, i);
    }
  }

  lemma RegistrarReadsKept(s: Sys, j: nat)
    requires Inv(s) && Enabled(s, RegistrarReads(j))
    ensures Inv(Apply(s, RegistrarReads(j)))
  {
    var r := Apply(s, RegistrarReads(j));
    assert RegistrationOk(s, j) && Ran(s, j);
    forall i | 0 <= i < |r.registrations|
      ensures RegistrationOk(r, i) && Ran(r, i)
    {
      assert RegistrationOk(s, i) && Ran(s, i);
    }
  }

  lemma RegistrarInvokesKept(s: Sys, j: nat)
    requires Inv(s) && Enabled(s, RegistrarInvokes(j))
    ensures Inv(Apply(s, RegistrarInvokes(j)))
  {
    var r := Apply(s, RegistrarInvokes(j));
    assert RegistrationOk(s, j) && Ran(s, j);
    var x := Invocation(j, s.registrations[j].teller.status, ResultsOf(s.state));
    assert r.invoked == s.invoked + [x];
    forall i: nat
      ensures Times(r.invoked, i) == Times(s.invoked, i) + Once(x.who == i)
    {
      TimesSnoc(s.invoked, x, i);
    }
    forall i | 0 <= i < |r.registrations|
      ensures RegistrationOk(r, i) && Ran(r, i)
    {
      assert RegistrationOk(s, i) && Ran(s, i);
    }
    forall k | 0 <= k < |r.invoked|
      ensures InvocationOk(r, r.invoked[k])
    {
      if k < |s.invoked| {
        assert InvocationOk(s, s.invoked[k]);
      }
    }
  }

  lemma StepKeepsInv(s: Sys, step: Step)
    requires Inv(s) && Enabled(s, step)
    ensures Inv(Apply(s, step))
  {
    match step
    case FinishLocked => FinishKept(s);
    case FinisherInvokes => FinisherInvokesKept(s);
    case SetCompleted(isNull) => SetCompletedKept(s, isNull);
    case RegisterLocked(i) => RegisterKept(s, i);
    case RegistrarReads(i) => RegistrarReadsKept(s, i);
    case RegistrarInvokes(i) => RegistrarInvokesKept(s, i);
    case _ => StartKept(s, step);
  }

  lemma {:induction false} RunKeepsInv(s: Sys, steps: seq<Step>)
    requires Inv(s) && IsRun(s, steps)
    ensures Inv(After(s, steps))
    decreases |steps|
  {
    if steps != [] {
      StepKeepsInv(s, steps[0]);
      RunKeepsInv(Apply(s, steps[0]), steps[1..]);
    }
  }

  ghost predicate Reachable(s: Sys) {
    exists steps: seq<Step> :: IsRun(INITIAL, steps) && After(INITIAL, steps) == s
  }

  lemma ReachableInv(s: Sys)
    requires Reachable(s)
    ensures Inv(s)
  {
    var steps: seq<Step> :| IsRun(INITIAL, steps) && After(INITIAL, steps) == s;
    RunKeepsInv(INITIAL, steps);
  }

  // ---- what the title may rely on ----------------------------------------------------

  // Everybody who may invoke a handler is through.
  predicate Settled(s: Sys) {
    && s.finisher.Done?
    && (forall i :: 0 <= i < |s.registrations| ==> s.registrations[i].teller.Done?)
  }

  // In every interleaving of the finish with any number of registrations: the handlers that
  // run are the one in place at the finish and the ones registered after it, each once; no
  // handler ever runs twice.
  lemma HandlersRunExactly(s: Sys, i: nat)
    requires Reachable(s) && i < |s.registrations|
    ensures Times(s.invoked, i) <= 1
    ensures Settled(s) ==> Times(s.invoked, i) == Once(Due(s, i))
  {
    ReachableInv(s);
    assert Ran(s, i);
  }

  // A single registration of a handler: it runs exactly once, however the registration and
  // the finish race; a null one runs nothing.
  lemma OneRegistrationRunsOnce(s: Sys)
    requires Reachable(s) && Settled(s) && |s.registrations| == 1
    ensures |s.invoked| == Once(!s.registrations[0].isNull)
    ensures !s.registrations[0].isNull ==> s.invoked[0].who == 0
  {
    ReachableInv(s);
    assert RegistrationOk(s, 0) && Ran(s, 0);
    forall k | 0 <= k < |s.invoked|
      ensures s.invoked[k].who == 0
    {
      InvokedIsCounted(s.invoked, k);
    }
    OnlyOne(s.invoked, 0);
  }

  lemma {:induction false} InvokedIsCounted(invoked: seq<Invocation>, k: nat)
    requires k < |invoked|
    ensures Times(invoked, invoked[k].who) >= 1
    decreases |invoked|
  {
    if k < |invoked| - 1 {
      InvokedIsCounted(invoked[..|invoked| - 1], k);
    }
  }

  lemma {:induction false} OnlyOne(invoked: seq<Invocation>, i: nat)
    requires forall k :: 0 <= k < |invoked| ==> invoked[k].who == i
    ensures Times(invoked, i) == |invoked|
  {
    if invoked != [] {
      OnlyOne(invoked[..|invoked| - 1], i);
    }
  }

  // Whenever a handler runs, the operation is finished for good: it is passed the final
  // status, and GetResults answers it with the recorded outcome; a cancelled pick is a
  // completion with no file, not an error.
  lemma HandlersSeeTheOutcome(s: Sys, k: nat)
    requires Reachable(s) && k < |s.invoked|
    ensures s.job.Finished? && s.invoked[k].status == s.state.status && !s.state.status.Started?
    ensures s.invoked[k].status.Completed? <==> s.job.outcome.Picked?
    ensures s.invoked[k].answer == AnswerFor(s.job.outcome)
    ensures s.job.outcome == Picked(None) ==> s.invoked[k].status.Completed? && s.invoked[k].answer == NoFile
  {
    ReachableInv(s);
    assert InvocationOk(s, s.invoked[k]);
  }

  // Until the finish GetResults is refused.
  lemma NoResultsBefore(s: Sys)
    requires Reachable(s) && !s.job.Finished?
    ensures ResultsOf(s.state) == Failed(E_ILLEGAL_METHOD_CALL) && s.invoked == []
  {
    ReachableInv(s);
    RunningMeansFinished(s);
  }

  predicate HasOutcome(job: Job, outcome: Outcome) {
    job == Finishing(outcome) || job == Finished(outcome)
  }

  // The step produces the outcome: the job returned it, or it was there from the start, or the
  // job could not be deferred.
  predicate Produces(step: Step, outcome: Outcome) {
    || step == RunJob(outcome) || step == CompletedAtOnce(outcome)
    || (step == Start(false) && outcome == PickFailed(E_FAIL))
  }

  lemma {:induction false} OutcomeIsProduced(s: Sys, steps: seq<Step>, outcome: Outcome)
    requires IsRun(s, steps)
    ensures HasOutcome(After(s, steps).job, outcome) <==>
              HasOutcome(s.job, outcome) || exists k :: 0 <= k < |steps| && Produces(steps[k], outcome)
    decreases |steps|
  {
    if steps != [] {
      var r, rest := Apply(s, steps[0]), steps[1..];
      OutcomeIsProduced(r, rest, outcome);
      assert HasOutcome(r.job, outcome) <==> HasOutcome(s.job, outcome) || Produces(steps[0], outcome);
      forall k | 0 <= k < |steps|
        ensures Produces(steps[k], outcome) <==>
                  if k == 0 then Produces(steps[0], outcome) else Produces(rest[k - 1], outcome)
      {
      }
      if j :| 0 <= j < |rest| && Produces(rest[j], outcome) {
        assert Produces(steps[j + 1], outcome);
      }
    }
  }

  // In any run, a finished operation's outcome is exactly what a step of it produced, and
  // GetResults answers with it: the file, the null of a cancelled pick, or the failure.
  lemma AnswersWhatTheJobReturned(steps: seq<Step>, outcome: Outcome)
    requires IsRun(INITIAL, steps) && After(INITIAL, steps).job.Finished?
    ensures After(INITIAL, steps).job == Finished(outcome) <==>
              exists k :: 0 <= k < |steps| && Produces(steps[k], outcome)
    ensures After(INITIAL, steps).job == Finished(outcome) ==>
              ResultsOf(After(INITIAL, steps).state) ==
                match outcome
                case Picked(None) => NoFile
                case Picked(Some(path)) => File(path)
                case PickFailed(hr) => Failed(hr)
  {
    OutcomeIsProduced(INITIAL, steps, outcome);
    ReachableInv(After(INITIAL, steps));
  }

  // The operation finishes at most once, and once finished keeps its outcome whatever is
  // registered afterwards.
  lemma {:induction false} OutcomeIsFinal(s: Sys, steps: seq<Step>)
    requires Inv(s) && IsRun(s, steps) && s.job.Finished?
    ensures After(s, steps).job == s.job && After(s, steps).jobRan == s.jobRan
    ensures ResultsOf(After(s, steps).state) == ResultsOf(s.state) == AnswerFor(s.job.outcome)
    decreases |steps|
  {
    if steps != [] {
      StepKeepsInv(s, steps[0]);
      OutcomeIsFinal(Apply(s, steps[0]), steps[1..]);
    }
  }

  // A pick that could not be deferred never runs its job, and still finishes, as a failure.
  lemma {:induction false} RefusedDeferralFails(steps: seq<Step>, s: Sys)
    requires IsRun(Apply(INITIAL, Start(false)), steps) && s == After(Apply(INITIAL, Start(false)), steps)
    ensures s.jobRan == 0 && (s.job == Finishing(PickFailed(E_FAIL)) || s.job == Finished(PickFailed(E_FAIL)))
    ensures Settled(s) ==> s.job.Finished? && ResultsOf(s.state) == Failed(E_FAIL)
  {
    var first := Apply(INITIAL, Start(false));
    StepKeepsInv(INITIAL, Start(false));
    RefusedStays(first, steps);
    RunKeepsInv(first, steps);
  }

  lemma {:induction false} RefusedStays(s: Sys, steps: seq<Step>)
    requires s.jobRan == 0 && (s.job == Finishing(PickFailed(E_FAIL)) || s.job == Finished(PickFailed(E_FAIL)))
    requires IsRun(s, steps)
    ensures var r := After(s, steps);
            r.jobRan == 0 && (r.job == Finishing(PickFailed(E_FAIL)) || r.job == Finished(PickFailed(E_FAIL)))
    decreases |steps|
  {
    if steps != [] {
      RefusedStays(Apply(s, steps[0]), steps[1..]);
    }
  }
}
