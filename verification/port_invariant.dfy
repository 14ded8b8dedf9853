// The invariant of a port under every interleaving, in five parts.

module PortInvariant {
  import opened Basics
  import opened TaskOrder
  import opened PortSections
  import opened PortSystem
  import opened Ledger
  import opened PortLedger

  // How many of the four places a callback is found in, counting repetitions: queued,
  // held by an activity, invoked, invoked as cancelled.
  function Places(s: Sys, id: nat): nat {
    Occurs(s.port.tasks, id) + Total(s.calls, id).held + Count(s.ran, id) + Count(s.cancelled, id)
  }

  ghost predicate CallOk(s: Sys, call: Call) {
    match call
    case Executing(role, todo, running, owed, drained) =>
      && owed >= 1
      && owed >= |todo| + Once(running.Some?)
      && (!drained ==> role.Dispatcher? && owed == 1)
      && (!role.Dispatcher? ==> owed == 1)
      && (role.Inline? ==> s.mode.Immediate?)
    case Seeking(role) => !role.Inline?
    case ParkedReady(role, _) => !role.Inline?
    case Sleeping(t) => s.mode.Immediate? && t.due.Some?
    case Woken(t, _) => s.mode.Immediate? && t.due.Some?
    case RunningDelayed(t) => s.mode.Immediate? && t.due.Some?
    case Submitting(owner, _, _) => owner < |s.contexts|
    case Terminating(owner, _) => owner < |s.contexts| && s.contexts[owner].Flagged?
    case Cancelling(owner, _, notified, _, running, rest) =>
      && owner < |s.contexts| && s.contexts[owner].Ended?
      && (!notified ==> running.None?)
      && (rest ==> s.port.terminated)
    case AwaitingDrain(owner) => owner < |s.contexts| && s.contexts[owner].Ended?
    case ParkedDrained(owner) => owner < |s.contexts| && s.contexts[owner].Ended?
    case _ => true
  }

  ghost predicate CallsOk(s: Sys) {
    forall i :: 0 <= i < |s.calls| ==> CallOk(s, s.calls[i])
  }

  // Every accepted callback is in exactly one place, exactly once; nothing else is anywhere.
  ghost predicate Placed(s: Sys) {
    forall id: nat :: Places(s, id) == Once(id < |s.accepted|)
  }

  // The counters add up, and `inFlight` is exactly what activities still owe.
  ghost predicate Counted(s: Sys) {
    && s.port.inFlight == Total(s.calls, 0).owed
    && (!s.mode.Immediate? ==>
      && s.port.submitted == |s.accepted|
      && s.port.submitted == |s.port.tasks| + s.port.inFlight + s.port.dispatched + s.pulled
      && |s.cancelled| + Total(s.calls, 0).pending == s.pulled)
    && (s.mode.Immediate? ==> s.port.tasks == [])
    && Total(s.calls, 0).agents <= if s.port.workersStarted then WorkersFor(s.mode, s.parallelism) else 0
  }

  ghost predicate Ordered(s: Sys) {
    && Sorted(s.port.tasks)
    && (forall i :: 0 <= i < |s.accepted| ==> s.accepted[i].id == i && s.accepted[i].owner < |s.contexts|)
    && (forall t :: t in s.port.tasks ==> t.id < |s.accepted| && s.accepted[t.id] == t)
  }

  // ---- wakeups -----------------------------------------------------------------------

  ghost predicate ReadyNoticePending(calls: seq<Call>) {
    exists i :: 0 <= i < |calls| && GivesReadyNotice(calls[i])
  }

  ghost predicate DrainNoticePending(calls: seq<Call>) {
    exists i :: 0 <= i < |calls| && calls[i].NotifyingDrained?
  }

  predicate DueBy(t: Task, until: Option<int>) {
    t.due.Some? && until.Some? && until.value <= t.due.value
  }

  // A thread parked until a bound misses nothing: the port lives and no queued callback
  // comes due before the bound, or somebody is between its unlock and its `notify_all`.
  ghost predicate NothingMissed(s: Sys, until: Option<int>) {
    !s.port.terminated && forall t :: t in s.port.tasks ==> DueBy(t, until)
  }

  ghost predicate Awake(s: Sys) {
    && (forall i :: 0 <= i < |s.calls| && s.calls[i].ParkedReady? ==>
          ReadyNoticePending(s.calls) || NothingMissed(s, s.calls[i].until))
    && (forall i :: 0 <= i < |s.calls| && s.calls[i].ParkedDrained? ==>
          DrainNoticePending(s.calls) || s.port.inFlight > 0)
  }

  // ---- contexts ----------------------------------------------------------------------

  function Unended(contexts: seq<ContextPhase>): nat {
    if contexts == [] then 0
    else Unended(contexts[..|contexts| - 1]) + (if contexts[|contexts| - 1].Ended? then 0 else 1)
  }

  ghost predicate WillDrainRest(calls: seq<Call>) {
    exists i :: 0 <= i < |calls| && calls[i].Cancelling? && calls[i].rest
  }

  // The live contexts are counted, each is terminated by one activity at most, the port is
  // terminated once the last of them has ended, and what is left then will be drained.
  ghost predicate Scoped(s: Sys) {
    && s.port.activeContexts == Unended(s.contexts)
    && (forall i, j :: 0 <= i < j < |s.calls| && s.calls[i].Terminating? && s.calls[j].Terminating? ==>
          s.calls[i].owner != s.calls[j].owner)
    && (!s.port.terminated && s.port.activeContexts == 0 ==> s.contexts == [])
    && (s.port.terminated ==> s.port.tasks == [] || WillDrainRest(s.calls))
  }

  ghost predicate Inv(s: Sys) {
    CallsOk(s) && Placed(s) && Counted(s) && Ordered(s) && Awake(s) && Scoped(s)
  }

  lemma InitialInv(mode: Mode, parallelism: Option<nat>, now: int)
    ensures Inv(Initial(mode, parallelism, now))
  {
  }
}
