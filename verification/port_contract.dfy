// What a port promises whoever submits to it: a callback it accepts gets a fresh identity
// and is invoked exactly once, under any interleaving. The call engine relies on this and on
// nothing else about the port.

module PortContract {
  import opened Basics
  import opened TaskOrder
  import opened PortSystem
  import opened Ledger
  import opened PortLedger
  import opened PortInvariant
  import opened PortRuns

  function Invocations(s: Sys, id: nat): nat {
    Count(s.ran, id) + Count(s.cancelled, id)
  }

  // Accepted and not yet invoked.
  predicate Outstanding(s: Sys, id: nat) {
    id < |s.accepted| && Invocations(s, id) == 0
  }

  predicate Accepts(s: Sys, c: nat)
    requires c < |s.calls| && s.calls[c].Submitting?
  {
    !s.port.terminated && !s.calls[c].ownerTerminated
  }

  function InvokedId(s: Sys, c: nat): nat
    requires c < |s.calls| && CanInvoke(s.calls[c])
  {
    if s.calls[c].Woken? then s.calls[c].task.id else s.calls[c].todo[0].id
  }

  predicate InvokedAsCanceled(s: Sys, c: nat)
    requires c < |s.calls| && CanInvoke(s.calls[c])
  {
    s.calls[c].Cancelling? || (s.calls[c].Woken? && s.calls[c].canceled)
  }

  lemma InvokeHolds(s: Sys, c: nat)
    requires c < |s.calls| && CanInvoke(s.calls[c])
    ensures Total(s.calls, InvokedId(s, c)).held >= 1
  {
    var id := InvokedId(s, c);
    SumBounds(Weights(s.calls, id), c);
    if !s.calls[c].Woken? {
      OccursHead(s.calls[c].todo, id);
    }
  }

  // An invocation is always of a callback that was accepted and never invoked before.
  lemma InvokesOutstanding(s: Sys, c: nat)
    requires Inv(s) && c < |s.calls| && CanInvoke(s.calls[c])
    ensures Outstanding(s, InvokedId(s, c))
  {
    InvokeHolds(s, c);
    assert Places(s, InvokedId(s, c)) == Once(InvokedId(s, c) < |s.accepted|);
  }

  lemma InvokeRecords(s: Sys, c: nat, id: nat)
    requires c < |s.calls| && CanInvoke(s.calls[c])
    ensures Invocations(DoInvoke(s, c), id) == Invocations(s, id) + Once(id == InvokedId(s, c))
    ensures DoInvoke(s, c).accepted == s.accepted
  {
    CountSnoc(s.ran, InvokedId(s, c), id);
    CountSnoc(s.cancelled, InvokedId(s, c), id);
  }

  // Only invoking invokes, and only an accepting submit accepts.
  lemma OthersRecordNothing(s: Sys, step: Step)
    requires Enabled(s, step) && !step.Invoke?
    ensures Apply(s, step).ran == s.ran && Apply(s, step).cancelled == s.cancelled
    ensures !(step.Submit? && Accepts(s, step.c)) ==> Apply(s, step).accepted == s.accepted
    ensures step.Submit? && Accepts(s, step.c) ==> |Apply(s, step).accepted| == |s.accepted| + 1
  {
  }

  // The contract of one step: outstanding callbacks are invoked at most once, new ones are
  // outstanding, nothing else changes anyone's standing.
  lemma PortStepContract(s: Sys, step: Step, id: nat)
    requires Inv(s) && Enabled(s, step)
    ensures Inv(Apply(s, step))
    ensures step.Invoke? ==> Outstanding(s, InvokedId(s, step.c)) && !Outstanding(Apply(s, step), InvokedId(s, step.c))
    ensures Outstanding(Apply(s, step), id) <==>
              || (Outstanding(s, id) && !(step.Invoke? && InvokedId(s, step.c) == id))
              || (step.Submit? && Accepts(s, step.c) && id == |s.accepted|)
  {
    StepKeepsInv(s, step);
    if step.Invoke? {
      InvokesOutstanding(s, step.c);
      InvokeRecords(s, step.c, id);
      InvokeRecords(s, step.c, InvokedId(s, step.c));
    } else {
      OthersRecordNothing(s, step);
      assert Places(s, id) == Once(id < |s.accepted|);
    }
  }
}
