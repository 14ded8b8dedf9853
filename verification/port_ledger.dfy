// What each activity of a port holds. In a weight for one callback:
//   held    InHand: how often the callback is off the queue (or never queued), not invoked
//   owed    Owes: callbacks the activity still has to account for in `inFlight`
//   pending ToCancel: callbacks in the hands of termination
//   agents  Agents: 1 for a pool thread that has not exited

module PortLedger {
  import opened Basics
  import opened TaskOrder
  import opened PortSystem
  import opened Ledger

  // How often a callback was invoked, according to a log.
  function Count(ids: seq<nat>, id: nat): nat {
    if ids == [] then 0 else Count(ids[..|ids| - 1], id) + Once(ids[|ids| - 1] == id)
  }

  lemma CountSnoc(ids: seq<nat>, x: nat, id: nat)
    ensures Count(ids + [x], id) == Count(ids, id) + Once(x == id)
  {
    var all := ids + [x];
    assert all[..|all| - 1] == ids;
  }

  function InHand(call: Call, id: nat): nat {
    match call
    case Executing(_, todo, _, _, _) => Occurs(todo, id)
    case Cancelling(_, _, _, todo, _, _) => Occurs(todo, id)
    case Sleeping(t) => Once(t.id == id)
    case Woken(t, _) => Once(t.id == id)
    case _ => 0
  }

  function Owes(call: Call): nat {
    if call.Executing? then call.owed else 0
  }

  function ToCancel(call: Call): nat {
    if call.Cancelling? then |call.todo| else 0
  }

  function Agents(call: Call): nat {
    match call
    case Executing(role, _, _, _, _) => Once(role.Worker?)
    case Seeking(role) => Once(role.Worker?)
    case ParkedReady(role, _) => Once(role.Worker?)
    case NotifyingDrained(role) => Once(role.Worker?)
    case _ => 0
  }

  // Holds nothing and is nobody's thread.
  ghost predicate Idle(call: Call) {
    (forall id: nat :: InHand(call, id) == 0) && Owes(call) == 0 && ToCancel(call) == 0 && Agents(call) == 0
  }

  // Holds what the other held, and is a pool's thread only if the other was.
  ghost predicate HoldsTheSame(before: Call, after: Call) {
    && (forall id: nat :: InHand(after, id) == InHand(before, id))
    && Owes(after) == Owes(before) && ToCancel(after) == ToCancel(before) && Agents(after) <= Agents(before)
  }

  function Weigh(call: Call, id: nat): Weight {
    Weight(InHand(call, id), Owes(call), ToCancel(call), Agents(call))
  }

  function Weights(calls: seq<Call>, id: nat): (ws: seq<Weight>)
    ensures |ws| == |calls| && forall i :: 0 <= i < |calls| ==> ws[i] == Weigh(calls[i], id)
  {
    seq(|calls|, i requires 0 <= i < |calls| => Weigh(calls[i], id))
  }

  function Total(calls: seq<Call>, id: nat): Weight {
    Sum(Weights(calls, id))
  }

  lemma TotalUpdate(calls: seq<Call>, c: nat, call: Call, id: nat)
    requires c < |calls|
    ensures Total(calls[c := call], id).held + InHand(calls[c], id) == Total(calls, id).held + InHand(call, id)
    ensures Total(calls[c := call], id).owed + Owes(calls[c]) == Total(calls, id).owed + Owes(call)
    ensures Total(calls[c := call], id).pending + ToCancel(calls[c]) == Total(calls, id).pending + ToCancel(call)
    ensures Total(calls[c := call], id).agents + Agents(calls[c]) == Total(calls, id).agents + Agents(call)
  {
    var ws, updated, w := Weights(calls, id), Weights(calls[c := call], id), Weigh(call, id);
    assert updated == ws[c := w];
    SumUpdate(ws, c, w);
  }

  lemma TotalAppend(a: seq<Call>, b: seq<Call>, id: nat)
    ensures Total(a + b, id).held == Total(a, id).held + Total(b, id).held
    ensures Total(a + b, id).owed == Total(a, id).owed + Total(b, id).owed
    ensures Total(a + b, id).pending == Total(a, id).pending + Total(b, id).pending
    ensures Total(a + b, id).agents == Total(a, id).agents + Total(b, id).agents
  {
    var wa, wb, wab := Weights(a, id), Weights(b, id), Weights(a + b, id);
    forall i | 0 <= i < |wab|
      ensures wab[i] == (wa + wb)[i]
    {
      assert (a + b)[i] == if i < |a| then a[i] else b[i - |a|];
    }
    assert wab == wa + wb;
    SumAppend(wa, wb);
  }

  lemma TotalSingle(call: Call, id: nat)
    ensures Total([call], id).held == InHand(call, id)
    ensures Total([call], id).owed == Owes(call)
    ensures Total([call], id).pending == ToCancel(call)
    ensures Total([call], id).agents == Agents(call)
  {
    var ws, w := Weights([call], id), Weigh(call, id);
    assert |ws| == 1 && ws[0] == w;
    assert ws == [w];
    SumSingle(w);
  }

  lemma TotalWorkers(n: nat, id: nat)
    ensures Total(Workers(n), id).held == 0
    ensures Total(Workers(n), id).owed == 0
    ensures Total(Workers(n), id).pending == 0
    ensures Total(Workers(n), id).agents == n
  {
    SumOfWorkers(Weights(Workers(n), id));
  }

  // Waking somebody moves nothing.
  lemma TotalWake(calls: seq<Call>, id: nat)
    ensures Total(WakeAllReady(calls), id) == Total(calls, id) == Total(WakeAllDrained(calls), id)
  {
    assert Weights(WakeAllReady(calls), id) == Weights(calls, id) == Weights(WakeAllDrained(calls), id);
  }
}
