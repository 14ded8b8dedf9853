// The order a port keeps its pending callbacks in, and the list surgery done on it:
// deadline-ordered insertion, owner filtering and the ready prefix.

module TaskOrder {
  import opened Basics

  // A queued callback. `id` is the acceptance number of the callback: it stands for the
  // opaque (context, callback) pair and, being handed out under the port's lock, is also
  // the insertion sequence number. `due` is None for "as soon as possible".
  datatype Task = Task(id: nat, owner: nat, due: Option<int>)

  predicate ReadyAt(t: Task, now: int) {
    t.due.None? || t.due.value <= now
  }

  // Strict queue order: undelayed first, then by deadline, ties by insertion number.
  predicate Before(a: Task, b: Task) {
    match (a.due, b.due)
    case (None, None) => a.id < b.id
    case (None, Some(_)) => true
    case (Some(_), None) => false
    case (Some(x), Some(y)) => x < y || (x == y && a.id < b.id)
  }

  ghost predicate Sorted(q: seq<Task>) {
    forall i, j :: 0 <= i < j < |q| ==> Before(q[i], q[j])
  }

  // The test `submit` scans the queue with.
  predicate Overtakes(queued: Task, incoming: Task) {
    match (queued.due, incoming.due)
    case (Some(q), Some(n)) => q > n
    case (Some(_), None) => true
    case _ => false
  }

  function Position(q: seq<Task>, t: Task): (p: nat)
    ensures p <= |q|
    ensures forall i :: 0 <= i < p ==> !Overtakes(q[i], t)
    ensures p < |q| ==> Overtakes(q[p], t)
  {
    if q == [] || Overtakes(q[0], t) then 0 else 1 + Position(q[1..], t)
  }

  function Insert(q: seq<Task>, t: Task): seq<Task> {
    var p := Position(q, t);
    q[..p] + [t] + q[p..]
  }

  // A task younger than every queued one lands so that the queue stays sorted by
  // (deadline, insertion number), and nothing else moves relative to anything else.
  lemma InsertKeepsOrder(q: seq<Task>, t: Task)
    requires Sorted(q)
    requires forall i :: 0 <= i < |q| ==> q[i].id < t.id
    ensures Sorted(Insert(q, t))
  {
    var p := Position(q, t);
    var left, right := q[..p], q[p..];
    forall i | 0 <= i < p
      ensures Before(q[i], t)
    {
      assert !Overtakes(q[i], t);
    }
    forall i | p <= i < |q|
      ensures Before(t, q[i])
    {
      assert Overtakes(q[p], t);
      assert i > p ==> Before(q[p], q[i]);
    }
    assert Sorted(left) && Sorted(right);
    AppendSorted(left, t);
    JoinSorted(left + [t], right);
  }

  lemma AppendSorted(q: seq<Task>, t: Task)
    requires Sorted(q)
    requires forall i :: 0 <= i < |q| ==> Before(q[i], t)
    ensures Sorted(q + [t])
  {
    JoinSorted(q, [t]);
  }

  lemma JoinSorted(a: seq<Task>, b: seq<Task>)
    requires Sorted(a) && Sorted(b)
    requires forall i, j :: 0 <= i < |a| && 0 <= j < |b| ==> Before(a[i], b[j])
    ensures Sorted(a + b)
  {
    var r := a + b;
    forall i, j | 0 <= i < j < |r|
      ensures Before(r[i], r[j])
    {
      if j >= |a| && i >= |a| {
        assert Before(b[i - |a|], b[j - |a|]);
      }
    }
  }

  // ---- acceptance numbers ----------------------------------------------------------

  // How often a callback occurs in a queue.
  function Occurs(q: seq<Task>, id: nat): nat {
    if q == [] then 0 else Occurs(q[..|q| - 1], id) + Once(q[|q| - 1].id == id)
  }

  lemma OccursSnoc(q: seq<Task>, t: Task, id: nat)
    ensures Occurs(q + [t], id) == Occurs(q, id) + Once(t.id == id)
  {
    var all := q + [t];
    assert all[..|all| - 1] == q;
  }

  lemma {:induction false} OccursAppend(a: seq<Task>, b: seq<Task>, id: nat)
    ensures Occurs(a + b, id) == Occurs(a, id) + Occurs(b, id)
    decreases |b|
  {
    if |b| == 0 {
      assert a + b == a;
    } else {
      var rest, last := b[..|b| - 1], b[|b| - 1];
      OccursAppend(a, rest, id);
      var all := a + rest;
      assert a + b == all + [last];
      OccursSnoc(all, last, id);
    }
  }

  lemma OccursOne(t: Task, id: nat)
    ensures Occurs([t], id) == Once(t.id == id)
  {
    OccursSnoc([], t, id);
    assert [] + [t] == [t];
  }

  lemma OccursSplit(q: seq<Task>, n: nat, id: nat)
    requires n <= |q|
    ensures Occurs(q, id) == Occurs(q[..n], id) + Occurs(q[n..], id)
  {
    var left, right := q[..n], q[n..];
    assert q == left + right;
    OccursAppend(left, right, id);
  }

  lemma OccursHead(q: seq<Task>, id: nat)
    requires q != []
    ensures Occurs(q, id) == Once(q[0].id == id) + Occurs(q[1..], id)
  {
    OccursSplit(q, 1, id);
    assert q[..1] == [q[0]];
    OccursOne(q[0], id);
  }

  lemma OccursInsert(q: seq<Task>, t: Task, id: nat)
    ensures Occurs(Insert(q, t), id) == Occurs(q, id) + Once(t.id == id)
  {
    var p := Position(q, t);
    var left, right := q[..p], q[p..];
    OccursSplit(q, p, id);
    OccursSnoc(left, t, id);
    OccursAppend(left + [t], right, id);
  }

  lemma {:induction false} OccursMember(q: seq<Task>, id: nat)
    ensures Occurs(q, id) > 0 <==> exists t :: t in q && t.id == id
    decreases |q|
  {
    if q != [] {
      var rest, last := q[..|q| - 1], q[|q| - 1];
      assert q == rest + [last];
      OccursMember(rest, id);
      assert last in q;
    }
  }

  // ---- owner filtering -------------------------------------------------------------

  function OwnedBy(q: seq<Task>, owner: nat): seq<Task> {
    if q == [] then []
    else
      var last := q[|q| - 1];
      OwnedBy(q[..|q| - 1], owner) + (if last.owner == owner then [last] else [])
  }

  function NotOwnedBy(q: seq<Task>, owner: nat): seq<Task> {
    if q == [] then []
    else
      var last := q[|q| - 1];
      NotOwnedBy(q[..|q| - 1], owner) + (if last.owner == owner then [] else [last])
  }

  // The filter splits the queue exactly by owner, keeps both halves in queue order and
  // loses nothing.
  lemma {:induction false} FilterSplits(q: seq<Task>, owner: nat)
    ensures forall t :: t in OwnedBy(q, owner) <==> t in q && t.owner == owner
    ensures forall t :: t in NotOwnedBy(q, owner) <==> t in q && t.owner != owner
    ensures |OwnedBy(q, owner)| + |NotOwnedBy(q, owner)| == |q|
  {
    if q != [] {
      var rest, last := q[..|q| - 1], q[|q| - 1];
      FilterSplits(rest, owner);
      assert q == rest + [last];
    }
  }

  lemma {:induction false} OccursFilter(q: seq<Task>, owner: nat, id: nat)
    ensures Occurs(q, id) == Occurs(OwnedBy(q, owner), id) + Occurs(NotOwnedBy(q, owner), id)
    decreases |q|
  {
    if q != [] {
      var rest, last := q[..|q| - 1], q[|q| - 1];
      var mine, others := OwnedBy(rest, owner), NotOwnedBy(rest, owner);
      OccursFilter(rest, owner, id);
      OccursSnoc(mine, last, id);
      OccursSnoc(others, last, id);
      assert mine + [] == mine && others + [] == others;
    }
  }

  lemma {:induction false} FilterSorted(q: seq<Task>, owner: nat)
    requires Sorted(q)
    ensures Sorted(OwnedBy(q, owner)) && Sorted(NotOwnedBy(q, owner))
  {
    if q != [] {
      var rest, last := q[..|q| - 1], q[|q| - 1];
      FilterSorted(rest, owner);
      FilterSplits(rest, owner);
      assert forall i :: 0 <= i < |rest| ==> Before(rest[i], last);
      AppendSorted(OwnedBy(rest, owner), last);
      AppendSorted(NotOwnedBy(rest, owner), last);
      assert OwnedBy(rest, owner) + [] == OwnedBy(rest, owner);
      assert NotOwnedBy(rest, owner) + [] == NotOwnedBy(rest, owner);
    }
  }

  // ---- the ready prefix ------------------------------------------------------------

  function ReadyCount(q: seq<Task>, now: int): (n: nat)
    ensures n <= |q|
    ensures forall i :: 0 <= i < n ==> ReadyAt(q[i], now)
    ensures n < |q| ==> !ReadyAt(q[n], now)
  {
    if q == [] || !ReadyAt(q[0], now) then 0 else 1 + ReadyCount(q[1..], now)
  }

  // In a sorted queue the ready prefix is exactly the set of ready tasks, so the head
  // decides when anything at all can become ready.
  lemma ReadyPrefixIsReadySet(q: seq<Task>, now: int)
    requires Sorted(q)
    ensures forall t :: t in q[..ReadyCount(q, now)] <==> t in q && ReadyAt(t, now)
    ensures forall t :: t in q[ReadyCount(q, now)..] <==> t in q && !ReadyAt(t, now)
  {
    var n := ReadyCount(q, now);
    forall i | n <= i < |q|
      ensures !ReadyAt(q[i], now)
    {
      if i > n { assert Before(q[n], q[i]); }
    }
  }

  lemma HeadFirst(q: seq<Task>)
    requires q != [] && Sorted(q)
    ensures forall u :: u in q[1..] ==> u in q && Before(q[0], u)
  {
    forall u | u in q[1..]
      ensures u in q && Before(q[0], u)
    {
      var i :| 0 <= i < |q| - 1 && q[1..][i] == u;
      assert Before(q[0], q[i + 1]);
    }
  }

  lemma SortedSlice(q: seq<Task>, lo: nat, hi: nat)
    requires Sorted(q) && lo <= hi <= |q|
    ensures Sorted(q[lo..hi])
  {
  }
}
