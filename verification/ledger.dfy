// Sums of weights over a sequence of activities, the arithmetic behind the conservation
// laws of the port and of the call engine. A weight has four independent components; each
// ledger says what it counts in them.

module Ledger {
  datatype Weight = Weight(held: nat, owed: nat, pending: nat, agents: nat)

  const ZERO := Weight(0, 0, 0, 0)

  function Plus(a: Weight, b: Weight): Weight {
    Weight(a.held + b.held, a.owed + b.owed, a.pending + b.pending, a.agents + b.agents)
  }

  function Sum(ws: seq<Weight>): Weight {
    if ws == [] then ZERO else Plus(Sum(ws[..|ws| - 1]), ws[|ws| - 1])
  }

  lemma {:induction false} SumUpdate(ws: seq<Weight>, c: nat, w: Weight)
    requires c < |ws|
    ensures Plus(Sum(ws[c := w]), ws[c]) == Plus(Sum(ws), w)
  {
    var n := |ws| - 1;
    if c == n {
      assert ws[c := w][..n] == ws[..n];
    } else {
      SumUpdate(ws[..n], c, w);
      assert ws[c := w][..n] == ws[..n][c := w];
    }
  }

  lemma SumSnoc(ws: seq<Weight>, rest: seq<Weight>, last: Weight)
    requires ws == rest + [last]
    ensures Sum(ws) == Plus(Sum(rest), last)
  {
    assert ws[..|ws| - 1] == rest;
  }

  lemma SumSingle(w: Weight)
    ensures Sum([w]) == w
  {
    assert [w][..0] == [];
  }

  lemma {:induction false} SumAppend(a: seq<Weight>, b: seq<Weight>)
    ensures Sum(a + b) == Plus(Sum(a), Sum(b))
    decreases |b|
  {
    if |b| == 0 {
      assert a + b == a;
      assert Sum(b) == ZERO;
    } else {
      var rest, last := b[..|b| - 1], b[|b| - 1];
      SumAppend(a, rest);
      assert Sum(b) == Plus(Sum(rest), last);
      SumSnoc(a + b, a + rest, last);
    }
  }

  // No entry weighs more than the sum, and no two entries together do.
  lemma {:induction false} SumBounds(ws: seq<Weight>, c: nat)
    requires c < |ws|
    ensures ws[c].held <= Sum(ws).held
    ensures ws[c].owed <= Sum(ws).owed
    ensures ws[c].pending <= Sum(ws).pending
    ensures ws[c].agents <= Sum(ws).agents
  {
    var n := |ws| - 1;
    if c < n {
      SumBounds(ws[..n], c);
    }
  }

  lemma {:induction false} SumTwo(ws: seq<Weight>, c: nat, d: nat)
    requires c < d < |ws|
    ensures ws[c].owed + ws[d].owed <= Sum(ws).owed
    ensures ws[c].agents + ws[d].agents <= Sum(ws).agents
  {
    var n := |ws| - 1;
    if d < n {
      SumTwo(ws[..n], c, d);
    } else {
      SumBounds(ws[..n], c);
    }
  }

  // A sum is zero in a component when every entry is.
  lemma {:induction false} SumIdle(ws: seq<Weight>)
    ensures (forall i :: 0 <= i < |ws| ==> ws[i].held == 0) ==> Sum(ws).held == 0
    ensures (forall i :: 0 <= i < |ws| ==> ws[i].owed == 0) ==> Sum(ws).owed == 0
    ensures (forall i :: 0 <= i < |ws| ==> ws[i].pending == 0) ==> Sum(ws).pending == 0
    ensures (forall i :: 0 <= i < |ws| ==> ws[i].agents == 0) ==> Sum(ws).agents == 0
  {
    if ws != [] {
      SumIdle(ws[..|ws| - 1]);
    }
  }

  lemma {:induction false} SumOfWorkers(ws: seq<Weight>)
    requires forall i :: 0 <= i < |ws| ==> ws[i] == Weight(0, 0, 0, 1)
    ensures Sum(ws) == Weight(0, 0, 0, |ws|)
  {
    if ws != [] {
      SumOfWorkers(ws[..|ws| - 1]);
    }
  }
}
