/** What repeats in the weighted schedule from one full turn to the next. */
module SchedulePeriod {
  import opened WeightedRouter

  lemma RunStep(m: seq<Entry>, w: map<nat, nat>, total: nat, k: nat)
    requires m != [] && multiset(Ids(m)) == multiset(w.Keys)
    ensures var p := Run(m, w, total, k);
            (forall e :: e in p.state ==> e.id in w)
            && Run(m, w, total, k + 1).state == Round(p.state, w, total)
            && Run(m, w, total, k + 1).picks == p.picks + [Picked(p.state)]
  {
    IdsCovered(Run(m, w, total, k).state, w);
  }

  /** `n + k` rounds are `n` rounds followed by `k` rounds from the state they reach. */
  ghost predicate Splits(m: seq<Entry>, w: map<nat, nat>, total: nat, n: nat, k: nat)
    requires m != [] && multiset(Ids(m)) == multiset(w.Keys)
  {
    var first, whole := Run(m, w, total, n), Run(m, w, total, n + k);
    var second := Run(first.state, w, total, k);
    whole.state == second.state && whole.picks == first.picks + second.picks
  }

  lemma SplitNone(m: seq<Entry>, w: map<nat, nat>, total: nat, n: nat)
    requires m != [] && multiset(Ids(m)) == multiset(w.Keys)
    ensures Splits(m, w, total, n, 0)
  {
    var p := Run(m, w, total, n);
    assert p.picks + [] == p.picks;
  }

  lemma SplitStep(m: seq<Entry>, w: map<nat, nat>, total: nat, n: nat, k: nat)
    requires m != [] && multiset(Ids(m)) == multiset(w.Keys)
    requires Splits(m, w, total, n, k)
    ensures Splits(m, w, total, n, k + 1)
  {
    var p := Run(m, w, total, n);
    var q := Run(p.state, w, total, k);
    RunStep(m, w, total, n + k);
    RunStep(p.state, w, total, k);
    Snoc(p.picks, q.picks, Picked(q.state));
    assert n + k + 1 == n + (k + 1);
  }

  /** A run can be cut anywhere: the rest is a run from the state reached. */
  lemma {:induction false} RunSplit(m: seq<Entry>, w: map<nat, nat>, total: nat, n: nat, k: nat)
    requires m != [] && multiset(Ids(m)) == multiset(w.Keys)
    ensures Splits(m, w, total, n, k)
    decreases k
  {
    if k == 0 {
      SplitNone(m, w, total, n);
    } else {
      var j := k - 1;
      RunSplit(m, w, total, n, j);
      SplitStep(m, w, total, n, j);
      assert j + 1 == k;
    }
  }

  lemma Snoc(a: seq<nat>, b: seq<nat>, x: nat)
    ensures a + (b + [x]) == a + b + [x]
  {
  }

  /** After a full turn everything the counting theorem needs holds again. */
  lemma TurnRestores(m: seq<Entry>, w: map<nat, nat>, total: nat)
    requires Balanced(m, w, total, w)
    ensures Balanced(Run(m, w, total, total).state, w, total, w)
  {
    RunBalanced(m, w, total, total);
    ServedExactly(m, w, total);
    var s := Run(m, w, total, total).state;
    var cur := Current(m, w, total, total);
    IdsCovered(s, w);
  }

  /** The rounds of so many turns. */
  function Rounds(turns: nat, total: nat): (n: nat) {
    if turns == 0 then 0 else Rounds(turns - 1, total) + total
  }

  lemma {:induction false} RoundsAre(turns: nat, total: nat)
    ensures Rounds(turns, total) == turns * total
  {
    if turns == 0 {
    } else {
      RoundsAre(turns - 1, total);
      assert turns * total == (turns - 1) * total + total;
    }
  }

  /** Everything the counting theorem needs holds after `n` rounds. */
  ghost predicate RestoredAt(m: seq<Entry>, w: map<nat, nat>, total: nat, n: nat)
    requires m != [] && multiset(Ids(m)) == multiset(w.Keys)
  {
    Balanced(Run(m, w, total, n).state, w, total, w)
  }

  lemma RestoredAtStart(m: seq<Entry>, w: map<nat, nat>, total: nat)
    requires Balanced(m, w, total, w)
    ensures RestoredAt(m, w, total, 0)
  {
  }

  lemma RestoredNext(m: seq<Entry>, w: map<nat, nat>, total: nat, n: nat)
    requires Balanced(m, w, total, w) && RestoredAt(m, w, total, n)
    ensures RestoredAt(m, w, total, n + total)
  {
    RunSplit(m, w, total, n, total);
    TurnRestores(Run(m, w, total, n).state, w, total);
  }

  lemma {:induction false} TurnsRestore(m: seq<Entry>, w: map<nat, nat>, total: nat, turn: nat)
    requires Balanced(m, w, total, w)
    ensures RestoredAt(m, w, total, Rounds(turn, total))
    decreases turn
  {
    hide RestoredAt, Balanced;
    if turn == 0 {
      RestoredAtStart(m, w, total);
    } else {
      TurnsRestore(m, w, total, turn - 1);
      RestoredNext(m, w, total, Rounds(turn - 1, total));
    }
  }

  /** Every turn, not only the first, serves each endpoint exactly its weight. */
  lemma EveryTurnServesExactly(m: seq<Entry>, w: map<nat, nat>, total: nat, turn: nat, id: nat)
    requires Balanced(m, w, total, w) && id in w
    ensures var n := turn * total;
            multiset(Run(m, w, total, n + total).picks[n..])[id] == w[id]
  {
    hide RestoredAt;
    TurnsRestore(m, w, total, turn);
    RoundsAre(turn, total);
    NextTurnServes(m, w, total, Rounds(turn, total));
  }

  lemma NextTurnServes(m: seq<Entry>, w: map<nat, nat>, total: nat, n: nat)
    requires m != [] && multiset(Ids(m)) == multiset(w.Keys)
    requires RestoredAt(m, w, total, n)
    ensures forall id :: id in w ==> multiset(Run(m, w, total, n + total).picks[n..])[id] == w[id]
  {
    var p := Run(m, w, total, n);
    RunSplit(m, w, total, n, total);
    ServedExactly(p.state, w, total);
    assert Run(m, w, total, n + total).picks[n..] == Run(p.state, w, total, total).picks;
  }

  // ----- Periods -----

  /** Every run is `p` rounds followed by the shorter run. */
  ghost predicate Period(m: seq<Entry>, w: map<nat, nat>, total: nat, p: nat)
    requires m != [] && multiset(Ids(m)) == multiset(w.Keys)
  {
    p > 0 && forall n :: Repeats(m, w, total, p, n)
  }

  ghost predicate Repeats(m: seq<Entry>, w: map<nat, nat>, total: nat, p: nat, n: nat)
    requires m != [] && multiset(Ids(m)) == multiset(w.Keys)
  {
    Run(m, w, total, p + n) ==
      Progress(Run(m, w, total, n).state, Run(m, w, total, p).picks + Run(m, w, total, n).picks)
  }

  /** The schedule has period `p` exactly when `p` rounds restore the multimap, ties included. */
  lemma PeriodIff(m: seq<Entry>, w: map<nat, nat>, total: nat, p: nat)
    requires m != [] && multiset(Ids(m)) == multiset(w.Keys)
    ensures Period(m, w, total, p) <==> p > 0 && Run(m, w, total, p).state == m
  {
    if Run(m, w, total, p).state == m {
      forall n ensures Repeats(m, w, total, p, n) {
        RunSplit(m, w, total, p, n);
      }
    } else {
      assert !Repeats(m, w, total, p, 0);
    }
  }

  // ----- Different weights: one turn restores the multimap -----

  ghost predicate StrictlySorted(m: seq<Entry>) {
    forall i, j :: 0 <= i < j < |m| ==> m[i].key < m[j].key
  }

  ghost predicate WeightsDiffer(w: map<nat, nat>) {
    forall a, b :: a in w && b in w && a != b ==> w[a] != w[b]
  }

  lemma ButLast(a: seq<Entry>)
    requires StrictlySorted(a) && a != []
    ensures var n := |a| - 1;
            StrictlySorted(a[..n]) && forall e :: e in a[..n] <==> e in a && e != a[n]
    ensures forall e :: e in a && e != a[|a| - 1] ==> e.key < a[|a| - 1].key
  {
    var n := |a| - 1;
    assert a == a[..n] + [a[n]];
  }

  lemma {:induction false} SameEntries(a: seq<Entry>, b: seq<Entry>)
    requires StrictlySorted(a) && StrictlySorted(b)
    requires forall e :: e in a <==> e in b
    ensures a == b
    decreases |a|
  {
    assert |a| > 0 ==> a[0] in b;
    assert |b| > 0 ==> b[0] in a;
    if a == [] {
      assert b == [];
    } else {
      var x, y := a[|a| - 1], b[|b| - 1];
      assert x in a && y in b;
      ButLast(a);
      ButLast(b);
      assert x == y;
      SameEntries(a[..|a| - 1], b[..|b| - 1]);
      assert a == a[..|a| - 1] + [x] && b == b[..|b| - 1] + [x];
    }
  }

  lemma StateIsSorted(m: seq<Entry>, w: map<nat, nat>, total: nat)
    requires Balanced(m, w, total, w) && WeightsDiffer(w)
    ensures StrictlySorted(m)
    ensures forall e: Entry :: e in m <==> e.id in w && e.key == w[e.id]
  {
    forall i, j | 0 <= i < j < |m| ensures m[i].key < m[j].key {
      IdsDistinct(m, w, i, j);
      assert m[i] in m && m[j] in m;
    }
    forall e: Entry | e.id in w && e.key == w[e.id] ensures e in m {
      IdsCovered(m, w);
    }
  }

  /** When no two scaled weights are equal, the state after a turn is the starting state. */
  lemma TurnReturns(m: seq<Entry>, w: map<nat, nat>, total: nat)
    requires Balanced(m, w, total, w) && WeightsDiffer(w)
    ensures Run(m, w, total, total).state == m
  {
    TurnRestores(m, w, total);
    StateIsSorted(m, w, total);
    StateIsSorted(Run(m, w, total, total).state, w, total);
    SameEntries(Run(m, w, total, total).state, m);
  }

  /** Then one turn is a period. */
  lemma DifferentWeightsRepeat(m: seq<Entry>, w: map<nat, nat>, total: nat)
    requires Balanced(m, w, total, w) && WeightsDiffer(w)
    ensures Period(m, w, total, total)
  {
    TurnReturns(m, w, total);
    PeriodIff(m, w, total, total);
  }
}
