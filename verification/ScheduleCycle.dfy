/** The weighted schedule is periodic for all weights: a turn permutes the order of equal keys in a way that
    depends on the weights alone, so some number of turns restores it. */
module ScheduleCycle {
  import opened Basics
  import opened WeightedRouter
  import opened RouterTable
  import opened SchedulePeriod

  // ----- Order and permutation -----

  ghost predicate Ascending(s: seq<nat>) {
    forall i, j :: 0 <= i < j < |s| ==> s[i] <= s[j]
  }

  lemma NoneLeft(s: seq<nat>)
    ensures multiset(s) == multiset{} <==> s == []
  {
    if s != [] { assert s[0] in multiset(s); }
  }

  lemma DropLast(s: seq<nat>)
    requires s != []
    ensures var n := |s| - 1;
            s == s[..n] + [s[n]] && multiset(s[..n]) == multiset(s) - multiset{s[n]} && (Ascending(s) ==> Ascending(s[..n]))
  {
    assert s == s[..|s| - 1] + [s[|s| - 1]];
  }

  lemma SameLargest(a: seq<nat>, b: seq<nat>)
    requires Ascending(a) && Ascending(b) && multiset(a) == multiset(b) && a != [] && b != []
    ensures a[|a| - 1] == b[|b| - 1]
  {
    var x, y := a[|a| - 1], b[|b| - 1];
    assert x in multiset(a) && y in multiset(b);
    assert x in b && y in a;
  }

  lemma {:induction false} AscendingUnique(a: seq<nat>, b: seq<nat>)
    requires Ascending(a) && Ascending(b) && multiset(a) == multiset(b)
    ensures a == b
    decreases |a|
  {
    hide Ascending;
    NoneLeft(a);
    NoneLeft(b);
    if a == [] {
    } else {
      DropLast(a);
      DropLast(b);
      SameLargest(a, b);
      AscendingUnique(a[..|a| - 1], b[..|b| - 1]);
    }
  }

  ghost predicate Covered(ids: seq<nat>, w: map<nat, nat>) {
    forall i :: 0 <= i < |ids| ==> ids[i] in w
  }

  function Weights(ids: seq<nat>, w: map<nat, nat>): (ks: seq<nat>)
    requires Covered(ids, w)
  {
    seq(|ids|, i requires 0 <= i < |ids| => w[ids[i]])
  }

  /** Moving the id at `j` to the front moves its weight to the front. */
  lemma TakeOut(b: seq<nat>, j: nat, w: map<nat, nat>)
    requires j < |b| && Covered(b, w)
    ensures var rest := b[..j] + b[j + 1..];
            multiset(rest) == multiset(b) - multiset{b[j]} && Covered(rest, w)
            && multiset(Weights(b, w)) == multiset(Weights(rest, w)) + multiset{w[b[j]]}
  {
    var ks := Weights(b, w);
    assert b == b[..j] + [b[j]] + b[j + 1..];
    assert ks == ks[..j] + [ks[j]] + ks[j + 1..];
    assert Weights(b[..j] + b[j + 1..], w) == ks[..j] + ks[j + 1..];
  }

  /** Takes the first id of `a` out of both. */
  lemma Shorter(a: seq<nat>, b: seq<nat>, w: map<nat, nat>) returns (b': seq<nat>)
    requires multiset(a) == multiset(b) && a != [] && Covered(a, w) && Covered(b, w)
    ensures multiset(a[1..]) == multiset(b') && Covered(a[1..], w) && Covered(b', w)
    ensures multiset(Weights(a[1..], w)) == multiset(Weights(b', w)) ==> multiset(Weights(a, w)) == multiset(Weights(b, w))
  {
    var j := Occurs(a, b);
    b' := b[..j] + b[j + 1..];
    TakeOut(b, j, w);
    TakeOut(a, 0, w);
    assert a[..0] + a[1..] == a[1..];
  }

  lemma Occurs(a: seq<nat>, b: seq<nat>) returns (j: nat)
    requires a != [] && multiset(a) == multiset(b)
    ensures j < |b| && b[j] == a[0]
  {
    assert a[0] in multiset(b);
    assert a[0] in b;
    j :| j < |b| && b[j] == a[0];
  }

  lemma SameLength(a: seq<nat>, b: seq<nat>)
    requires multiset(a) == multiset(b)
    ensures |a| == |b|
  {
    assert |multiset(a)| == |multiset(b)|;
  }

  lemma {:induction false} WeightsPermuted(a: seq<nat>, b: seq<nat>, w: map<nat, nat>)
    requires multiset(a) == multiset(b) && Covered(a, w) && Covered(b, w)
    ensures multiset(Weights(a, w)) == multiset(Weights(b, w))
    decreases |a|
  {
    SameLength(a, b);
    if a == [] {
    } else {
      var b' := Shorter(a, b, w);
      WeightsPermuted(a[1..], b', w);
    }
  }

  /** The current weights of a balanced multimap are its weights, in order. */
  lemma BalancedWeights(m: seq<Entry>, w: map<nat, nat>, total: nat)
    requires Balanced(m, w, total, w)
    ensures Covered(Ids(m), w) && Ascending(Weights(Ids(m), w))
    ensures forall i :: 0 <= i < |m| ==> m[i].key == Weights(Ids(m), w)[i]
  {
    forall i | 0 <= i < |m| ensures Ids(m)[i] in w && m[i].key == w[Ids(m)[i]] {
      assert m[i] in m;
    }
  }

  /** All balanced multimaps over the same weights have the same weights in the same places. */
  lemma SameWeightOrder(m: seq<Entry>, m': seq<Entry>, w: map<nat, nat>, total: nat)
    requires Balanced(m, w, total, w) && Balanced(m', w, total, w)
    ensures Covered(Ids(m), w) && Covered(Ids(m'), w) && Weights(Ids(m), w) == Weights(Ids(m'), w)
  {
    BalancedWeights(m, w, total);
    BalancedWeights(m', w, total);
    WeightsPermuted(Ids(m), Ids(m'), w);
    AscendingUnique(Weights(Ids(m), w), Weights(Ids(m'), w));
  }

  // ----- One turn by positions -----

  /** The multimap with positions in place of endpoint ids. */
  function Positions(ks: seq<nat>): (m: seq<Entry>) {
    seq(|ks|, i requires 0 <= i < |ks| => Entry(ks[i], i))
  }

  function ByPosition(ks: seq<nat>): (w: map<nat, nat>) {
    map i | i in UpTo(|ks|) :: ks[i]
  }

  lemma {:induction false} UpToOnce(n: nat)
    ensures multiset(UpTo(n)) == multiset(Members(UpTo(n)))
  {
    if n == 0 {
      assert UpTo(0) == [];
    } else {
      UpToOnce(n - 1);
      assert UpTo(n) == UpTo(n - 1) + [n - 1];
      assert Members(UpTo(n)) == Members(UpTo(n - 1)) + {n - 1};
    }
  }

  lemma PositionsFit(ks: seq<nat>)
    ensures multiset(Ids(Positions(ks))) == multiset(ByPosition(ks).Keys) == multiset(UpTo(|ks|))
  {
    UpToOnce(|ks|);
    assert Ids(Positions(ks)) == UpTo(|ks|) && ByPosition(ks).Keys == Members(UpTo(|ks|));
  }

  /** The positions in the order in which one turn leaves them. */
  function TurnOrder(ks: seq<nat>, total: nat): (p: seq<nat>)
    ensures IsOrder(p, |ks|)
  {
    PositionsFit(ks);
    if ks == [] then [] else Ids(Run(Positions(ks), ByPosition(ks), total, total).state)
  }

  ghost predicate IsOrder(p: seq<nat>, n: nat) {
    |p| == n && multiset(p) == multiset(UpTo(n))
  }

  lemma OrderFacts(p: seq<nat>, n: nat)
    requires IsOrder(p, n)
    ensures forall i :: 0 <= i < n ==> p[i] < n
    ensures forall x :: 0 <= x < n ==> x in p
  {
    forall i | 0 <= i < n ensures p[i] < n {
      assert p[i] in multiset(p);
      assert p[i] in UpTo(n);
    }
    forall x | 0 <= x < n ensures x in p {
      assert UpTo(n)[x] in multiset(UpTo(n));
      assert x in multiset(p);
    }
  }

  /** A balanced multimap is its positions renamed, and so is the multimap after a turn. */
  lemma OneTurn(m: seq<Entry>, w: map<nat, nat>, total: nat, ks: seq<nat>)
    requires Balanced(m, w, total, w) && Covered(Ids(m), w) && ks == Weights(Ids(m), w)
    ensures Ids(Run(m, w, total, total).state) == Image(TurnOrder(ks, total), Ids(m))
  {
    BalancedWeights(m, w, total);
    PositionsFit(ks);
    assert m == Rename(Positions(ks), Ids(m));
    assert SameWeights(ByPosition(ks), w, Ids(m));
    RenameRun(Positions(ks), ByPosition(ks), total, total, w, Ids(m));
    IdsRenamed(Run(Positions(ks), ByPosition(ks), total, total).state, Ids(m));
  }

  lemma IdsRenamed(m: seq<Entry>, labels: seq<nat>)
    ensures Ids(Rename(m, labels)) == Image(Ids(m), labels)
  {
  }

  // ----- Many turns -----

  /** The positions after `k` turns, each permuting them by `p`. */
  function Iterate(p: seq<nat>, k: nat): (r: seq<nat>)
    ensures |r| == |p|
  {
    if k == 0 then UpTo(|p|) else Image(p, Iterate(p, k - 1))
  }

  lemma ImageOfImage(a: seq<nat>, b: seq<nat>, c: seq<nat>)
    requires forall i :: 0 <= i < |a| ==> a[i] < |b|
    ensures Image(a, Image(b, c)) == Image(Image(a, b), c)
  {
  }

  lemma ImageOfUpTo(ids: seq<nat>)
    ensures Image(UpTo(|ids|), ids) == ids
  {
  }

  /** After `k` turns everything is restored but the order, which is the `k`-th iterate. */
  ghost predicate InOrder(m: seq<Entry>, w: map<nat, nat>, total: nat, p: seq<nat>, k: nat)
    requires m != [] && multiset(Ids(m)) == multiset(w.Keys)
  {
    RestoredAt(m, w, total, Rounds(k, total))
    && Ids(Run(m, w, total, Rounds(k, total)).state) == Image(Iterate(p, k), Ids(m))
  }

  lemma InOrderAtStart(m: seq<Entry>, w: map<nat, nat>, total: nat, p: seq<nat>)
    requires Balanced(m, w, total, w) && |p| == |m|
    ensures InOrder(m, w, total, p, 0)
  {
    ImageOfUpTo(Ids(m));
  }

  /** The turn that follows `n` rounds permutes the ids as every turn does. */
  lemma LaterTurn(m: seq<Entry>, w: map<nat, nat>, total: nat, ks: seq<nat>, n: nat)
    requires Balanced(m, w, total, w) && Covered(Ids(m), w) && ks == Weights(Ids(m), w)
    requires RestoredAt(m, w, total, n)
    ensures Ids(Run(m, w, total, n + total).state) == Image(TurnOrder(ks, total), Ids(Run(m, w, total, n).state))
  {
    var s := Run(m, w, total, n).state;
    RunSplit(m, w, total, n, total);
    SameWeightOrder(m, s, w, total);
    OneTurn(s, w, total, ks);
  }

  lemma NextInOrder(m: seq<Entry>, w: map<nat, nat>, total: nat, ks: seq<nat>, k: nat)
    requires Balanced(m, w, total, w) && Covered(Ids(m), w) && ks == Weights(Ids(m), w)
    requires InOrder(m, w, total, TurnOrder(ks, total), k)
    ensures InOrder(m, w, total, TurnOrder(ks, total), k + 1)
  {
    hide Balanced, RestoredAt, Run;
    var p := TurnOrder(ks, total);
    RestoredNext(m, w, total, Rounds(k, total));
    LaterTurn(m, w, total, ks, Rounds(k, total));
    OrderFacts(p, |ks|);
    ImageOfImage(p, Iterate(p, k), Ids(m));
  }

  lemma {:induction false} TurnsInOrder(m: seq<Entry>, w: map<nat, nat>, total: nat, ks: seq<nat>, k: nat)
    requires Balanced(m, w, total, w) && Covered(Ids(m), w) && ks == Weights(Ids(m), w)
    ensures InOrder(m, w, total, TurnOrder(ks, total), k)
    decreases k
  {
    hide Balanced, InOrder;
    if k == 0 {
      InOrderAtStart(m, w, total, TurnOrder(ks, total));
    } else {
      TurnsInOrder(m, w, total, ks, k - 1);
      NextInOrder(m, w, total, ks, k - 1);
    }
  }

  lemma IdsApart(m: seq<Entry>, w: map<nat, nat>)
    requires multiset(Ids(m)) == multiset(w.Keys)
    ensures NoDuplicates(Ids(m))
  {
    forall i, j | 0 <= i < j < |m| ensures Ids(m)[i] != Ids(m)[j] {
      IdsDistinct(m, w, i, j);
    }
  }

  lemma SameImage(r: seq<nat>, ids: seq<nat>)
    requires NoDuplicates(ids) && |r| == |ids| && forall i :: 0 <= i < |r| ==> r[i] < |ids|
    ensures Image(r, ids) == ids <==> r == UpTo(|ids|)
  {
    ImageOfUpTo(ids);
    if Image(r, ids) == ids {
      forall i | 0 <= i < |r| ensures r[i] == i {
        assert Image(r, ids)[i] == ids[r[i]];
      }
    }
  }

  lemma {:induction false} IterateInRange(p: seq<nat>, k: nat)
    requires forall i :: 0 <= i < |p| ==> p[i] < |p|
    ensures forall i :: 0 <= i < |p| ==> Iterate(p, k)[i] < |p|
  {
    if k == 0 {
    } else {
      IterateInRange(p, k - 1);
    }
  }

  /** Balanced multimaps with the same ids in the same places are the same. */
  lemma SameIds(m: seq<Entry>, s: seq<Entry>, w: map<nat, nat>, total: nat)
    requires Balanced(m, w, total, w) && Balanced(s, w, total, w)
    ensures Ids(m) == Ids(s) <==> m == s
  {
    BalancedWeights(m, w, total);
    BalancedWeights(s, w, total);
    if Ids(m) == Ids(s) {
      forall i | 0 <= i < |m| ensures m[i] == s[i] {
        assert Ids(m)[i] == Ids(s)[i];
      }
    }
  }

  /** Turns are a period exactly when they restore the order of the positions. */
  lemma PeriodByOrder(m: seq<Entry>, w: map<nat, nat>, total: nat, ks: seq<nat>, d: nat)
    requires Balanced(m, w, total, w) && Covered(Ids(m), w) && ks == Weights(Ids(m), w)
    ensures Period(m, w, total, d * total) <==> d > 0 && Iterate(TurnOrder(ks, total), d) == UpTo(|m|)
  {
    var p := TurnOrder(ks, total);
    RoundsAre(d, total);
    TurnsInOrder(m, w, total, ks, d);
    OrderFacts(p, |ks|);
    IterateInRange(p, d);
    IdsApart(m, w);
    SameImage(Iterate(p, d), Ids(m));
    SameIds(m, Run(m, w, total, d * total).state, w, total);
    PeriodIff(m, w, total, d * total);
    assert d * total > 0 <==> d > 0;
  }

  /** How many turns restore the order depends on the scaled weights alone: routers with the same ones, in
      whatever order of ties and under whatever ids, have the same periods. */
  lemma PeriodOfWeights(m: seq<Entry>, w: map<nat, nat>, m': seq<Entry>, w': map<nat, nat>, total: nat, d: nat)
    requires Balanced(m, w, total, w) && Balanced(m', w', total, w')
    requires Covered(Ids(m), w) && Covered(Ids(m'), w') && Weights(Ids(m), w) == Weights(Ids(m'), w')
    ensures Period(m, w, total, d * total) <==> Period(m', w', total, d * total)
  {
    var ks := Weights(Ids(m), w);
    PeriodByOrder(m, w, total, ks, d);
    PeriodByOrder(m', w', total, ks, d);
  }

  // ----- Some number of turns restores the order -----

  lemma SameUnder(p: seq<nat>, a: seq<nat>, b: seq<nat>)
    requires |a| == |b| == |p| && (forall x :: 0 <= x < |p| ==> x in p) && Image(p, a) == Image(p, b)
    ensures a == b
  {
    forall x | 0 <= x < |p| ensures a[x] == b[x] {
      assert x in p;
      var i :| 0 <= i < |p| && p[i] == x;
      assert Image(p, a)[i] == a[x] && Image(p, b)[i] == b[x];
    }
  }

  /** A repetition can be carried back to the start. */
  lemma {:induction false} BackToStart(p: seq<nat>, i: nat, d: nat)
    requires (forall x :: 0 <= x < |p| ==> x in p) && Iterate(p, i) == Iterate(p, i + d)
    ensures Iterate(p, d) == UpTo(|p|)
    decreases i
  {
    if i == 0 {
    } else {
      SameUnder(p, Iterate(p, i - 1), Iterate(p, i - 1 + d));
      BackToStart(p, i - 1, d);
    }
  }

  /** All sequences of so many numbers below `n`. */
  ghost function Below(n: nat, len: nat): (r: set<seq<nat>>) {
    if len == 0 then {[]} else set x, s | x in UpTo(n) && s in Below(n, len - 1) :: [x] + s
  }

  lemma {:induction false} BelowHasAll(n: nat, s: seq<nat>)
    requires forall i :: 0 <= i < |s| ==> s[i] < n
    ensures s in Below(n, |s|)
    decreases |s|
  {
    if s == [] {
    } else {
      BelowHasAll(n, s[1..]);
      assert UpTo(n)[s[0]] == s[0];
      assert s == [s[0]] + s[1..];
    }
  }

  ghost predicate Earlier(p: seq<nat>, k: nat, s: seq<nat>) {
    exists j :: 0 <= j < k && Iterate(p, j) == s
  }

  /** Walking on from the `k`-th iterate meets one that was seen before. */
  lemma {:induction false} Repetition(p: seq<nat>, k: nat, seen: set<seq<nat>>) returns (i: nat, d: nat)
    requires (forall i :: 0 <= i < |p| ==> p[i] < |p|) && seen <= Below(|p|, |p|)
    requires forall s :: s in seen ==> Earlier(p, k, s)
    ensures d > 0 && Iterate(p, i) == Iterate(p, i + d)
    decreases Below(|p|, |p|) - seen
  {
    var s := Iterate(p, k);
    if s in seen {
      i :| 0 <= i < k && Iterate(p, i) == s;
      d := k - i;
    } else {
      IterateInRange(p, k);
      BelowHasAll(|p|, s);
      assert Earlier(p, k + 1, s);
      forall t | t in seen ensures Earlier(p, k + 1, t) {
        var j :| 0 <= j < k && Iterate(p, j) == t;
      }
      i, d := Repetition(p, k + 1, seen + {s});
    }
  }

  /** Whatever the weights, the whole schedule is periodic, with a number of turns for its period. */
  lemma AlwaysPeriodic(m: seq<Entry>, w: map<nat, nat>, total: nat)
    requires Balanced(m, w, total, w)
    ensures exists d :: d > 0 && Period(m, w, total, d * total)
  {
    BalancedWeights(m, w, total);
    var ks := Weights(Ids(m), w);
    var p := TurnOrder(ks, total);
    OrderFacts(p, |ks|);
    var i, d := Repetition(p, 0, {});
    BackToStart(p, i, d);
    PeriodByOrder(m, w, total, ks, d);
  }
}
