/** The smooth weighted round-robin table that EndpointManager builds for static weights.

    The scheduler keeps one entry per endpoint in a multimap from current weight to endpoint id.
    Each round serves the last entry, charges it the total weight and credits every entry its own
    weight.  Everything below is stated for arbitrary weights and arbitrary distinct ids. */
module WeightedRouter {

  const MIN_WEIGHT_LIMIT: nat := 10
  const MAX_WEIGHT_LIMIT: nat := 100

  // ----- The multimap: entries in ascending key order, equal keys in insertion order -----

  datatype Entry = Entry(key: int, id: nat)

  ghost predicate Sorted(m: seq<Entry>) {
    forall i, j :: 0 <= i < j < |m| ==> m[i].key <= m[j].key
  }

  function Ids(m: seq<Entry>): (ids: seq<nat>) {
    seq(|m|, i requires 0 <= i < |m| => m[i].id)
  }

  /** multimap::insert places a new entry after the entries with the same key. */
  function Insert(m: seq<Entry>, e: Entry): (r: seq<Entry>)
    ensures |r| == |m| + 1
    ensures forall x :: x in r <==> x in m || x == e
  {
    if m == [] || e.key < m[0].key then [e] + m
    else
      assert m == [m[0]] + m[1..];
      [m[0]] + Insert(m[1..], e)
  }

  /** Before the new entry come those with no greater key, after it those with a greater one. */
  lemma {:induction false} InsertPlaces(m: seq<Entry>, e: Entry) returns (k: nat)
    requires Sorted(m)
    ensures k <= |m| && Insert(m, e) == m[..k] + [e] + m[k..]
    ensures forall i :: 0 <= i < k ==> m[i].key <= e.key
    ensures forall i :: k <= i < |m| ==> m[i].key > e.key
  {
    if m == [] || e.key < m[0].key {
      k := 0;
    } else {
      k := InsertPlaces(m[1..], e);
      k := k + 1;
      assert m[..k] == [m[0]] + m[1..][..k - 1] && m[k..] == m[1..][k - 1..];
    }
  }

  lemma {:induction false} InsertSorted(m: seq<Entry>, e: Entry)
    requires Sorted(m)
    ensures Sorted(Insert(m, e))
  {
    if m != [] && e.key >= m[0].key {
      InsertSorted(m[1..], e);
      var rest := Insert(m[1..], e);
      forall i | 0 <= i < |rest| ensures m[0].key <= rest[i].key {
        assert rest[i] in rest;
      }
    }
  }

  lemma {:induction false} InsertIds(m: seq<Entry>, e: Entry)
    ensures multiset(Ids(Insert(m, e))) == multiset(Ids(m)) + multiset{e.id}
  {
    if m == [] || e.key < m[0].key {
      assert Ids([e] + m) == [e.id] + Ids(m);
    } else {
      InsertIds(m[1..], e);
      var rest := Insert(m[1..], e);
      assert Ids(m) == [m[0].id] + Ids(m[1..]);
      assert Ids([m[0]] + rest) == [m[0].id] + Ids(rest);
    }
  }

  /** Walks `m` from its last entry to its first, crediting each and inserting it into `acc`. */
  function Reinsert(m: seq<Entry>, w: map<nat, nat>, acc: seq<Entry>): (r: seq<Entry>)
    requires forall e :: e in m ==> e.id in w
    ensures |r| == |m| + |acc|
    decreases |m|
  {
    if m == [] then acc
    else
      var n := |m| - 1;
      Reinsert(m[..n], w, Insert(acc, Entry(m[n].key + w[m[n].id], m[n].id)))
  }

  lemma {:induction false} ReinsertSorted(m: seq<Entry>, w: map<nat, nat>, acc: seq<Entry>)
    requires forall e :: e in m ==> e.id in w
    requires Sorted(acc)
    ensures Sorted(Reinsert(m, w, acc))
    decreases |m|
  {
    if m == [] {
    } else {
      var n := |m| - 1;
      var e := Entry(m[n].key + w[m[n].id], m[n].id);
      InsertSorted(acc, e);
      ReinsertSorted(m[..n], w, Insert(acc, e));
    }
  }

  lemma {:induction false} ReinsertIds(m: seq<Entry>, w: map<nat, nat>, acc: seq<Entry>)
    requires forall e :: e in m ==> e.id in w
    ensures multiset(Ids(Reinsert(m, w, acc))) == multiset(Ids(m)) + multiset(Ids(acc))
    decreases |m|
  {
    if m == [] {
    } else {
      var n := |m| - 1;
      var e := Entry(m[n].key + w[m[n].id], m[n].id);
      assert Ids(m) == Ids(m[..n]) + [m[n].id];
      InsertIds(acc, e);
      ReinsertIds(m[..n], w, Insert(acc, e));
    }
  }

  function Picked(m: seq<Entry>): (id: nat)
    requires m != []
  {
    m[|m| - 1].id
  }

  /** The served entry pays one full turn. */
  function Charged(m: seq<Entry>, w: map<nat, nat>, total: nat): (e: Entry)
    requires m != [] && Picked(m) in w
  {
    var last := m[|m| - 1];
    Entry(last.key - total + w[last.id], last.id)
  }

  /** One scheduling round. */
  function Round(m: seq<Entry>, w: map<nat, nat>, total: nat): (r: seq<Entry>)
    requires m != []
    requires forall e :: e in m ==> e.id in w
    ensures |r| == |m|
  {
    Reinsert(m[..|m| - 1], w, [Charged(m, w, total)])
  }

  lemma RoundIds(m: seq<Entry>, w: map<nat, nat>, total: nat)
    requires m != []
    requires forall e :: e in m ==> e.id in w
    ensures multiset(Ids(Round(m, w, total))) == multiset(Ids(m))
  {
    var n := |m| - 1;
    assert Ids(m) == Ids(m[..n]) + [m[n].id];
    assert Ids([Charged(m, w, total)]) == [m[n].id];
    ReinsertIds(m[..n], w, [Charged(m, w, total)]);
  }

  datatype Progress = Progress(state: seq<Entry>, picks: seq<nat>)

  lemma IdsCovered(m: seq<Entry>, w: map<nat, nat>)
    requires multiset(Ids(m)) == multiset(w.Keys)
    ensures forall e :: e in m ==> e.id in w
    ensures forall id :: id in w ==> exists e :: e in m && e.id == id
  {
    forall e | e in m ensures e.id in w {
      var i :| 0 <= i < |m| && m[i] == e;
      assert Ids(m)[i] == e.id;
      assert e.id in multiset(Ids(m));
    }
    forall id | id in w ensures exists e :: e in m && e.id == id {
      assert id in multiset(Ids(m));
      var i :| 0 <= i < |Ids(m)| && Ids(m)[i] == id;
      assert m[i] in m && m[i].id == id;
    }
  }

  lemma IdsDistinct(m: seq<Entry>, w: map<nat, nat>, i: nat, j: nat)
    requires multiset(Ids(m)) == multiset(w.Keys)
    requires i < j < |m|
    ensures m[i].id != m[j].id
  {
    var s := Ids(m);
    assert s == s[..j] + [s[j]] + s[j + 1..];
    assert s[i] == s[..j][i] && multiset(s[..j])[s[i]] > 0;
    assert multiset(s)[s[j]] <= 1;
  }

  /** `k` rounds from `m`. */
  function Run(m: seq<Entry>, w: map<nat, nat>, total: nat, k: nat): (p: Progress)
    requires m != []
    requires multiset(Ids(m)) == multiset(w.Keys)
    ensures |p.state| == |m| && |p.picks| == k
    ensures multiset(Ids(p.state)) == multiset(w.Keys)
    decreases k
  {
    if k == 0 then Progress(m, [])
    else
      var p := Run(m, w, total, k - 1);
      IdsCovered(p.state, w);
      RoundIds(p.state, w, total);
      Progress(Round(p.state, w, total), p.picks + [Picked(p.state)])
  }

  // ----- Sums over the multimap -----

  ghost function TotalKey(m: seq<Entry>): int {
    if m == [] then 0 else m[0].key + TotalKey(m[1..])
  }

  ghost function TotalWeight(m: seq<Entry>, w: map<nat, nat>): int
    requires forall e :: e in m ==> e.id in w
  {
    if m == [] then 0 else w[m[0].id] + TotalWeight(m[1..], w)
  }

  lemma {:induction false} InsertTotals(m: seq<Entry>, e: Entry, w: map<nat, nat>)
    requires forall x :: x in m ==> x.id in w
    requires e.id in w
    ensures TotalKey(Insert(m, e)) == TotalKey(m) + e.key
    ensures TotalWeight(Insert(m, e), w) == TotalWeight(m, w) + w[e.id]
  {
    if m == [] || e.key < m[0].key {
      assert ([e] + m)[1..] == m;
    } else {
      InsertTotals(m[1..], e, w);
      var rest := Insert(m[1..], e);
      assert ([m[0]] + rest)[1..] == rest;
    }
  }

  lemma {:induction false} SnocTotals(m: seq<Entry>, w: map<nat, nat>)
    requires m != []
    requires forall x :: x in m ==> x.id in w
    ensures TotalKey(m) == TotalKey(m[..|m| - 1]) + m[|m| - 1].key
    ensures TotalWeight(m, w) == TotalWeight(m[..|m| - 1], w) + w[m[|m| - 1].id]
  {
    if |m| > 1 {
      SnocTotals(m[1..], w);
      assert m[1..][..|m| - 2] == m[..|m| - 1][1..];
    }
  }

  lemma {:induction false} ReinsertTotals(m: seq<Entry>, w: map<nat, nat>, acc: seq<Entry>)
    requires forall e :: e in m ==> e.id in w
    requires forall e :: e in acc ==> e.id in w
    ensures forall e :: e in Reinsert(m, w, acc) ==> e.id in w
    ensures TotalKey(Reinsert(m, w, acc)) == TotalKey(m) + TotalWeight(m, w) + TotalKey(acc)
    ensures TotalWeight(Reinsert(m, w, acc), w) == TotalWeight(m, w) + TotalWeight(acc, w)
    decreases |m|
  {
    hide Insert;
    if m == [] {
    } else {
      var n := |m| - 1;
      var e := Entry(m[n].key + w[m[n].id], m[n].id);
      SnocTotals(m, w);
      InsertTotals(acc, e, w);
      ReinsertTotals(m[..n], w, Insert(acc, e));
    }
  }

  /** The sum of the current weights is conserved by a round. */
  lemma RoundTotals(m: seq<Entry>, w: map<nat, nat>, total: nat)
    requires m != []
    requires forall e :: e in m ==> e.id in w
    requires TotalWeight(m, w) == total
    ensures forall e :: e in Round(m, w, total) ==> e.id in w
    ensures TotalKey(Round(m, w, total)) == TotalKey(m)
    ensures TotalWeight(Round(m, w, total), w) == total
  {
    var n := |m| - 1;
    SnocTotals(m, w);
    ReinsertTotals(m[..n], w, [Charged(m, w, total)]);
  }

  // ----- The current weights in closed form -----

  /** Every entry carries the key that `cur` gives its id. */
  ghost predicate KeysAre(m: seq<Entry>, cur: map<nat, int>) {
    forall e :: e in m ==> e.id in cur && e.key == cur[e.id]
  }

  /** Everyone is credited its weight; the served endpoint is charged a full turn. */
  ghost function Advance(cur: map<nat, int>, w: map<nat, nat>, total: nat, picked: nat): map<nat, int>
    requires cur.Keys == w.Keys
  {
    map id | id in w :: cur[id] + w[id] - (if id == picked then total else 0)
  }

  /** The current weights after `k` rounds. */
  ghost function Current(m: seq<Entry>, w: map<nat, nat>, total: nat, k: nat): (cur: map<nat, int>)
    requires m != [] && multiset(Ids(m)) == multiset(w.Keys)
    ensures cur.Keys == w.Keys
    decreases k
  {
    if k == 0 then w
    else Advance(Current(m, w, total, k - 1), w, total, Picked(Run(m, w, total, k - 1).state))
  }

  lemma {:induction false} ReinsertKeys(m: seq<Entry>, w: map<nat, nat>, acc: seq<Entry>, next: map<nat, int>)
    requires forall e :: e in m ==> e.id in w
    requires forall e :: e in m ==> e.id in next && e.key + w[e.id] == next[e.id]
    requires KeysAre(acc, next)
    ensures KeysAre(Reinsert(m, w, acc), next)
    decreases |m|
  {
    if m == [] {
    } else {
      var n := |m| - 1;
      ReinsertKeys(m[..n], w, Insert(acc, Entry(m[n].key + w[m[n].id], m[n].id)), next);
    }
  }

  lemma RoundKeys(m: seq<Entry>, w: map<nat, nat>, total: nat, cur: map<nat, int>)
    requires m != []
    requires multiset(Ids(m)) == multiset(w.Keys)
    requires forall e :: e in m ==> e.id in w
    requires cur.Keys == w.Keys && KeysAre(m, cur)
    ensures KeysAre(Round(m, w, total), Advance(cur, w, total, Picked(m)))
  {
    var n := |m| - 1;
    forall e | e in m[..n] ensures e.id != Picked(m) {
      var i :| 0 <= i < n && m[i] == e;
      IdsDistinct(m, w, i, n);
    }
    ReinsertKeys(m[..n], w, [Charged(m, w, total)], Advance(cur, w, total, Picked(m)));
  }

  lemma {:induction false} PositiveMaximum(m: seq<Entry>)
    requires m != [] && Sorted(m) && TotalKey(m) > 0
    ensures m[|m| - 1].key > 0
  {
    if m[|m| - 1].key <= 0 {
      NonPositiveTotal(m);
    }
  }

  lemma {:induction false} NonPositiveTotal(m: seq<Entry>)
    requires forall e :: e in m ==> e.key <= 0
    ensures TotalKey(m) <= 0
  {
    if m == [] {
    } else {
      NonPositiveTotal(m[1..]);
    }
  }

  /** The scheduler invariant: the current weights add up to one full turn, and none is ever a
      full turn or more below its own weight. */
  ghost predicate Balanced(m: seq<Entry>, w: map<nat, nat>, total: nat, cur: map<nat, int>) {
    && m != [] && Sorted(m) && total > 0
    && multiset(Ids(m)) == multiset(w.Keys)
    && (forall e :: e in m ==> e.id in w)
    && TotalWeight(m, w) == total && TotalKey(m) == total
    && cur.Keys == w.Keys && KeysAre(m, cur)
    && (forall id :: id in w ==> cur[id] >= w[id] - total + 1)
  }

  lemma RoundBalanced(m: seq<Entry>, w: map<nat, nat>, total: nat, cur: map<nat, int>)
    requires Balanced(m, w, total, cur)
    ensures Balanced(Round(m, w, total), w, total, Advance(cur, w, total, Picked(m)))
  {
    RoundTotals(m, w, total);
    RoundKeys(m, w, total, cur);
    RoundIds(m, w, total);
    ReinsertSorted(m[..|m| - 1], w, [Charged(m, w, total)]);
    PositiveMaximum(m);
  }

  lemma {:induction false} RunBalanced(m: seq<Entry>, w: map<nat, nat>, total: nat, k: nat)
    requires Balanced(m, w, total, w)
    ensures Balanced(Run(m, w, total, k).state, w, total, Current(m, w, total, k))
    decreases k
  {
    if k == 0 {
      assert Run(m, w, total, k).state == m && Current(m, w, total, k) == w;
    } else {
      var p, cur := Run(m, w, total, k - 1), Current(m, w, total, k - 1);
      RunBalanced(m, w, total, k - 1);
      RoundBalanced(p.state, w, total, cur);
      assert Run(m, w, total, k).state == Round(p.state, w, total);
      assert Current(m, w, total, k) == Advance(cur, w, total, Picked(p.state));
    }
  }

  /** Every round serves an endpoint whose current weight is the greatest. */
  lemma HeaviestServed(m: seq<Entry>, w: map<nat, nat>, total: nat, k: nat, id: nat)
    requires Balanced(m, w, total, w) && id in w
    ensures var pick := Run(m, w, total, k + 1).picks[k];
            pick in w && Current(m, w, total, k)[pick] >= Current(m, w, total, k)[id]
  {
    RunBalanced(m, w, total, k);
    LastIsHeaviest(Run(m, w, total, k).state, w, total, Current(m, w, total, k), id);
  }

  lemma LastIsHeaviest(m: seq<Entry>, w: map<nat, nat>, total: nat, cur: map<nat, int>, id: nat)
    requires Balanced(m, w, total, cur) && id in w
    ensures Picked(m) in w && cur[Picked(m)] >= cur[id]
  {
    IdsCovered(m, w);
    assert m[|m| - 1] in m;
    var e :| e in m && e.id == id;
    var i :| 0 <= i < |m| && m[i] == e;
  }

  ghost predicate Settled(cur: int, k: nat, wi: nat, total: nat, c: nat) {
    cur == (k + 1) * wi - total * c
  }

  lemma NextSettled(cur: int, k: nat, wi: nat, total: nat, c: nat, cur': int, c': nat)
    requires Settled(cur, k, wi, total, c)
    requires c' == c || c' == c + 1
    requires cur' == cur + wi - (if c' == c then 0 else total)
    ensures Settled(cur', k + 1, wi, total, c')
  {
    assert (k + 1 + 1) * wi == (k + 1) * wi + wi;
    assert total * (c + 1) == total * c + total;
  }

  lemma FirstSettled(wi: nat, total: nat)
    ensures Settled(wi, 0, wi, total, 0)
  {
  }

  ghost function Served(m: seq<Entry>, w: map<nat, nat>, total: nat, k: nat, id: nat): nat
    requires m != [] && multiset(Ids(m)) == multiset(w.Keys)
  {
    multiset(Run(m, w, total, k).picks)[id]
  }

  lemma OneRoundLater(m: seq<Entry>, w: map<nat, nat>, total: nat, k: nat, id: nat)
    requires m != [] && multiset(Ids(m)) == multiset(w.Keys) && id in w
    ensures var c, c' := Served(m, w, total, k, id), Served(m, w, total, k + 1, id);
            && (c' == c || c' == c + 1)
            && Current(m, w, total, k + 1)[id] == Current(m, w, total, k)[id] + w[id] - (if c' == c then 0 else total)
  {
    var p, p' := Run(m, w, total, k), Run(m, w, total, k + 1);
    assert p'.picks == p.picks + [Picked(p.state)];
  }

  /** Closed form: credits received minus turns charged. */
  lemma {:induction false} CreditsMinusTurns(m: seq<Entry>, w: map<nat, nat>, total: nat, k: nat, id: nat)
    requires m != [] && multiset(Ids(m)) == multiset(w.Keys) && id in w
    ensures Settled(Current(m, w, total, k)[id], k, w[id], total, Served(m, w, total, k, id))
    decreases k
  {
    if k == 0 {
      assert Served(m, w, total, 0, id) == 0;
      assert Current(m, w, total, 0)[id] == w[id];
      FirstSettled(w[id], total);
    } else {
      CreditsMinusTurns(m, w, total, k - 1, id);
      OneRoundLater(m, w, total, k - 1, id);
      NextSettled(Current(m, w, total, k - 1)[id], k - 1, w[id], total, Served(m, w, total, k - 1, id),
                  Current(m, w, total, k)[id], Served(m, w, total, k, id));
    }
  }

  lemma PicksGrow(m: seq<Entry>, w: map<nat, nat>, total: nat, k: nat)
    requires m != [] && multiset(Ids(m)) == multiset(w.Keys)
    ensures Run(m, w, total, k + 1).picks[..k] == Run(m, w, total, k).picks
  {
  }

  lemma {:induction false} RunPrefix(m: seq<Entry>, w: map<nat, nat>, total: nat, k: nat, n: nat)
    requires m != [] && multiset(Ids(m)) == multiset(w.Keys)
    requires k <= n
    ensures Run(m, w, total, n).picks[..k] == Run(m, w, total, k).picks
    decreases n
  {
    if k == n {
      assert Run(m, w, total, n).picks[..n] == Run(m, w, total, n).picks;
    } else {
      RunPrefix(m, w, total, k, n - 1);
      PicksGrow(m, w, total, n - 1);
    }
  }

  // ----- The counting theorem -----

  lemma {:induction false} EqualSums(m: seq<Entry>, w: map<nat, nat>)
    requires forall e :: e in m ==> e.id in w && e.key >= w[e.id]
    ensures TotalKey(m) >= TotalWeight(m, w)
    ensures TotalKey(m) == TotalWeight(m, w) ==> forall e :: e in m ==> e.key == w[e.id]
  {
    if m == [] {
    } else {
      EqualSums(m[1..], w);
      assert m == [m[0]] + m[1..];
    }
  }

  lemma FullTurn(wi: nat, total: nat, c: nat)
    requires total > 0
    requires (total + 1) * wi - total * c >= wi - total + 1
    ensures (total + 1) * wi - total * c >= wi
    ensures (total + 1) * wi - total * c == wi ==> c == wi
  {
    assert (total + 1) * wi - total * c == wi + total * (wi - c);
    Multiple(total, wi - c);
  }

  lemma Multiple(total: nat, d: int)
    ensures d < 0 ==> total * d <= 0 - total
    ensures d > 0 ==> total * d >= total
  {
    if d < 0 { assert total * d <= total * -1; }
    if d > 0 { assert total * d >= total * 1; }
  }

  /** After as many rounds as the total weight, every endpoint has been served exactly its weight
      and every current weight is back at its starting value. */
  lemma ServedExactly(m: seq<Entry>, w: map<nat, nat>, total: nat)
    requires Balanced(m, w, total, w)
    ensures var p := Run(m, w, total, total);
            && (forall id :: id in w ==> multiset(p.picks)[id] == w[id])
            && KeysAre(p.state, w)
  {
    var p := Run(m, w, total, total);
    RunBalanced(m, w, total, total);
    var cur := Current(m, w, total, total);
    forall id | id in w
      ensures cur[id] >= w[id] && (cur[id] == w[id] ==> multiset(p.picks)[id] == w[id])
    {
      CreditsMinusTurns(m, w, total, total, id);
      FullTurn(w[id], total, multiset(p.picks)[id]);
    }
    EqualSums(p.state, w);
    IdsCovered(p.state, w);
  }

  lemma {:induction false} KeysAbove(m: seq<Entry>, w: map<nat, nat>, total: nat)
    requires total > 0
    requires forall e :: e in m ==> e.id in w && e.key >= w[e.id] - total + 1
    ensures TotalKey(m) >= TotalWeight(m, w) - |m| * (total - 1)
  {
    if m == [] {
    } else {
      KeysAbove(m[1..], w, total);
      OneMore(|m| - 1, total - 1);
    }
  }

  lemma OneMore(n: int, d: int)
    ensures (n + 1) * d == n * d + d
  {
  }

  lemma {:induction false} KeyBelow(m: seq<Entry>, w: map<nat, nat>, total: nat, e: Entry)
    requires total > 0 && e in m
    requires forall x :: x in m ==> x.id in w && x.key >= w[x.id] - total + 1
    ensures TotalKey(m) - e.key >= TotalWeight(m, w) - w[e.id] - (|m| - 1) * (total - 1)
  {
    if e == m[0] {
      KeysAbove(m[1..], w, total);
    } else {
      KeyBelow(m[1..], w, total, e);
      OneMore(|m| - 2, total - 1);
    }
  }

  /** Both bounds on the current weight of every endpoint, after any number of rounds. */
  lemma CurrentWeightBounds(m: seq<Entry>, w: map<nat, nat>, total: nat, k: nat, id: nat)
    requires Balanced(m, w, total, w)
    requires id in w
    ensures var cur := Current(m, w, total, k)[id];
            w[id] - total + 1 <= cur <= w[id] + (|m| - 1) * (total - 1)
  {
    hide Run, Current;
    RunBalanced(m, w, total, k);
    EntryBounds(Run(m, w, total, k).state, w, total, Current(m, w, total, k), id);
  }

  lemma EntryBounds(m: seq<Entry>, w: map<nat, nat>, total: nat, cur: map<nat, int>, id: nat)
    requires Balanced(m, w, total, cur) && id in w
    ensures w[id] - total + 1 <= cur[id] <= w[id] + (|m| - 1) * (total - 1)
  {
    IdsCovered(m, w);
    var e :| e in m && e.id == id;
    KeyBelow(m, w, total, e);
  }

  /** In every prefix of `k` rounds an endpoint is less than one turn ahead of its exact share,
      and less than `|m| - 1` turns behind it. */
  lemma PrefixFairness(m: seq<Entry>, w: map<nat, nat>, total: nat, k: nat, n: nat, id: nat)
    requires Balanced(m, w, total, w)
    requires k <= n && id in w
    ensures var served := multiset(Run(m, w, total, n).picks[..k])[id];
            && served * total < k * w[id] + total
            && k * w[id] - served * total <= (|m| - 1) * (total - 1)
  {
    RunPrefix(m, w, total, k, n);
    CurrentWeightBounds(m, w, total, k, id);
    CreditsMinusTurns(m, w, total, k, id);
    var served := multiset(Run(m, w, total, k).picks)[id];
    assert (k + 1) * w[id] == k * w[id] + w[id];
    assert total * served == served * total;
  }
}
