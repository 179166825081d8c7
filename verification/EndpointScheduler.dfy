/** The imperative table builders of EndpointManager and the machine arithmetic of their keys. */
module EndpointScheduler {
  import opened Basics
  import opened WeightedRouter
  import opened RouterTable

  // ----- Endpoints of positive weight -----

  function PositiveIndex(ws: seq<int>): (idx: seq<nat>)
    ensures forall j :: 0 <= j < |idx| ==> idx[j] < |ws| && ws[idx[j]] > 0
    ensures NoDuplicates(idx)
  {
    var n := |ws| - 1;
    if ws == [] then []
    else if ws[n] > 0 then PositiveIndex(ws[..n]) + [n]
    else PositiveIndex(ws[..n])
  }

  /** Every position of positive weight is there. */
  lemma {:induction false} PositiveListed(ws: seq<int>, i: nat)
    requires i < |ws| && ws[i] > 0
    ensures i in PositiveIndex(ws)
  {
    var n := |ws| - 1;
    if i < n {
      PositiveListed(ws[..n], i);
    }
  }

  /** The positions are in ascending order. */
  lemma {:induction false} PositiveAscends(ws: seq<int>, j: nat, k: nat)
    requires j < k < |PositiveIndex(ws)|
    ensures PositiveIndex(ws)[j] < PositiveIndex(ws)[k]
  {
    var n := |ws| - 1;
    if k < |PositiveIndex(ws[..n])| {
      PositiveAscends(ws[..n], j, k);
    }
  }

  function WeightsAt(ws: seq<int>, idx: seq<nat>): (r: seq<nat>)
    requires forall j :: 0 <= j < |idx| ==> idx[j] < |ws| && ws[idx[j]] > 0
    ensures |r| == |idx|
  {
    seq(|idx|, j requires 0 <= j < |idx| => ws[idx[j]])
  }

  function HashTable(ws: seq<int>): (t: seq<nat>) {
    var idx := PositiveIndex(ws);
    if idx == [] then [] else Table(Scaled(WeightsAt(ws, idx)), idx)
  }

  /** The two builders simulate each other: the hash table is the table that
      dispatchEndpointCache builds from the positive weights, renamed by their positions. */
  lemma BuildersSimulate(ws: seq<int>)
    requires PositiveIndex(ws) != []
    ensures HashTable(ws) == Image(DispatchTable(WeightsAt(ws, PositiveIndex(ws))), PositiveIndex(ws))
  {
    var idx := PositiveIndex(ws);
    TableOfRenamed(Scaled(WeightsAt(ws, idx)), idx);
  }

  /** `lo` and `hi` are the lightest and the heaviest of the positive weights. */
  ghost predicate PositiveExtremes(ws: seq<int>, lo: nat, hi: nat) {
    0 < lo && lo in ws && hi in ws && forall x :: x in ws && x > 0 ==> lo <= x <= hi
  }

  lemma FilteredExtremes(ws: seq<int>, lo: nat, hi: nat)
    requires PositiveExtremes(ws, lo, hi)
    ensures PositiveIndex(ws) != [] && Extremes(WeightsAt(ws, PositiveIndex(ws)), lo, hi)
  {
    WeightKept(ws, lo);
    WeightKept(ws, hi);
    var idx := PositiveIndex(ws);
    forall x | x in WeightsAt(ws, idx) ensures lo <= x <= hi {
      var j :| 0 <= j < |idx| && WeightsAt(ws, idx)[j] == x;
      assert ws[idx[j]] in ws;
    }
  }

  lemma WeightKept(ws: seq<int>, x: nat)
    requires x in ws && x > 0
    ensures x in WeightsAt(ws, PositiveIndex(ws))
  {
    var i :| 0 <= i < |ws| && ws[i] == x;
    var j := PositionOf(ws, i);
    assert WeightsAt(ws, PositiveIndex(ws))[j] == x;
  }

  lemma PositionOf(ws: seq<int>, i: nat) returns (j: nat)
    requires i < |ws| && ws[i] > 0
    ensures j < |PositiveIndex(ws)| && PositiveIndex(ws)[j] == i
  {
    PositiveListed(ws, i);
    j :| 0 <= j < |PositiveIndex(ws)| && PositiveIndex(ws)[j] == i;
  }

  /** What the hash table gives each endpoint, in terms of the weights alone: its share of the range, at least one
      place, for a positive weight, and none for any other. */
  lemma HashShares(ws: seq<int>, lo: nat, hi: nat) returns (r: nat)
    requires PositiveExtremes(ws, lo, hi)
    ensures Spread(r, lo, hi)
    ensures forall i :: 0 <= i < |ws| ==>
              var n := multiset(HashTable(ws))[i]; if ws[i] > 0 then Appears(n, ws[i], r, hi) else n == 0
  {
    FilteredExtremes(ws, lo, hi);
    r := ScaledShares(WeightsAt(ws, PositiveIndex(ws)), lo, hi);
    forall i: nat | i < |ws|
      ensures var n := multiset(HashTable(ws))[i]; if ws[i] > 0 then Appears(n, ws[i], r, hi) else n == 0
    {
      HashShare(ws, r, hi, i);
    }
  }

  lemma HashShare(ws: seq<int>, r: nat, hi: nat, i: nat)
    requires i < |ws| && PositiveIndex(ws) != []
    requires var fs := WeightsAt(ws, PositiveIndex(ws)); forall j :: 0 <= j < |fs| ==> Share(Scaled(fs)[j], fs[j], r, hi)
    ensures var n := multiset(HashTable(ws))[i]; if ws[i] > 0 then Appears(n, ws[i], r, hi) else n == 0
  {
    hide Scaled, Table, Share, Appears, PositiveIndex;
    var idx := PositiveIndex(ws);
    var fs := WeightsAt(ws, idx);
    TableCounts(Scaled(fs), idx);
    assert i in idx ==> ws[i] > 0 by {
      if i in idx {
        var j :| 0 <= j < |idx| && idx[j] == i;
      }
    }
    if ws[i] > 0 {
      var j := PositionOf(ws, i);
      ShareAppears(Scaled(fs)[j], fs[j], r, hi);
    }
  }

  /** Without a positive weight the hash table is empty. */
  lemma HashTableEmpty(ws: seq<int>)
    requires forall i :: 0 <= i < |ws| ==> ws[i] <= 0
    ensures HashTable(ws) == []
  {
    var idx := PositiveIndex(ws);
    assert forall j :: 0 <= j < |idx| ==> ws[idx[j]] > 0;
  }

  class EndpointManager {
    var staticRouterCache: seq<nat>
    var lastSWeightPosition: nat
    var hashStaticRouterCache: seq<nat>
    var lastHashStaticProxys: seq<nat>
    var regProxys: seq<nat>
    var regWeights: seq<int>  // the weights of regProxys
    var weightChanged: set<nat>

    /** Smallest and largest weight of a non-empty list. */
    static method WeightRange(ws: seq<nat>) returns (lo: nat, hi: nat)
      requires ws != []
      ensures lo == Minimum(ws) && hi == Maximum(ws)
    {
      lo, hi := ws[0], ws[0];
      assert ws[..1] == [ws[0]];
      for i := 1 to |ws|
        invariant lo == Minimum(ws[..i]) && hi == Maximum(ws[..i])
      {
        assert ws[..i + 1][..i] == ws[..i];
        if ws[i] > hi { hi := ws[i]; }
        if ws[i] < lo { lo := ws[i]; }
      }
      assert ws[..|ws|] == ws;
    }

    /** Scales every weight and fills the multimap, the weight map and the head of the table. */
    static method LoadRouter(ws: seq<nat>, labels: seq<nat>)
      returns (w: map<nat, nat>, m: seq<Entry>, total: nat, table: seq<nat>)
      requires ws != [] && |labels| == |ws|
      ensures Router(w, m, total, table) == Load(Scaled(ws), labels)
    {
      hide Insert;
      var lo, hi := WeightRange(ws);
      w, m, total, table := map[], [], 0, [];
      ghost var sw := Scaled(ws);
      for i := 0 to |ws|
        invariant Router(w, m, total, table) == Load(sw[..i], labels[..i])
      {
        assert sw[..i + 1][..i] == sw[..i] && labels[..i + 1][..i] == labels[..i];
        var iWeight := ScaleOne(ws[i], lo, hi);
        if iWeight > 0 {
          total := total + iWeight;
          w := w[labels[i] := iWeight];
          m := Insert(m, Entry(iWeight, labels[i]));
        } else {
          table := table + [labels[i]];
        }
      }
      assert sw[..|ws|] == sw && labels[..|ws|] == labels;
    }

    /** One pass over the multimap in reverse order. */
    static method ServeOne(w: map<nat, nat>, m: seq<Entry>, total: nat) returns (pick: nat, mulTemp: seq<Entry>)
      requires m != [] && forall e :: e in m ==> e.id in w
      ensures pick == Picked(m) && mulTemp == Round(m, w, total)
    {
      var bFirst, i := true, |m|;
      pick, mulTemp := 0, [];
      while i > 0
        invariant 0 <= i <= |m|
        invariant bFirst <==> i == |m|
        invariant !bFirst ==> pick == Picked(m) && Reinsert(m[..i], w, mulTemp) == Round(m, w, total)
        invariant bFirst ==> mulTemp == []
      {
        i := i - 1;
        assert m[i] in m;
        if bFirst {
          bFirst := false;
          pick := m[i].id;
          mulTemp := [Entry(m[i].key - total + w[m[i].id], m[i].id)];
        } else {
          assert m[..i + 1][..i] == m[..i];
          mulTemp := Insert(mulTemp, Entry(m[i].key + w[m[i].id], m[i].id));
        }
      }
    }

    /** As many rounds as the total weight, appended to the table. */
    static method ServeAll(w: map<nat, nat>, m0: seq<Entry>, total: nat, table0: seq<nat>) returns (table: seq<nat>)
      requires multiset(Ids(m0)) == multiset(w.Keys)
      requires m0 == [] <==> total == 0
      ensures table == Emit(Router(w, m0, total, table0))
    {
      hide Round, Insert;
      var m := m0;
      table := table0;
      for i := 0 to total
        invariant m0 == [] ==> total == 0
        invariant total > 0 ==> m == Run(m0, w, total, i).state && table == table0 + Run(m0, w, total, i).picks
        invariant total == 0 ==> table == table0
      {
        IdsCovered(m, w);
        var pick, mulTemp := ServeOne(w, m, total);
        table := table + [pick];
        m := mulTemp;
      }
    }

    method DispatchEndpointCache(vWeight: seq<nat>)
      modifies this`staticRouterCache, this`lastSWeightPosition
      ensures vWeight == [] ==> staticRouterCache == old(staticRouterCache) && lastSWeightPosition == old(lastSWeightPosition)
      ensures vWeight != [] ==> staticRouterCache == DispatchTable(vWeight) && lastSWeightPosition == 0
    {
      if |vWeight| <= 0 {
        return;
      }
      lastSWeightPosition := 0;
      var labels := UpTo(|vWeight|);
      var w, m, total, table := LoadRouter(vWeight, labels);
      LoadFacts(Scaled(vWeight), labels);
      staticRouterCache := ServeAll(w, m, total, table);
    }

    /** The filter loop: positions of positive weight, and every change flag cleared on the way. */
    method PositiveProxys() returns (vIndex: seq<nat>)
      requires |regWeights| == |regProxys|
      modifies this`weightChanged
      ensures vIndex == PositiveIndex(regWeights)
      ensures weightChanged == old(weightChanged) - Members(regProxys)
    {
      vIndex := [];
      for i := 0 to |regWeights|
        invariant vIndex == PositiveIndex(regWeights[..i])
        invariant weightChanged == old(weightChanged) - Members(regProxys[..i])
      {
        assert regWeights[..i + 1][..i] == regWeights[..i];
        MembersGrow(regProxys, i);
        if regWeights[i] > 0 {
          vIndex := vIndex + [i];
        }
        weightChanged := weightChanged - {regProxys[i]};
      }
      assert regWeights[..|regWeights|] == regWeights;
      assert regProxys[..|regProxys|] == regProxys;
    }

    /** The table follows the weights it was built from, remembers the proxies and clears their
        change flags; the flags are cleared without bStatic too. */
    method UpdateHashProxyWeighted(bStatic: bool)
      requires |regWeights| == |regProxys|
      modifies this`hashStaticRouterCache, this`lastHashStaticProxys, this`weightChanged
      ensures hashStaticRouterCache ==
              if bStatic && regWeights != [] then HashTable(regWeights) else old(hashStaticRouterCache)
      ensures lastHashStaticProxys == if bStatic && regProxys != [] then regProxys else old(lastHashStaticProxys)
      ensures weightChanged == old(weightChanged) - Members(regProxys)
    {
      if |regWeights| <= 0 {
        return;
      }
      if bStatic {
        lastHashStaticProxys := regProxys;
        hashStaticRouterCache := [];
      }
      var vIndex := PositiveProxys();
      if |vIndex| <= 0 {
        return;
      }
      var weights := WeightsAt(regWeights, vIndex);
      var w, m, total, table := LoadRouter(weights, vIndex);
      LoadFacts(Scaled(weights), vIndex);
      table := ServeAll(w, m, total, table);
      if bStatic {
        hashStaticRouterCache := table;
      }
    }
  }

  // ----- Keys in machine arithmetic -----

  const TWO_31: int := 0x8000_0000
  const TWO_32: int := 0x1_0000_0000
  const TWO_64: int := 0x1_0000_0000_0000_0000

  /** Conversion to a 32-bit int, modulo 2^32. */
  function ToInt32(x: int): (r: int)
    ensures -TWO_31 <= x < TWO_31 ==> r == x
    ensures -TWO_31 <= r < TWO_31
  {
    (x + TWO_31) % TWO_32 - TWO_31
  }

  /** int - size_t + int is computed modulo 2^64 before it is narrowed into the map key. */
  function PickedKey(key: int, total: nat, wi: nat): (r: int)
    ensures -TWO_31 <= key - total + wi < TWO_31 ==> r == key - total + wi
    ensures -TWO_31 <= r < TWO_31
  {
    var x := key - total + wi;
    assert -TWO_31 <= x < TWO_31 ==> x % TWO_64 == if x < 0 then x + TWO_64 else x;
    ToInt32(x % TWO_64)
  }

  /** Narrowing keeps the value modulo 2^32, also where it does not fit. */
  lemma NarrowedKey(key: int, total: nat, wi: nat, x: int)
    ensures (ToInt32(x) - x) % TWO_32 == 0
    ensures (PickedKey(key, total, wi) - (key - total + wi)) % TWO_32 == 0
  {
    WholeTurns(x + TWO_31, TWO_32);
    var y := key - total + wi;
    WholeTurns(y % TWO_64 + TWO_31, TWO_32);
    WholeTurns(y, TWO_64);
    var a, b := (y % TWO_64 + TWO_31) / TWO_32, y / TWO_64;
    assert PickedKey(key, total, wi) - y == TWO_32 * (-a - TWO_32 * b);
  }

  lemma WholeTurns(x: int, m: int)
    requires m > 0
    ensures x % m == x - m * (x / m)
  {
  }

  function MachineReinsert(m: seq<Entry>, w: map<nat, nat>, acc: seq<Entry>): (r: seq<Entry>)
    requires forall e :: e in m ==> e.id in w
    decreases |m|
  {
    if m == [] then acc
    else
      var n := |m| - 1;
      MachineReinsert(m[..n], w, Insert(acc, Entry(ToInt32(m[n].key + w[m[n].id]), m[n].id)))
  }

  function MachineRound(m: seq<Entry>, w: map<nat, nat>, total: nat): (r: seq<Entry>)
    requires m != []
    requires forall e :: e in m ==> e.id in w
  {
    var last := m[|m| - 1];
    MachineReinsert(m[..|m| - 1], w, [Entry(PickedKey(last.key, total, w[last.id]), last.id)])
  }

  ghost predicate Fits(x: int) { -TWO_31 <= x < TWO_31 }

  lemma {:induction false} MachineReinsertExact(m: seq<Entry>, w: map<nat, nat>, acc: seq<Entry>)
    requires forall e :: e in m ==> e.id in w && Fits(e.key + w[e.id])
    ensures MachineReinsert(m, w, acc) == Reinsert(m, w, acc)
    decreases |m|
  {
    if m == [] {
    } else {
      var n := |m| - 1;
      assert m[n] in m;
      MachineReinsertExact(m[..n], w, Insert(acc, Entry(m[n].key + w[m[n].id], m[n].id)));
    }
  }

  lemma {:induction false} TotalWeightBound(m: seq<Entry>, w: map<nat, nat>, r: nat)
    requires forall e :: e in m ==> e.id in w && w[e.id] <= r
    ensures TotalWeight(m, w) <= |m| * r
  {
    if m == [] {
    } else {
      TotalWeightBound(m[1..], w, r);
      assert |m| * r == (|m| - 1) * r + r;
    }
  }

  lemma TimesMonotone(a: nat, b: int, c: int)
    requires b <= c
    ensures a * b <= a * c
  {
  }

  lemma Expand(n: int, x: int)
    ensures (n - 1) * (x - 1) == n * x - x - n + 1
  {
  }

  lemma KeyRange(n: nat, r: nat, total: nat, wi: nat, cur: int)
    requires n > 0 && n * n * r < TWO_31 && wi <= r && 0 < total <= n * r
    requires wi - total + 1 <= cur <= wi + (n - 1) * (total - 1)
    ensures Fits(cur)
  {
    var nr := n * r;
    assert n * n * r == n * nr;
    TimesMonotone(n - 1, total - 1, nr - 1);
    Expand(n, nr);
    TimesMonotone(r, 1, n);
    TimesMonotone(nr, 1, n);
  }

  lemma CurrentFits(m: seq<Entry>, w: map<nat, nat>, total: nat, r: nat, k: nat, id: nat)
    requires Balanced(m, w, total, w)
    requires forall x :: x in w ==> w[x] <= r
    requires |m| * |m| * r < TWO_31
    requires id in w
    ensures Fits(Current(m, w, total, k)[id])
  {
    TotalWeightBound(m, w, r);
    CurrentWeightBounds(m, w, total, k, id);
    KeyRange(|m|, r, total, w[id], Current(m, w, total, k)[id]);
  }

  lemma {:induction false} MachineKeysFit(m: seq<Entry>, w: map<nat, nat>, acc: seq<Entry>)
    requires forall e :: e in m ==> e.id in w
    requires forall e :: e in acc ==> Fits(e.key)
    ensures forall e :: e in MachineReinsert(m, w, acc) ==> Fits(e.key)
    decreases |m|
  {
    if m == [] {
    } else {
      var n := |m| - 1;
      MachineKeysFit(m[..n], w, Insert(acc, Entry(ToInt32(m[n].key + w[m[n].id]), m[n].id)));
    }
  }

  lemma MachineRoundIfFits(s: seq<Entry>, w: map<nat, nat>, total: nat, cur: map<nat, int>)
    requires Balanced(s, w, total, cur)
    requires forall id :: id in w ==> Fits(Advance(cur, w, total, Picked(s))[id])
    ensures MachineRound(s, w, total) == Round(s, w, total)
  {
    var n := |s| - 1;
    forall e | e in s[..n] ensures e.id in w && Fits(e.key + w[e.id]) {
      var i :| 0 <= i < n && s[i] == e;
      IdsDistinct(s, w, i, n);
    }
    assert s[n] in s && Fits(Charged(s, w, total).key);
    MachineReinsertExact(s[..n], w, [Charged(s, w, total)]);
  }

  lemma MachineRoundFits(s: seq<Entry>, w: map<nat, nat>, total: nat)
    requires s != [] && forall e :: e in s ==> e.id in w
    ensures forall e :: e in MachineRound(s, w, total) ==> Fits(e.key)
  {
    var n := |s| - 1;
    assert s[n] in s;
    MachineKeysFit(s[..n], w, [Entry(PickedKey(s[n].key, total, w[s[n].id]), s[n].id)]);
  }

  lemma RoundKeysAll(s: seq<Entry>, w: map<nat, nat>, total: nat, cur: map<nat, int>)
    requires Balanced(s, w, total, cur)
    ensures forall id :: id in w ==>
              exists e :: e in Round(s, w, total) && e.key == Advance(cur, w, total, Picked(s))[id]
  {
    RoundKeys(s, w, total, cur);
    RoundIds(s, w, total);
    IdsCovered(Round(s, w, total), w);
    forall id | id in w
      ensures exists e :: e in Round(s, w, total) && e.key == Advance(cur, w, total, Picked(s))[id]
    {
      var e :| e in Round(s, w, total) && e.id == id;
      assert e.key == Advance(cur, w, total, Picked(s))[id];
    }
  }

  /** A round with narrowed keys is the mathematical round if and only if every new current weight
      fits the key type. */
  lemma MachineRoundIffFits(s: seq<Entry>, w: map<nat, nat>, total: nat, cur: map<nat, int>)
    requires Balanced(s, w, total, cur)
    ensures MachineRound(s, w, total) == Round(s, w, total)
            <==> forall id :: id in w ==> Fits(Advance(cur, w, total, Picked(s))[id])
  {
    var next := Advance(cur, w, total, Picked(s));
    if forall id :: id in w ==> Fits(next[id]) {
      MachineRoundIfFits(s, w, total, cur);
    }
    if MachineRound(s, w, total) == Round(s, w, total) {
      MachineRoundFits(s, w, total);
      RoundKeysAll(s, w, total, cur);
    }
  }

  /** In every round the narrowed keys are the mathematical current weights, as long as the square
      of the number of endpoints times the largest scaled weight stays below 2^31. */
  lemma MachineRoundExact(m: seq<Entry>, w: map<nat, nat>, total: nat, r: nat, k: nat)
    requires Balanced(m, w, total, w)
    requires forall x :: x in w ==> w[x] <= r
    requires |m| * |m| * r < TWO_31
    ensures var s := Run(m, w, total, k).state;
            && (forall e :: e in s ==> e.id in w)
            && MachineRound(s, w, total) == Run(m, w, total, k + 1).state
  {
    RunBalanced(m, w, total, k);
    forall id | id in w ensures Fits(Current(m, w, total, k + 1)[id]) {
      CurrentFits(m, w, total, r, k + 1, id);
    }
    MachineRoundIfFits(Run(m, w, total, k).state, w, total, Current(m, w, total, k));
  }
}
