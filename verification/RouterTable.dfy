/** The two router tables of EndpointManager: dispatchEndpointCache builds one over the active
    endpoints, updateHashProxyWeighted builds one over the registered endpoints of positive weight. */
module RouterTable {
  import opened Basics
  import opened WeightedRouter

  // ----- Scaling of the configured weights -----

  function Maximum(ws: seq<nat>): (r: nat)
    requires ws != []
    ensures r in ws && forall i :: 0 <= i < |ws| ==> ws[i] <= r
  {
    var n := |ws| - 1;
    if n == 0 then ws[0] else
    var r := Maximum(ws[..n]);
    assert forall i :: 0 <= i < n ==> ws[i] == ws[..n][i];
    if ws[n] > r then ws[n] else r
  }

  function Minimum(ws: seq<nat>): (r: nat)
    requires ws != []
    ensures r in ws && forall i :: 0 <= i < |ws| ==> r <= ws[i]
  {
    var n := |ws| - 1;
    if n == 0 then ws[0] else
    var r := Minimum(ws[..n]);
    assert forall i :: 0 <= i < n ==> ws[i] == ws[..n][i];
    if ws[n] < r then ws[n] else r
  }

  /** iMaxR: the scaled weight of the heaviest endpoint. */
  function Range(lo: nat, hi: nat): (r: nat)
    ensures 0 < lo ==> MIN_WEIGHT_LIMIT <= r <= MAX_WEIGHT_LIMIT
    ensures r > 0
  {
    if lo == 0 then 1
    else if hi / lo < MIN_WEIGHT_LIMIT then MIN_WEIGHT_LIMIT
    else if hi / lo > MAX_WEIGHT_LIMIT then MAX_WEIGHT_LIMIT
    else hi / lo
  }

  function ScaleOne(wi: nat, lo: nat, hi: nat): (r: nat)
    requires lo <= hi
  {
    var product: nat := wi * Range(lo, hi);
    var divisor := if lo > 0 then hi else 1;
    product / divisor
  }

  function Scaled(ws: seq<nat>): (sw: seq<nat>)
    requires ws != []
    ensures |sw| == |ws|
  {
    seq(|ws|, i requires 0 <= i < |ws| => ScaleOne(ws[i], Minimum(ws), Maximum(ws)))
  }

  lemma QuotientBound(a: nat, r: nat, b: nat)
    requires a <= b && b > 0
    ensures a * r / b <= r
    ensures a == b ==> a * r / b == r
  {
    assert a * r <= b * r;
    assert b * r / b == r;
    assert a * r / b <= b * r / b;
  }

  /** Positive weights are mapped into [0, iMaxR] and a heaviest endpoint is mapped to iMaxR. */
  lemma ScaledBounds(ws: seq<nat>)
    requires ws != [] && forall i :: 0 <= i < |ws| ==> ws[i] > 0
    ensures var r := Range(Minimum(ws), Maximum(ws));
            && MIN_WEIGHT_LIMIT <= r <= MAX_WEIGHT_LIMIT
            && (forall i :: 0 <= i < |ws| ==> Scaled(ws)[i] <= r)
            && r in Scaled(ws)
  {
    var lo, hi := Minimum(ws), Maximum(ws);
    var r := Range(lo, hi);
    forall i | 0 <= i < |ws| ensures Scaled(ws)[i] <= r && (ws[i] == hi ==> Scaled(ws)[i] == r) {
      QuotientBound(ws[i], r, hi);
    }
    var i :| 0 <= i < |ws| && ws[i] == hi;
    assert Scaled(ws)[i] == r;
  }

  /** `r` is the whole quotient of the heaviest weight by the lightest, kept within the two limits. */
  ghost predicate Spread(r: nat, lo: nat, hi: nat) {
    if hi < MIN_WEIGHT_LIMIT * lo then r == MIN_WEIGHT_LIMIT
    else if hi >= (MAX_WEIGHT_LIMIT + 1) * lo then r == MAX_WEIGHT_LIMIT
    else r * lo <= hi < (r + 1) * lo
  }

  /** `lo` and `hi` are the lightest and the heaviest of the weights. */
  ghost predicate Extremes(ws: seq<nat>, lo: nat, hi: nat) {
    lo in ws && hi in ws && forall x :: x in ws ==> lo <= x <= hi
  }

  /** `s` is the whole part of `w * r / hi`. */
  ghost predicate Share(s: nat, w: nat, r: nat, hi: nat) {
    s * hi <= w * r < (s + 1) * hi
  }

  lemma Divides(a: nat, d: nat)
    requires d > 0
    ensures a / d * d <= a < (a / d + 1) * d
  {
    assert a == a / d * d + a % d;
    assert (a / d + 1) * d == a / d * d + d;
  }

  lemma QuotientFrom(a: nat, d: nat, k: nat)
    requires d > 0
    ensures a / d >= k <==> a >= k * d
  {
    Divides(a, d);
    if a / d >= k {
      assert a / d * d >= k * d;
    } else {
      assert (a / d + 1) * d <= k * d;
    }
  }

  lemma RangeSpreads(lo: nat, hi: nat)
    requires 0 < lo <= hi
    ensures Spread(Range(lo, hi), lo, hi)
  {
    QuotientFrom(hi, lo, MIN_WEIGHT_LIMIT);
    QuotientFrom(hi, lo, MAX_WEIGHT_LIMIT + 1);
    Divides(hi, lo);
  }

  lemma ExtremesAre(ws: seq<nat>, lo: nat, hi: nat)
    requires ws != [] && Extremes(ws, lo, hi)
    ensures lo == Minimum(ws) && hi == Maximum(ws)
  {
    assert Minimum(ws) in ws && Maximum(ws) in ws;
  }

  lemma OneShare(w: nat, lo: nat, hi: nat)
    requires 0 < lo <= hi
    ensures Share(ScaleOne(w, lo, hi), w, Range(lo, hi), hi)
  {
    hide Range;
    Divides(w * Range(lo, hi), hi);
  }

  /** Positive weights are scaled to their share of the range: the heaviest to all of it, every other in
      proportion, rounded down. */
  lemma ScaledShares(ws: seq<nat>, lo: nat, hi: nat) returns (r: nat)
    requires ws != [] && Extremes(ws, lo, hi) && lo > 0
    ensures Spread(r, lo, hi)
    ensures forall i :: 0 <= i < |ws| ==> Share(Scaled(ws)[i], ws[i], r, hi)
  {
    hide Share, Spread, ScaleOne, Range;
    ExtremesAre(ws, lo, hi);
    r := Range(lo, hi);
    RangeSpreads(lo, hi);
    forall i | 0 <= i < |ws| ensures Share(Scaled(ws)[i], ws[i], r, hi) {
      OneShare(ws[i], lo, hi);
    }
  }

  /** With a zero among them the weights are taken as they are. */
  lemma ZeroKeepsWeights(ws: seq<nat>)
    requires 0 in ws
    ensures Scaled(ws) == ws
  {
    assert Minimum(ws) == 0;
  }

  // ----- Loading the multimap and running the rounds -----

  datatype Router = Router(w: map<nat, nat>, m: seq<Entry>, total: nat, table: seq<nat>)

  /** An endpoint of positive scaled weight enters the multimap; the others go to the table once. */
  function LoadOne(r: Router, wi: nat, id: nat): (r': Router) {
    if wi > 0 then Router(r.w[id := wi], Insert(r.m, Entry(wi, id)), r.total + wi, r.table)
    else r.(table := r.table + [id])
  }

  function Load(sw: seq<nat>, labels: seq<nat>): (r: Router)
    requires |labels| == |sw|
  {
    var n := |sw| - 1;
    if sw == [] then Router(map[], [], 0, [])
    else LoadOne(Load(sw[..n], labels[..n]), sw[n], labels[n])
  }

  lemma {:induction false} WeightFrame(m: seq<Entry>, w: map<nat, nat>, w': map<nat, nat>)
    requires forall e :: e in m ==> e.id in w && e.id in w' && w[e.id] == w'[e.id]
    ensures TotalWeight(m, w) == TotalWeight(m, w')
  {
    if m == [] {
    } else {
      WeightFrame(m[1..], w, w');
    }
  }

  ghost predicate Loaded(r: Router) {
    && Sorted(r.m)
    && multiset(Ids(r.m)) == multiset(r.w.Keys)
    && (forall e :: e in r.m ==> e.id in r.w)
    && KeysAre(r.m, r.w)
    && TotalKey(r.m) == r.total && TotalWeight(r.m, r.w) == r.total
    && (r.m == [] <==> r.total == 0)
  }

  lemma LoadOneFacts(r: Router, wi: nat, id: nat)
    requires Loaded(r) && id !in r.w
    ensures Loaded(LoadOne(r, wi, id))
  {
    if wi > 0 {
      var w' := r.w[id := wi];
      WeightFrame(r.m, r.w, w');
      InsertTotals(r.m, Entry(wi, id), w');
      InsertIds(r.m, Entry(wi, id));
      InsertSorted(r.m, Entry(wi, id));
      assert w'.Keys == r.w.Keys + {id};
    }
  }

  /** How often the loader and then the rounds must serve an endpoint of scaled weight `wi`. */
  function Turns(wi: nat): (n: nat) {
    if wi == 0 then 1 else wi
  }

  /** Endpoint `id` waits in the multimap with weight `wi`, or is already in the table once. */
  ghost predicate Placed(r: Router, wi: nat, id: nat) {
    if wi > 0 then id in r.w && r.w[id] == wi && multiset(r.table)[id] == 0
    else id !in r.w && multiset(r.table)[id] == 1
  }

  /** The first endpoints are all placed, and nobody else is. */
  ghost predicate AllPlaced(r: Router, sw: seq<nat>, labels: seq<nat>)
    requires |labels| == |sw|
  {
    && (forall i :: 0 <= i < |sw| ==> Placed(r, sw[i], labels[i]))
    && (forall x :: x !in labels ==> x !in r.w && multiset(r.table)[x] == 0)
  }

  lemma {:induction false} LoadFacts(sw: seq<nat>, labels: seq<nat>)
    requires |labels| == |sw| && NoDuplicates(labels)
    ensures Loaded(Load(sw, labels)) && AllPlaced(Load(sw, labels), sw, labels)
  {
    var n := |sw| - 1;
    if n >= 0 {
      LastIsNew(labels);
      LoadFacts(sw[..n], labels[..n]);
      var r := Load(sw[..n], labels[..n]);
      LoadOneFacts(r, sw[n], labels[n]);
      LoadStep(r, sw, labels);
    }
  }

  lemma LoadStep(r: Router, sw: seq<nat>, labels: seq<nat>)
    requires |labels| == |sw| > 0 && NoDuplicates(labels)
    requires AllPlaced(r, sw[..|sw| - 1], labels[..|sw| - 1])
    ensures AllPlaced(LoadOne(r, sw[|sw| - 1], labels[|sw| - 1]), sw, labels)
  {
    var n := |sw| - 1;
    LastIsNew(labels);
    LoadOnePlaces(r, sw[n], labels[n]);
    forall i | 0 <= i < n ensures Placed(LoadOne(r, sw[n], labels[n]), sw[i], labels[i]) {
      assert Placed(r, sw[..n][i], labels[..n][i]) && labels[i] != labels[n];
    }
  }

  lemma LastIsNew(labels: seq<nat>)
    requires NoDuplicates(labels) && labels != []
    ensures var n := |labels| - 1;
            NoDuplicates(labels[..n]) && labels[n] !in labels[..n]
            && forall x :: x !in labels ==> x !in labels[..n] && x != labels[n]
  {
    var n := |labels| - 1;
    assert labels[n] in labels;
  }

  /** Loading an endpoint gives it its place and leaves every other where it was. */
  lemma LoadOnePlaces(r: Router, wi: nat, id: nat)
    requires id !in r.w && multiset(r.table)[id] == 0
    ensures Placed(LoadOne(r, wi, id), wi, id)
    ensures forall x, wx :: x != id && Placed(r, wx, x) ==> Placed(LoadOne(r, wi, id), wx, x)
    ensures forall x :: x != id && x !in r.w ==> x !in LoadOne(r, wi, id).w
    ensures forall x :: x != id ==> multiset(LoadOne(r, wi, id).table)[x] == multiset(r.table)[x]
  {
  }

  lemma LoadedIsBalanced(r: Router)
    requires Loaded(r) && r.m != []
    ensures Balanced(r.m, r.w, r.total, r.w)
  {
  }

  /** The entries loaded outside the multimap, then one full turn of rounds. */
  function Emit(r: Router): (t: seq<nat>)
    requires multiset(Ids(r.m)) == multiset(r.w.Keys)
  {
    if r.m == [] then r.table else r.table + Run(r.m, r.w, r.total, r.total).picks
  }

  /** The router table over arbitrary distinct endpoint ids. */
  function Table(sw: seq<nat>, labels: seq<nat>): (t: seq<nat>)
    requires |labels| == |sw| && NoDuplicates(labels)
  {
    LoadFacts(sw, labels);
    Emit(Load(sw, labels))
  }

  lemma {:induction false} PicksAreIds(m: seq<Entry>, w: map<nat, nat>, total: nat, k: nat)
    requires m != [] && multiset(Ids(m)) == multiset(w.Keys)
    ensures forall x :: x in Run(m, w, total, k).picks ==> x in w
    decreases k
  {
    if k == 0 {
    } else {
      PicksAreIds(m, w, total, k - 1);
      IdsCovered(Run(m, w, total, k - 1).state, w);
    }
  }

  /** The counting theorem for the table: every endpoint appears exactly its scaled weight times,
      exactly once when the scaled weight is zero, and nothing else appears. */
  lemma TableCounts(sw: seq<nat>, labels: seq<nat>)
    requires |labels| == |sw| && NoDuplicates(labels)
    ensures forall i :: 0 <= i < |sw| ==> multiset(Table(sw, labels))[labels[i]] == Turns(sw[i])
    ensures forall x :: x in Table(sw, labels) ==> x in labels
  {
    LoadFacts(sw, labels);
    var r := Load(sw, labels);
    var t := Table(sw, labels);
    var picks := [];
    if r.m == [] {
      IdsCovered(r.m, r.w);
      assert r.table + picks == r.table;
    } else {
      LoadedIsBalanced(r);
      ServedExactly(r.m, r.w, r.total);
      PicksAreIds(r.m, r.w, r.total, r.total);
      picks := Run(r.m, r.w, r.total, r.total).picks;
    }
    assert t == r.table + picks;
    forall i | 0 <= i < |sw| ensures multiset(t)[labels[i]] == Turns(sw[i]) {
      assert Placed(r, sw[i], labels[i]);
      assert labels[i] !in r.w ==> labels[i] !in picks;
    }
    forall x | x in t ensures x in labels {
      assert x in r.table || x in picks;
      assert x in multiset(r.table) || x in r.w;
    }
  }

  function DispatchTable(ws: seq<nat>): (t: seq<nat>)
    requires ws != []
  {
    Table(Scaled(ws), UpTo(|ws|))
  }

  /** dispatchEndpointCache on every non-empty weight list. */
  lemma DispatchTableCounts(ws: seq<nat>)
    requires ws != []
    ensures forall i :: 0 <= i < |ws| ==> multiset(DispatchTable(ws))[i] == Turns(Scaled(ws)[i])
    ensures forall x :: x in DispatchTable(ws) ==> x < |ws|
  {
    var ids := UpTo(|ws|);
    TableCounts(Scaled(ws), ids);
    forall i | 0 <= i < |ws| ensures multiset(DispatchTable(ws))[i] == Turns(Scaled(ws)[i]) {
      assert ids[i] == i;
    }
  }

  /** How often an endpoint of weight `w` is in the table: its share of the range, but at least once. */
  ghost predicate Appears(n: nat, w: nat, r: nat, hi: nat) {
    if w * r < hi then n == 1 else Share(n, w, r, hi)
  }

  lemma ShareAppears(s: nat, w: nat, r: nat, hi: nat)
    requires Share(s, w, r, hi)
    ensures Appears(Turns(s), w, r, hi)
  {
    if s > 0 { assert s * hi >= 1 * hi; }
  }

  /** What the table of dispatchEndpointCache gives each endpoint, in terms of the weights alone: in proportion to the
      heaviest when all weights are positive, and otherwise the weight itself, but always at least one place. */
  lemma DispatchShares(ws: seq<nat>, lo: nat, hi: nat) returns (r: nat)
    requires ws != [] && Extremes(ws, lo, hi)
    ensures lo > 0 ==> Spread(r, lo, hi)
    ensures forall i :: 0 <= i < |ws| ==>
              var n := multiset(DispatchTable(ws))[i];
              if lo > 0 then Appears(n, ws[i], r, hi) else n == if ws[i] == 0 then 1 else ws[i]
  {
    DispatchTableCounts(ws);
    if lo > 0 {
      r := ScaledShares(ws, lo, hi);
      forall i | 0 <= i < |ws| ensures Appears(multiset(DispatchTable(ws))[i], ws[i], r, hi) {
        ShareAppears(Scaled(ws)[i], ws[i], r, hi);
      }
    } else {
      r := 0;
      ZeroKeepsWeights(ws);
    }
  }

  // ----- The order of the table -----

  /** The endpoints scaled to nothing, in order. */
  function Idle(sw: seq<nat>, labels: seq<nat>): (t: seq<nat>)
    requires |labels| == |sw|
  {
    var n := |sw| - 1;
    if sw == [] then [] else Idle(sw[..n], labels[..n]) + if sw[n] == 0 then [labels[n]] else []
  }

  lemma {:induction false} LoadKeepsIdle(sw: seq<nat>, labels: seq<nat>)
    requires |labels| == |sw|
    ensures Load(sw, labels).table == Idle(sw, labels)
  {
    if sw == [] {
    } else {
      LoadKeepsIdle(sw[..|sw| - 1], labels[..|sw| - 1]);
    }
  }

  /** The table starts with the endpoints scaled to nothing, in order, and goes on with the picks of the rounds. */
  lemma IdleFirst(sw: seq<nat>, labels: seq<nat>)
    requires |labels| == |sw| && NoDuplicates(labels)
    ensures Idle(sw, labels) <= Table(sw, labels)
    ensures forall x :: x in Table(sw, labels)[|Idle(sw, labels)|..] ==> x !in Idle(sw, labels)
  {
    LoadKeepsIdle(sw, labels);
    LoadFacts(sw, labels);
    var r := Load(sw, labels);
    if r.m != [] {
      var picks := Run(r.m, r.w, r.total, r.total).picks;
      PicksAreIds(r.m, r.w, r.total, r.total);
      assert Table(sw, labels)[|r.table|..] == picks;
      forall x | x in picks ensures x !in r.table {
        IdleUnplaced(r, sw, labels, x);
      }
    }
  }

  lemma IdleUnplaced(r: Router, sw: seq<nat>, labels: seq<nat>, x: nat)
    requires |labels| == |sw| && AllPlaced(r, sw, labels) && x in r.w
    ensures x !in r.table
  {
    assert x in labels;
    var i :| 0 <= i < |labels| && labels[i] == x;
    assert Placed(r, sw[i], labels[i]);
  }

  // ----- Renaming the endpoints -----

  function NewId(id: nat, labels: seq<nat>): (r: nat) {
    if id < |labels| then labels[id] else id
  }

  function Renamed(e: Entry, labels: seq<nat>): (r: Entry) {
    Entry(e.key, NewId(e.id, labels))
  }

  function Rename(m: seq<Entry>, labels: seq<nat>): (r: seq<Entry>)
    ensures |r| == |m|
  {
    seq(|m|, i requires 0 <= i < |m| => Renamed(m[i], labels))
  }

  function Image(t: seq<nat>, labels: seq<nat>): (r: seq<nat>)
    ensures |r| == |t|
  {
    seq(|t|, i requires 0 <= i < |t| => NewId(t[i], labels))
  }

  lemma {:induction false} RenameInsert(m: seq<Entry>, e: Entry, labels: seq<nat>)
    ensures Insert(Rename(m, labels), Renamed(e, labels)) == Rename(Insert(m, e), labels)
  {
    if m != [] && e.key >= m[0].key {
      RenameInsert(m[1..], e, labels);
      assert Rename(m, labels)[1..] == Rename(m[1..], labels);
    }
  }

  /** `w'` gives the renamed endpoint the weight `w` gives the original one. */
  ghost predicate SameWeights(w: map<nat, nat>, w': map<nat, nat>, labels: seq<nat>) {
    forall id :: id in w ==> NewId(id, labels) in w' && w'[NewId(id, labels)] == w[id]
  }

  lemma RenameCovered(m: seq<Entry>, w: map<nat, nat>, w': map<nat, nat>, labels: seq<nat>)
    requires SameWeights(w, w', labels)
    requires forall e :: e in m ==> e.id in w
    ensures forall e :: e in Rename(m, labels) ==> e.id in w'
  {
    forall e | e in Rename(m, labels) ensures e.id in w' {
      var i :| 0 <= i < |m| && Rename(m, labels)[i] == e;
      assert m[i] in m;
    }
  }

  lemma {:induction false} RenameReinsert(m: seq<Entry>, w: map<nat, nat>, acc: seq<Entry>,
                                          w': map<nat, nat>, labels: seq<nat>)
    requires SameWeights(w, w', labels)
    requires forall e :: e in m ==> e.id in w
    requires forall e :: e in Rename(m, labels) ==> e.id in w'
    ensures Reinsert(Rename(m, labels), w', Rename(acc, labels)) == Rename(Reinsert(m, w, acc), labels)
    decreases |m|
  {
    if m == [] {
    } else {
      var n := |m| - 1;
      var e := Entry(m[n].key + w[m[n].id], m[n].id);
      RenameLast(m, w, w', labels);
      RenameInsert(acc, e, labels);
      RenameReinsert(m[..n], w, Insert(acc, e), w', labels);
    }
  }

  lemma RenameLast(m: seq<Entry>, w: map<nat, nat>, w': map<nat, nat>, labels: seq<nat>)
    requires m != [] && SameWeights(w, w', labels) && m[|m| - 1].id in w
    ensures var n := |m| - 1; var last := Rename(m, labels)[n];
            && Rename(m, labels)[..n] == Rename(m[..n], labels)
            && last.id in w'
            && Entry(last.key + w'[last.id], last.id) == Renamed(Entry(m[n].key + w[m[n].id], m[n].id), labels)
  {
  }

  lemma RenameRound(m: seq<Entry>, w: map<nat, nat>, total: nat, w': map<nat, nat>, labels: seq<nat>)
    requires m != [] && SameWeights(w, w', labels)
    requires forall e :: e in m ==> e.id in w
    requires forall e :: e in Rename(m, labels) ==> e.id in w'
    ensures Round(Rename(m, labels), w', total) == Rename(Round(m, w, total), labels)
    ensures Picked(Rename(m, labels)) == NewId(Picked(m), labels)
  {
    var n := |m| - 1;
    assert Rename(m, labels)[..n] == Rename(m[..n], labels);
    assert Rename([Charged(m, w, total)], labels) == [Charged(Rename(m, labels), w', total)];
    RenameCovered(m[..n], w, w', labels);
    RenameReinsert(m[..n], w, [Charged(m, w, total)], w', labels);
  }

  lemma {:induction false} RenameRun(m: seq<Entry>, w: map<nat, nat>, total: nat, k: nat,
                                     w': map<nat, nat>, labels: seq<nat>)
    requires m != [] && SameWeights(w, w', labels)
    requires multiset(Ids(m)) == multiset(w.Keys)
    requires multiset(Ids(Rename(m, labels))) == multiset(w'.Keys)
    ensures Run(Rename(m, labels), w', total, k).state == Rename(Run(m, w, total, k).state, labels)
    ensures Run(Rename(m, labels), w', total, k).picks == Image(Run(m, w, total, k).picks, labels)
    decreases k
  {
    if k == 0 {
    } else {
      RenameRun(m, w, total, k - 1, w', labels);
      var p, p' := Run(m, w, total, k - 1), Run(Rename(m, labels), w', total, k - 1);
      IdsCovered(p.state, w);
      RenameCovered(p.state, w, w', labels);
      RenameRound(p.state, w, total, w', labels);
      ImageSnoc(p.picks, Picked(p.state), labels);
      assert Run(Rename(m, labels), w', total, k).state == Round(p'.state, w', total);
      assert Run(m, w, total, k).state == Round(p.state, w, total);
    }
  }

  lemma ImageConcat(a: seq<nat>, b: seq<nat>, labels: seq<nat>)
    ensures Image(a + b, labels) == Image(a, labels) + Image(b, labels)
  {
  }

  lemma ImageSnoc(t: seq<nat>, x: nat, labels: seq<nat>)
    ensures Image(t + [x], labels) == Image(t, labels) + [NewId(x, labels)]
  {
  }

  /** `r'` is `r` with its endpoints renamed. */
  ghost predicate RenamedRouter(r: Router, r': Router, labels: seq<nat>) {
    && r'.m == Rename(r.m, labels) && r'.total == r.total && r'.table == Image(r.table, labels)
    && SameWeights(r.w, r'.w, labels)
  }

  lemma {:induction false} RenameLoad(sw: seq<nat>, labels: seq<nat>, n: nat)
    requires |labels| == |sw| && NoDuplicates(labels) && n <= |sw|
    ensures var r := Load(sw[..n], UpTo(|sw|)[..n]);
            && (forall id :: id in r.w ==> id < n)
            && RenamedRouter(r, Load(sw[..n], labels[..n]), labels)
    decreases n
  {
    if n == 0 {
    } else {
      RenameLoad(sw, labels, n - 1);
      assert sw[..n][..n - 1] == sw[..n - 1];
      assert labels[..n][..n - 1] == labels[..n - 1];
      assert UpTo(|sw|)[..n][..n - 1] == UpTo(|sw|)[..n - 1];
      var r := Load(sw[..n - 1], UpTo(|sw|)[..n - 1]);
      RenameInsert(r.m, Entry(sw[n - 1], n - 1), labels);
    }
  }

  lemma RenameEmit(r: Router, r': Router, labels: seq<nat>)
    requires RenamedRouter(r, r', labels)
    requires multiset(Ids(r.m)) == multiset(r.w.Keys)
    requires multiset(Ids(r'.m)) == multiset(r'.w.Keys)
    ensures Emit(r') == Image(Emit(r), labels)
  {
    if r.m != [] {
      RenameRun(r.m, r.w, r.total, r.total, r'.w, labels);
      ImageConcat(r.table, Run(r.m, r.w, r.total, r.total).picks, labels);
    }
  }

  /** Building the table over renamed endpoints gives the renamed table, ties included. */
  lemma TableOfRenamed(sw: seq<nat>, labels: seq<nat>)
    requires |labels| == |sw| && NoDuplicates(labels)
    ensures Table(sw, labels) == Image(Table(sw, UpTo(|sw|)), labels)
  {
    var ids := UpTo(|sw|);
    assert sw[..|sw|] == sw && labels[..|sw|] == labels && ids[..|sw|] == ids;
    RenameLoad(sw, labels, |sw|);
    LoadFacts(sw, ids);
    LoadFacts(sw, labels);
    RenameEmit(Load(sw, ids), Load(sw, labels), labels);
  }
}
