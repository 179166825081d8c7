/** Runs of the consistent-hash search that end in a stale ring, for every hashing and every host.  Which ring
    is searched, and whether an endpoint without weight is left out, follows the weight type at the time. */
module StaleRings {
  import opened Basics
  import opened ConsistentHash

  /** One indexed endpoint, listed by the registry. */
  ghost predicate Only(m: EndpointManager, h: Host, w: int)
    reads m
  {
    && m.Valid() && m.indexActiveProxys == map[h := 0] && m.hostOf(0) == h
    && m.activeInReg == {0} && m.regProxys == {0} && 0 in m.weight && m.weight[0] == w
  }

  lemma OnlyHost(nodes: seq<RingNode>, h: Host)
    requires nodes != [] && Hosts(nodes) <= {h}
    ensures Hosts(nodes) == {h} && nodes[0].host == h
  {
    assert nodes[0] in nodes && nodes[0].host in Hosts(nodes);
  }

  lemma OnlyKey(last: map<Host, nat>, h: Host)
    requires |last| == 1 && last.Keys <= {h}
    ensures last.Keys == {h}
  {
    assert last != map[];
    var k :| k in last;
    assert k == h;
  }

  lemma OneListed(hostOf: nat -> Host, w: int, z: Weighing, skip: bool)
    requires skip ==> w > 0
    ensures Taken([(0, w)], skip) == [0] && Taken([], skip) == []
    ensures FirstOfHost([0], hostOf) == map[hostOf(0) := 0]
    ensures Members([0]) == {0}
  {
    var list: seq<Listed> := [(0, w)];
    assert list[..0] == [];
    assert FirstOfHost([0][..0], hostOf) == map[];
  }

  lemma OneWeighed(w: int, z: Weighing, skip: bool)
    requires skip ==> w > 0
    ensures Weigh(Weigh(z, [(0, w)], skip), [], skip) == WeighOne(z, (0, w))
  {
    var list: seq<Listed> := [(0, w)];
    assert list[..0] == [];
    assert Weigh(z, list[..0], skip) == z;
  }

  /** One active endpoint is listed. */
  method List(m: EndpointManager, h: Host, w: int)
    requires m.Valid() && m.hostOf(0) == h && (m.Skips() ==> w > 0)
    modifies m
    ensures Only(m, h, w) && m.weightRing == old(m.weightRing) && m.normalRing == old(m.normalRing)
    ensures m.staticWeight == old(m.staticWeight)
  {
    OneListed(m.hostOf, w, m.Weights(), m.Skips());
    OneWeighed(w, m.Weights(), m.Skips());
    var none: seq<nat> := [];
    assert Members(none) == {};
    m.UpdateEndpoints([(0, w)], []);
  }

  /** An answer changes the weight type and, naming the same endpoints, nothing else. */
  method SwitchType(m: EndpointManager, byWeight: bool, h: Host, w: int)
    requires Only(m, h, w)
    modifies m`staticWeight
    ensures Only(m, h, w) && m.staticWeight == byWeight
  {
    m.staticWeight := byWeight;
  }

  method OneEndpoint(build: map<Host, int> -> seq<RingNode>, hostOf: nat -> Host, direct: bool, w: int) returns (m: EndpointManager)
    requires forall x :: RingOf(build(x), x)
    ensures fresh(m) && Only(m, hostOf(0), w) && !m.staticWeight && m.direct == direct
    ensures m.normalRing == Ring([], map[]) && m.weightRing == Ring([], map[])
  {
    m := new EndpointManager(build, hostOf, direct);
    List(m, hostOf(0), w);
  }

  /** A failed probe of the only endpoint leaves an empty ring over a last map that still matches. */
  method FailOnly(m: EndpointManager, h: Host, w: int) returns (r: Result)
    requires Only(m, h, w) && !m.staticWeight && !m.Stale(false, m.normalRing)
    modifies m
    ensures r == FallBack && Only(m, h, w) && !m.staticWeight && m.Stale(false, m.normalRing)
  {
    r := m.GetConHashProxyForNormal(0, _ => false);
    assert h in m.indexActiveProxys;
    assert m.indexActiveProxys == map[h := 0];
    NoHosts(m.normalRing.nodes);
    assert h in m.Eligible(false, m.indexActiveProxys);
    if m.sortActivProxys == map[] {
      OnlyKey(m.normalRing.last, h);
    } else {
      assert m.sortActivProxys.Keys == {h};
    }
  }

  /** So the next call falls back although the endpoint is acceptable again. */
  method EvictedForGood(build: map<Host, int> -> seq<RingNode>, hostOf: nat -> Host, direct: bool)
    returns (m: EndpointManager, first: Result, second: Result)
    requires forall x :: RingOf(build(x), x)
    ensures m.Valid() && !m.staticWeight && Good(hostOf(0), m.indexActiveProxys, m.activeInReg, _ => true)
    ensures first == FallBack && second == FallBack
  {
    m := OneEndpoint(build, hostOf, direct, 100);
    first := FailOnly(m, hostOf(0), 100);
    second := m.GetConHashProxyForNormal(0, _ => true);
    assert hostOf(0) in m.indexActiveProxys;
  }

  /** The weighted ring names the only endpoint. */
  method FindOnly(m: EndpointManager, h: Host, w: int) returns (r: Result)
    requires Only(m, h, w) && w > 0 && m.staticWeight && !m.Stale(true, m.weightRing)
    modifies m
    ensures m.staticWeight
    ensures Only(m, h, w) && m.weightRing.nodes != [] && Hosts(m.weightRing.nodes) == {h} && m.weightRing.last.Keys == {h}
    ensures m.normalRing == old(m.normalRing)
  {
    assert Good(h, m.indexActiveProxys, m.activeInReg, _ => true) && h in m.Eligible(true, m.indexActiveProxys);
    r := m.GetConHashProxyForWeight(0, _ => true);
    assert h in m.indexActiveProxys;
    assert m.indexActiveProxys == map[h := 0];
    OnlyHost(m.weightRing.nodes, h);
    assert h in m.sortActivProxys;
  }

  /** While the weight type is another, the weight is lost and the search on the other ring clears its flag.  The list
      that takes the weight away has to be a pushed one, since an answer with the same endpoints updates nothing. */
  method LoseWeight(m: EndpointManager, h: Host, w: int)
    requires Only(m, h, w) && !m.staticWeight && m.normalRing.last == map[]
    requires Hosts(m.weightRing.nodes) == {h} && m.weightRing.last.Keys == {h}
    modifies m
    ensures Only(m, h, 0) && !m.staticWeight && m.weightRing == old(m.weightRing) && m.Stale(true, m.weightRing)
  {
    hide RingOk;
    List(m, h, 0);
    var other := m.GetConHashProxyForNormal(0, _ => true);
    assert h in m.indexActiveProxys;
    assert m.indexActiveProxys == map[h := 0];
    assert 0 !in m.weightChanged;
    assert h !in m.Eligible(true, m.indexActiveProxys);
  }

  /** When the weight type is static, then not, then static again, the weighted ring goes on offering an endpoint
      that lost its weight in between. */
  method WeightLossUnseen(build: map<Host, int> -> seq<RingNode>, hostOf: nat -> Host)
    returns (m: EndpointManager, last: Result)
    requires forall x :: RingOf(build(x), x)
    ensures m.Valid() && m.staticWeight && 0 in m.weight && m.weight[0] == 0 && last == Found(0)
  {
    m := OneEndpoint(build, hostOf, false, 100);
    var h := hostOf(0);
    SwitchType(m, true, h, 100);
    last := FindOnly(m, h, 100);
    SwitchType(m, false, h, 100);
    LoseWeight(m, h, 100);
    SwitchType(m, true, h, 0);
    last := OfferedStill(m, h);
  }

  method OfferedStill(m: EndpointManager, h: Host) returns (last: Result)
    requires Only(m, h, 0) && m.staticWeight && m.Stale(true, m.weightRing) && Hosts(m.weightRing.nodes) == {h}
    requires m.weightRing.nodes != []
    modifies m
    ensures m.Valid() && m.staticWeight && 0 in m.weight && m.weight[0] == 0 && last == Found(0)
  {
    OnlyHost(m.weightRing.nodes, h);
    assert Located(m.weightRing.nodes, 0, 0);
    FirstIs(m.weightRing.nodes, 0, 0, m.indexActiveProxys, m.activeInReg, _ => true);
    last := m.GetConHashProxyForWeight(0, _ => true);
  }

  // ----- The runs are about something: a hashing exists -----

  lemma {:induction false} PointsConcat(a: seq<RingNode>, b: seq<RingNode>, h: Host)
    ensures Points(a + b, h) == Points(a, h) + Points(b, h)
  {
    if a == [] {
      assert a + b == b;
    } else {
      assert (a + b)[1..] == a[1..] + b;
      PointsConcat(a[1..], b, h);
    }
  }

  lemma {:induction false} PointsRepeat(n: nat, k: Host, h: Host)
    ensures Points(seq(n, _ => RingNode(0, k)), h) == if h == k then n else 0
  {
    if n == 0 {
    } else {
      assert seq(n, _ => RingNode(0, k))[1..] == seq(n - 1, _ => RingNode(0, k));
      PointsRepeat(n - 1, k, h);
    }
  }

  /** All points at hash zero. */
  ghost function AnyRing(weights: map<Host, int>): (r: seq<RingNode>)
    decreases |weights|
  {
    if weights == map[] then []
    else
      var h :| h in weights;
      seq(if weights[h] > 0 then POINTS * weights[h] else 0, _ => RingNode(0, h)) + AnyRing(weights - {h})
  }

  lemma {:induction false} AnyRingFits(weights: map<Host, int>)
    ensures forall i :: 0 <= i < |AnyRing(weights)| ==> AnyRing(weights)[i].hash == 0
    ensures forall k :: Points(AnyRing(weights), k) == if k in weights && weights[k] > 0 then POINTS * weights[k] else 0
    decreases |weights|
  {
    if weights == map[] {
    } else {
      var r := AnyRing(weights);
      var h :| h in weights && r == seq(if weights[h] > 0 then POINTS * weights[h] else 0, _ => RingNode(0, h)) + AnyRing(weights - {h});
      var own := seq(if weights[h] > 0 then POINTS * weights[h] else 0, _ => RingNode(0, h));
      AnyRingFits(weights - {h});
      forall k ensures Points(r, k) == if k in weights && weights[k] > 0 then POINTS * weights[k] else 0 {
        PointsConcat(own, AnyRing(weights - {h}), k);
        PointsRepeat(|own|, h, k);
      }
    }
  }

  ghost predicate IsBuild(build: map<Host, int> -> seq<RingNode>) {
    forall x :: RingOf(build(x), x)
  }

  lemma BuildExists()
    ensures exists build :: IsBuild(build)
  {
    var build: map<Host, int> -> seq<RingNode> := x => AnyRing(x);
    forall x ensures RingOf(build(x), x) {
      AnyRingFits(x);
    }
    assert IsBuild(build);
  }
}
