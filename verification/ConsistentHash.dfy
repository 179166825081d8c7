/** Consistent hashing in EndpointManager: the ring lookup, the refresh of a ring and the probe loop
    that evicts unusable nodes from the maps it shares with the other ring. */
module ConsistentHash {
  import opened Basics

  type Host = string

  /** A virtual node of the ring. */
  datatype RingNode = RingNode(hash: nat, host: Host)

  ghost predicate SortedRing(ring: seq<RingNode>) {
    forall i, j :: 0 <= i < j < |ring| ==> ring[i].hash <= ring[j].hash
  }

  /** `i` is where the lookup reads: the first node outside the range of the ring, and otherwise the
      first node whose hash is greater than the code. */
  ghost predicate Located(ring: seq<RingNode>, hashcode: nat, i: nat)
    requires ring != []
  {
    if hashcode <= ring[0].hash || hashcode > ring[|ring| - 1].hash then i == 0
    else 0 < i <= |ring| && ring[i - 1].hash <= hashcode && forall j :: i <= j < |ring| ==> ring[j].hash > hashcode
  }

  /** The position TC_ConsistentHashNew::getNodeName reads, found by its binary search. */
  method NodePosition(ring: seq<RingNode>, hashcode: nat) returns (i: nat)
    requires ring != [] && SortedRing(ring)
    ensures Located(ring, hashcode, i)
  {
    var low, high := 0, |ring|;
    if hashcode <= ring[0].hash || hashcode > ring[high - 1].hash {
      return 0;
    }
    while low < high - 1
      invariant 0 <= low < high <= |ring|
      invariant ring[low].hash <= hashcode
      invariant high < |ring| ==> ring[high].hash > hashcode
    {
      var mid := (low + high) / 2;
      if ring[mid].hash > hashcode {
        high := mid;
      } else {
        low := mid;
      }
    }
    return low + 1;
  }

  /** The read is in bounds unless the code hits the hash of the last virtual node exactly, on a
      ring whose first hash is smaller: then it lies one past the end. */
  lemma PositionInBounds(ring: seq<RingNode>, hashcode: nat, i: nat)
    requires ring != [] && SortedRing(ring) && Located(ring, hashcode, i)
    ensures i < |ring| <==> !(ring[0].hash < hashcode && hashcode == ring[|ring| - 1].hash)
  {
    var last := ring[|ring| - 1];
    assert ring[0].hash < hashcode <= last.hash && i < |ring| ==> last.hash > hashcode;
  }

  /** Two virtual nodes suffice for a read past the end. */
  lemma LookupCanOverrun(i: nat)
    requires Located([RingNode(1, "a"), RingNode(2, "b")], 2, i)
    ensures i == 2
  {
    PositionInBounds([RingNode(1, "a"), RingNode(2, "b")], 2, i);
  }

  ghost function Hosts(ring: seq<RingNode>): set<Host> {
    set n | n in ring :: n.host
  }

  /** The points that the Ketama hash puts on the ring for each virtual node. */
  const POINTS: nat := 4

  /** How many points of the ring lead to the host. */
  ghost function Points(ring: seq<RingNode>, h: Host): (n: nat) {
    if ring == [] then 0 else (if ring[0].host == h then 1 else 0) + Points(ring[1..], h)
  }

  /** Sorted points for the virtual nodes of each host; where the hash puts them is not part of this model. */
  ghost predicate RingOf(ring: seq<RingNode>, weights: map<Host, int>) {
    && SortedRing(ring)
    && forall h :: Points(ring, h) == if h in weights && weights[h] > 0 then POINTS * weights[h] else 0
  }

  lemma {:induction false} PointsMember(ring: seq<RingNode>, h: Host)
    ensures h in Hosts(ring) <==> Points(ring, h) > 0
  {
    if ring == [] {
    } else {
      PointsMember(ring[1..], h);
      assert ring == [ring[0]] + ring[1..];
      assert Hosts(ring) == {ring[0].host} + Hosts(ring[1..]);
    }
  }

  /** The ring names exactly the hosts of positive weight. */
  lemma RingHosts(ring: seq<RingNode>, weights: map<Host, int>)
    requires RingOf(ring, weights)
    ensures Hosts(ring) == set h | h in weights && weights[h] > 0
  {
    forall h ensures h in Hosts(ring) <==> h in weights && weights[h] > 0 {
      PointsMember(ring, h);
    }
  }

  /** A host has as many points as its weight, in fours, and at least four unless it has no weight. */
  ghost predicate InFours(n: nat, w: int) {
    n % POINTS == 0 && if w <= 0 then n == 0 else if w < POINTS then n == POINTS else n <= w < n + POINTS
  }

  /** One probe: settled, or the node was evicted and the search goes on. */
  datatype ProbeResult = Settled(r: Result) | Evicted

  /** What getConHashProxyForNormal and getConHashProxyForWeight can come back with. */
  datatype Result =
    | Found(proxy: nat)
    | Null              // no indexed endpoint is left
    | FallBack          // the ring is empty: getHashProxyForNormal takes over
    | OutOfBounds       // the ring lookup read past the end

  /** A ring and the map it was last built from. */
  datatype Ring = Ring(nodes: seq<RingNode>, last: map<Host, nat>)

  /** A ring only names hosts of its last map; the unweighted ring names all of them or is empty. */
  ghost predicate RingOk(r: Ring, byWeight: bool) {
    && SortedRing(r.nodes)
    && Hosts(r.nodes) <= r.last.Keys
    && (r.nodes != [] && !byWeight ==> Hosts(r.nodes) == r.last.Keys)
  }

  /** Every proxy still considered is indexed under the same host. */
  ghost predicate Within(sorted: map<Host, nat>, index: map<Host, nat>) {
    forall h :: h in sorted ==> h in index && sorted[h] == index[h]
  }

  /** An indexed endpoint that a probe accepts: the registry lists it and checkActive lets it through. */
  ghost predicate Good(h: Host, index: map<Host, nat>, active: set<nat>, usable: nat -> bool) {
    h in index && index[h] in active && usable(index[h])
  }

  ghost predicate AnyGood(hosts: set<Host>, index: map<Host, nat>, active: set<nat>, usable: nat -> bool) {
    exists h :: h in hosts && Good(h, index, active, usable)
  }

  ghost predicate IsGood(p: nat, hosts: set<Host>, index: map<Host, nat>, active: set<nat>, usable: nat -> bool) {
    exists h :: h in hosts && Good(h, index, active, usable) && index[h] == p
  }

  /** The node the lookup reads first is acceptable. */
  ghost predicate FirstIsGood(nodes: seq<RingNode>, hashCode: nat, index: map<Host, nat>, active: set<nat>, usable: nat -> bool) {
    nodes != [] && exists i :: 0 <= i < |nodes| && Located(nodes, hashCode, i) && Good(nodes[i].host, index, active, usable)
  }

  lemma LocatedOnce(nodes: seq<RingNode>, hashCode: nat, i: nat, j: nat)
    requires nodes != [] && Located(nodes, hashCode, i) && Located(nodes, hashCode, j)
    ensures i == j
  {
  }

  lemma FirstIs(nodes: seq<RingNode>, hashCode: nat, i: nat, index: map<Host, nat>, active: set<nat>, usable: nat -> bool)
    requires i < |nodes| && Located(nodes, hashCode, i)
    ensures FirstIsGood(nodes, hashCode, index, active, usable) <==> Good(nodes[i].host, index, active, usable)
  {
    forall j: nat | j < |nodes| && Located(nodes, hashCode, j) ensures j == i {
      LocatedOnce(nodes, hashCode, i, j);
    }
  }

  lemma NoHosts(nodes: seq<RingNode>)
    ensures Hosts(nodes) == {} <==> nodes == []
  {
    assert nodes != [] ==> nodes[0].host in Hosts(nodes);
  }

  /** Endpoints still listed by the registry stay indexed. */
  ghost predicate ListedKept(now: map<Host, nat>, before: map<Host, nat>, active: set<nat>) {
    Within(now, before) && forall h :: h in before && before[h] in active ==> h in now
  }

  /** After evictions the last map has the hosts still in the running, or the one evicted last. */
  ghost predicate LastTried(last: map<Host, nat>, sorted: map<Host, nat>, index: map<Host, nat>) {
    && (sorted != map[] ==> last.Keys == sorted.Keys)
    && (sorted == map[] && index != map[] ==> |last| == 1 && last.Keys <= index.Keys)
  }

  // ----- What an endpoint list does -----

  /** A proxy of the list and its static weight. */
  type Listed = (nat, int)

  /** Endpoints without weight are skipped when static weights are in use. */
  predicate Skipped(e: Listed, skip: bool) { skip && e.1 <= 0 }

  /** The proxies that are not skipped, in order. */
  function Taken(list: seq<Listed>, skip: bool): (r: seq<nat>) {
    if list == [] then []
    else
      var n := |list| - 1;
      Taken(list[..n], skip) + if Skipped(list[n], skip) then [] else [list[n].0]
  }

  /** The first proxy of each host. */
  function FirstOfHost(ps: seq<nat>, hostOf: nat -> Host): (r: map<Host, nat>) {
    if ps == [] then map[]
    else
      var n := |ps| - 1;
      var r := FirstOfHost(ps[..n], hostOf);
      if hostOf(ps[n]) in r then r else r[hostOf(ps[n]) := ps[n]]
  }

  datatype Weighing = Weighing(weight: map<nat, int>, changed: set<nat>)

  function WeighOne(z: Weighing, e: Listed): (r: Weighing) {
    Weighing(z.weight[e.0 := e.1],
             if e.0 in z.weight && z.weight[e.0] == e.1 then z.changed else z.changed + {e.0})
  }

  function Weigh(z: Weighing, list: seq<Listed>, skip: bool): (r: Weighing) {
    if list == [] then z
    else
      var n := |list| - 1;
      var r := Weigh(z, list[..n], skip);
      if Skipped(list[n], skip) then r else WeighOne(r, list[n])
  }

  /** No acceptable endpoint has been evicted. */
  ghost predicate GoodKept(sorted: map<Host, nat>, index: map<Host, nat>, active: set<nat>, usable: nat -> bool) {
    forall h :: Good(h, index, active, usable) ==> h in sorted
  }

  lemma SameSize(a: set<Host>, b: set<Host>)
    requires a <= b && |a| == |b|
    ensures a == b
  {
    assert |b - a| == 0;
  }

  lemma OneEvicted(last: map<Host, nat>, last': map<Host, nat>, sorted: map<Host, nat>, sorted': map<Host, nat>,
                   index: map<Host, nat>, h: Host)
    requires h in sorted && sorted' == sorted - {h} && sorted.Keys <= index.Keys && LastTried(last, sorted, index)
    requires last' == if sorted' == map[] then last else sorted'
    ensures LastTried(last', sorted', index)
  {
    if sorted' == map[] {
      assert forall k :: k in sorted && k != h ==> k in sorted';
      assert sorted.Keys == {h};
    }
  }

  lemma GoodStays(sorted: map<Host, nat>, sorted': map<Host, nat>, index: map<Host, nat>, h: Host,
                  active: set<nat>, usable: nat -> bool)
    requires GoodKept(sorted, index, active, usable)
    requires sorted' == sorted - {h} && !Good(h, index, active, usable)
    ensures GoodKept(sorted', index, active, usable)
  {
  }

  lemma ListedStays(now: map<Host, nat>, before: map<Host, nat>, index: map<Host, nat>, active: set<nat>)
    requires ListedKept(now, before, active) && ListedKept(before, index, active)
    ensures ListedKept(now, index, active)
  {
  }

  class EndpointManager {
    const build: map<Host, int> -> seq<RingNode>  // addNode and sortNode
    const hostOf: nat -> Host
    const direct: bool          // the object name carries its endpoints
    var staticWeight: bool      // the weight type the registry gave last
    var indexActiveProxys: map<Host, nat>
    var sortActivProxys: map<Host, nat>
    var weightRing: Ring
    var normalRing: Ring
    var activeProxys: seq<nat>
    var regProxys: set<nat>
    var activeInReg: set<nat>
    var weight: map<nat, int>
    var weightChanged: set<nat>

    ghost predicate GoodBuild() {
      forall m :: RingOf(build(m), m)
    }

    ghost predicate Indexed(index: map<Host, nat>)
      reads this`weight, this`regProxys
    {
      forall h :: h in index ==> hostOf(index[h]) == h && index[h] in weight && index[h] in regProxys
    }

    /** The hosts that belong on a ring: all, or with static weights those of positive weight. */
    ghost function Eligible(bStatic: bool, m: map<Host, nat>): set<Host>
      reads this`weight
    {
      set h | h in m && (bStatic ==> m[h] in weight && weight[m[h]] > 0)
    }

    ghost predicate Rebuilds(bStatic: bool, last: map<Host, nat>, index: map<Host, nat>)
      reads this`weightChanged
    {
      last.Keys != index.Keys || (bStatic && exists h :: h in index && index[h] in weightChanged)
    }

    /** The ring does not name the eligible hosts, and will not be rebuilt before the first probe. */
    ghost predicate Stale(bStatic: bool, r: Ring)
      reads this
    {
      !Rebuilds(bStatic, r.last, indexActiveProxys) && Hosts(r.nodes) != Eligible(bStatic, indexActiveProxys)
    }

    ghost predicate Valid()
      reads this
    {
      && GoodBuild()
      && Within(sortActivProxys, indexActiveProxys) && Indexed(indexActiveProxys)
      && RingOk(weightRing, true) && RingOk(normalRing, false)
    }

    constructor (build: map<Host, int> -> seq<RingNode>, hostOf: nat -> Host, direct: bool)
      requires forall m :: RingOf(build(m), m)
      ensures Valid() && indexActiveProxys == map[] && sortActivProxys == map[]
      ensures normalRing == Ring([], map[]) && weightRing == Ring([], map[])
      ensures this.build == build && this.hostOf == hostOf && this.direct == direct && !staticWeight
      ensures weight == map[] && weightChanged == {}
    {
      this.build, this.hostOf, this.direct := build, hostOf, direct;
      staticWeight := false;
      indexActiveProxys, sortActivProxys := map[], map[];
      weightRing, normalRing := Ring([], map[]), Ring([], map[]);
      activeProxys := [];
      regProxys, activeInReg, weight, weightChanged := {}, {}, map[], {};
    }

    ghost function Weights(): Weighing
      reads this`weight, this`weightChanged
    {
      Weighing(weight, weightChanged)
    }

    /** setWeight. */
    method SetWeight(p: nat, w: int)
      modifies this`weight, this`weightChanged
      ensures Weights() == WeighOne(old(Weights()), (p, w))
    {
      if p !in weight || weight[p] != w {
        weightChanged := weightChanged + {p};
      }
      weight := weight[p := w];
    }

    /** One endpoint of the active list. */
    method AddActive(p: nat, w: int)
      requires Valid() && sortActivProxys == indexActiveProxys
      modifies this`indexActiveProxys, this`sortActivProxys, this`activeProxys, this`regProxys, this`activeInReg, this`weight, this`weightChanged
      ensures Valid() && sortActivProxys == indexActiveProxys
      ensures indexActiveProxys == if hostOf(p) in old(indexActiveProxys) then old(indexActiveProxys)
                                   else old(indexActiveProxys)[hostOf(p) := p]
      ensures activeProxys == old(activeProxys) + [p]
      ensures activeInReg == old(activeInReg) + {p} && regProxys == old(regProxys) + {p}
      ensures Weights() == WeighOne(old(Weights()), (p, w))
    {
      hide RingOk, GoodBuild;
      activeInReg := activeInReg + {p};
      activeProxys := activeProxys + [p];
      regProxys := regProxys + {p};
      var host := hostOf(p);
      if host !in indexActiveProxys {
        indexActiveProxys := indexActiveProxys[host := p];
      }
      if host !in sortActivProxys {
        sortActivProxys := sortActivProxys[host := p];
      }
      SetWeight(p, w);
    }

    /** Endpoints without weight are left out under static weights, unless they come with the name. */
    predicate Skips()
      reads this`staticWeight
    {
      !direct && staticWeight
    }

    /** updateEndpoints: the maps are refilled together and the first endpoint of a host wins; the
        registry flags are only cleared when the active list is not empty. */
    method UpdateEndpoints(active: seq<Listed>, inactive: seq<Listed>)
      requires Valid()
      modifies this`indexActiveProxys, this`sortActivProxys, this`activeProxys, this`regProxys, this`activeInReg, this`weight, this`weightChanged
      ensures Valid() && sortActivProxys == indexActiveProxys
      ensures activeProxys == Taken(active, Skips())
      ensures indexActiveProxys == FirstOfHost(activeProxys, hostOf)
      ensures regProxys == Members(Taken(active, Skips())) + Members(Taken(inactive, Skips()))
      ensures activeInReg == (if active == [] then old(activeInReg) else Members(Taken(active, Skips()))) - Members(Taken(inactive, Skips()))
      ensures Weights() == Weigh(Weigh(old(Weights()), active, Skips()), inactive, Skips())
    {
      assert Members(Taken([], Skips())) == {};
      hide Taken, FirstOfHost, Weigh, Members, Valid;
      ClearTables(active != []);
      AddAllActive(active, Skips());
      DropInactive(inactive, Skips());
    }

    method ClearTables(clearFlags: bool)
      requires Valid()
      modifies this`indexActiveProxys, this`sortActivProxys, this`activeProxys, this`regProxys, this`activeInReg
      ensures activeInReg == if clearFlags then {} else old(activeInReg)
      ensures Valid() && indexActiveProxys == map[] == sortActivProxys && activeProxys == [] && regProxys == {}
    {
      hide RingOk, GoodBuild;
      indexActiveProxys, sortActivProxys, regProxys, activeProxys := map[], map[], {}, [];
      if clearFlags {
        activeInReg := {};
      }
    }

    /** The active list of updateEndpoints, into empty tables. */
    method AddAllActive(active: seq<Listed>, skip: bool)
      requires Valid() && indexActiveProxys == map[] == sortActivProxys && activeProxys == [] && regProxys == {}
      modifies this`indexActiveProxys, this`sortActivProxys, this`activeProxys, this`regProxys, this`activeInReg, this`weight, this`weightChanged
      ensures Valid() && sortActivProxys == indexActiveProxys
      ensures activeProxys == Taken(active, skip)
      ensures indexActiveProxys == FirstOfHost(activeProxys, hostOf)
      ensures regProxys == Members(Taken(active, skip))
      ensures activeInReg == old(activeInReg) + Members(Taken(active, skip))
      ensures Weights() == Weigh(old(Weights()), active, skip)
    {
      hide RingOk, GoodBuild, WeighOne;
      for i := 0 to |active|
        invariant Valid() && sortActivProxys == indexActiveProxys
        invariant activeProxys == Taken(active[..i], skip)
        invariant indexActiveProxys == FirstOfHost(activeProxys, hostOf)
        invariant regProxys == Members(activeProxys) && activeInReg == old(activeInReg) + Members(activeProxys)
        invariant Weights() == Weigh(old(Weights()), active[..i], skip)
      {
        assert active[..i + 1][..i] == active[..i];
        if !Skipped(active[i], skip) {
          ghost var ps := activeProxys;
          AddActive(active[i].0, active[i].1);
          assert activeProxys[..|ps|] == ps;
          assert Members(activeProxys) == Members(ps) + {active[i].0};
        }
      }
      assert active[..|active|] == active;
    }

    /** The inactive list of updateEndpoints. */
    method DropInactive(inactive: seq<Listed>, skip: bool)
      requires Valid()
      modifies this`regProxys, this`activeInReg, this`weight, this`weightChanged
      ensures Valid()
      ensures activeInReg == old(activeInReg) - Members(Taken(inactive, skip))
      ensures regProxys == old(regProxys) + Members(Taken(inactive, skip))
      ensures Weights() == Weigh(old(Weights()), inactive, skip)
    {
      for i := 0 to |inactive|
        invariant Valid()
        invariant activeInReg == old(activeInReg) - Members(Taken(inactive[..i], skip))
        invariant regProxys == old(regProxys) + Members(Taken(inactive[..i], skip))
        invariant Weights() == Weigh(old(Weights()), inactive[..i], skip)
      {
        assert inactive[..i + 1][..i] == inactive[..i];
        if !Skipped(inactive[i], skip) {
          ghost var ps := Taken(inactive[..i], skip);
          assert Members(ps + [inactive[i].0]) == Members(ps) + {inactive[i].0};
          activeInReg := activeInReg - {inactive[i].0};
          regProxys := regProxys + {inactive[i].0};
          SetWeight(inactive[i].0, inactive[i].1);
        }
      }
      assert inactive[..|inactive|] == inactive;
    }

    /** checkConHashChange: evicted nodes come back, then the maps are compared.  With static weights
        a change flag that is found set is cleared. */
    method CheckConHashChange(bStatic: bool, last: map<Host, nat>) returns (changed: bool)
      requires Valid()
      modifies this`sortActivProxys, this`weightChanged
      ensures Valid() && sortActivProxys == indexActiveProxys
      ensures changed <==> old(Rebuilds(bStatic, last, indexActiveProxys))
      ensures weightChanged == old(weightChanged)
              || (changed && bStatic && exists h :: h in indexActiveProxys && weightChanged == old(weightChanged) - {indexActiveProxys[h]})
    {
      if |indexActiveProxys| != |sortActivProxys| {
        sortActivProxys := indexActiveProxys;
      } else {
        SameSize(sortActivProxys.Keys, indexActiveProxys.Keys);
      }
      if last.Keys != sortActivProxys.Keys {
        return true;
      }
      changed := false;
      if bStatic && exists h :: h in sortActivProxys && sortActivProxys[h] in weightChanged {
        var h :| h in sortActivProxys && sortActivProxys[h] in weightChanged;
        weightChanged := weightChanged - {sortActivProxys[h]};
        return true;
      }
    }

    /** A quarter of the weight in virtual nodes, at least one; none without weight. */
    function VirtualNodes(bStatic: bool, sorted: map<Host, nat>): (m: map<Host, int>)
      requires forall h :: h in sorted ==> sorted[h] in weight
      reads this`weight
    {
      map h | h in sorted ::
        var iWeight := if bStatic then weight[sorted[h]] else 100;
        if iWeight > 0 then (if iWeight / 4 <= 0 then 1 else iWeight / 4) else 0
    }

    lemma VirtualNodesFit(bStatic: bool, sorted: map<Host, nat>)
      requires forall h :: h in sorted ==> sorted[h] in weight
      ensures var m := VirtualNodes(bStatic, sorted);
              && m.Keys == sorted.Keys
              && (set h | h in m && m[h] > 0) == Eligible(bStatic, sorted)
              && forall h :: h in sorted ==>
                   InFours(if m[h] > 0 then POINTS * m[h] else 0, if bStatic then weight[sorted[h]] else 100)
    {
    }

    /** updateConHashProxyWeighted: with nothing to hash the last map is left as it was. */
    method UpdateConHashProxyWeighted(bStatic: bool, ring0: Ring) returns (ring: Ring)
      requires Valid() && RingOk(ring0, bStatic)
      modifies this`weightChanged
      ensures Valid() && RingOk(ring, bStatic)
      ensures Hosts(ring.nodes) == Eligible(bStatic, sortActivProxys)
      ensures ring.last == if sortActivProxys == map[] then ring0.last else sortActivProxys
      ensures weightChanged == old(weightChanged) - sortActivProxys.Values
      ensures forall h :: h in sortActivProxys ==>
                InFours(Points(ring.nodes, h), if bStatic then weight[sortActivProxys[h]] else 100)
    {
      hide VirtualNodes, InFours, Points;
      ring := ring0.(nodes := []);
      if sortActivProxys == map[] {
        assert Hosts(ring.nodes) == {};
        return;
      }
      var nodes := VirtualNodes(bStatic, sortActivProxys);
      VirtualNodesFit(bStatic, sortActivProxys);
      ring := Ring(build(nodes), sortActivProxys);
      weightChanged := weightChanged - sortActivProxys.Values;
      assert RingOf(ring.nodes, nodes);
      RingHosts(ring.nodes, nodes);
    }

    /** A failed probe takes the node out of the running, and out of the index when the registry no
        longer lists it. */
    method Drop(sNode: Host)
      requires Valid() && sNode in sortActivProxys
      modifies this`indexActiveProxys, this`sortActivProxys
      ensures Valid()
      ensures sortActivProxys == old(sortActivProxys) - {sNode}
      ensures ListedKept(indexActiveProxys, old(indexActiveProxys), activeInReg)
    {
      if indexActiveProxys[sNode] !in activeInReg {
        indexActiveProxys := indexActiveProxys - {sNode};
      }
      sortActivProxys := sortActivProxys - {sNode};
    }

    /** Drops the node and rebuilds the ring without it. */
    method Evict(sNode: Host, bStatic: bool, ring0: Ring) returns (ring: Ring)
      requires Valid() && RingOk(ring0, bStatic) && sNode in sortActivProxys
      modifies this`indexActiveProxys, this`sortActivProxys, this`weightChanged
      ensures Valid() && RingOk(ring, bStatic)
      ensures sortActivProxys == old(sortActivProxys) - {sNode}
      ensures |sortActivProxys| == |old(sortActivProxys)| - 1
      ensures ListedKept(indexActiveProxys, old(indexActiveProxys), activeInReg)
      ensures Hosts(ring.nodes) == Eligible(bStatic, sortActivProxys)
      ensures ring.last == if sortActivProxys == map[] then ring0.last else sortActivProxys
      ensures weightChanged <= old(weightChanged)
    {
      Drop(sNode);
      assert old(sortActivProxys).Keys == sortActivProxys.Keys + {sNode};
      ring := UpdateConHashProxyWeighted(bStatic, ring0);
    }

    /** The ring before the first probe: current, unless it was stale. */
    method Refresh(bStatic: bool, ring0: Ring) returns (ring: Ring)
      requires Valid() && RingOk(ring0, bStatic)
      modifies this`sortActivProxys, this`weightChanged
      ensures Valid() && RingOk(ring, bStatic) && sortActivProxys == indexActiveProxys
      ensures Hosts(ring.nodes) <= sortActivProxys.Keys
      ensures sortActivProxys != map[] ==> ring.last.Keys == sortActivProxys.Keys
      ensures weightChanged <= old(weightChanged)
      ensures old(Rebuilds(bStatic, ring0.last, indexActiveProxys)) ==> weightChanged !! indexActiveProxys.Values
      ensures if old(Stale(bStatic, ring0)) then ring == ring0 else Hosts(ring.nodes) == Eligible(bStatic, sortActivProxys)
    {
      var changed := CheckConHashChange(bStatic, ring0.last);
      ring := ring0;
      if changed {
        ring := UpdateConHashProxyWeighted(bStatic, ring0);
      }
    }

    /** One turn of the probe loop; `index` is the index the search started from.  The node the ring
        names is indexed, so the node-not-found branch of the source is never taken. */
    method ProbeOnce(bStatic: bool, ring0: Ring, hashCode: nat, usable: nat -> bool, ghost index: map<Host, nat>)
      returns (r: ProbeResult, ring: Ring)
      requires Valid() && RingOk(ring0, bStatic) && ring0.nodes != [] && Hosts(ring0.nodes) <= sortActivProxys.Keys
      requires ListedKept(indexActiveProxys, index, activeInReg) && GoodKept(sortActivProxys, index, activeInReg, usable)
      requires LastTried(ring0.last, sortActivProxys, index)
      modifies this`indexActiveProxys, this`sortActivProxys, this`weightChanged
      ensures Valid() && RingOk(ring, bStatic)
      ensures ListedKept(indexActiveProxys, index, activeInReg) && GoodKept(sortActivProxys, index, activeInReg, usable)
      ensures LastTried(ring.last, sortActivProxys, index)
      ensures r == Evicted ==> !FirstIsGood(ring0.nodes, hashCode, index, activeInReg, usable)
      ensures r.Settled? && r.r.Found? ==> FirstIsGood(ring0.nodes, hashCode, index, activeInReg, usable)
      ensures r == Settled(OutOfBounds) ==> hashCode > 0
      ensures weightChanged <= old(weightChanged)
      ensures r == Evicted ==>
                && Hosts(ring.nodes) == Eligible(bStatic, sortActivProxys)
                && |sortActivProxys| == |old(sortActivProxys)| - 1
      ensures r.Settled? ==>
                match r.r
                case Found(p) => IsGood(p, index.Keys, index, activeInReg, usable)
                case OutOfBounds => true
                case _ => false
      ensures r.Settled? ==> ring == ring0 && sortActivProxys == old(sortActivProxys)
    {
      ring := ring0;
      var i := NodePosition(ring.nodes, hashCode);
      if i >= |ring.nodes| {
        return Settled(OutOfBounds), ring;
      }
      var sNode := ring.nodes[i].host;
      assert sNode in Hosts(ring.nodes);
      assert sNode in indexActiveProxys;
      FirstIs(ring.nodes, hashCode, i, index, activeInReg, usable);
      hide RingOk, GoodBuild, LastTried, FirstIsGood, Located, GoodKept;
      var p := indexActiveProxys[sNode];
      if p in activeInReg && usable(p) {
        assert Good(sNode, index, activeInReg, usable);
        return Settled(Found(p)), ring;
      }
      assert !Good(sNode, index, activeInReg, usable);
      ghost var sorted, listed := sortActivProxys, indexActiveProxys;
      ring := Evict(sNode, bStatic, ring);
      hide Within, Hosts, Good;
      OneEvicted(ring0.last, ring.last, sorted, sortActivProxys, index, sNode);
      GoodStays(sorted, sortActivProxys, index, sNode, activeInReg, usable);
      ListedStays(indexActiveProxys, listed, index, activeInReg);
      return Evicted, ring;
    }

    /** What a search that started from `index` on `nodes` promises: it finds an endpoint exactly when
        the first node tried is acceptable or some eligible one is, and an empty ring falls back. */
    ghost predicate Answers(bStatic: bool, nodes: seq<RingNode>, hashCode: nat, usable: nat -> bool,
                            index: map<Host, nat>, r: Result)
      reads this`weight, this`activeInReg
    {
      && (nodes == [] ==> r == FallBack)
      && (nodes != [] && r != OutOfBounds ==>
            (r.Found? <==> FirstIsGood(nodes, hashCode, index, activeInReg, usable)
                           || AnyGood(Eligible(bStatic, index), index, activeInReg, usable)))
    }

    /** The probe loop of getConHashProxyForWeight (bStatic) and getConHashProxyForNormal.  `usable` is
        the answer of checkActive(true) for each proxy.
        The loop ends within as many failed probes as there are indexed endpoints. */
    method Probe(bStatic: bool, ring0: Ring, hashCode: nat, usable: nat -> bool) returns (r: Result, ring: Ring, probes: nat)
      requires Valid() && RingOk(ring0, bStatic)
      modifies this`indexActiveProxys, this`sortActivProxys, this`weightChanged
      ensures Valid() && RingOk(ring, bStatic) && ListedKept(indexActiveProxys, old(indexActiveProxys), activeInReg)
      ensures probes <= |old(indexActiveProxys)|
      ensures r.Found? ==> IsGood(r.proxy, old(indexActiveProxys).Keys, old(indexActiveProxys), activeInReg, usable)
      ensures r == Null ==> indexActiveProxys == map[]
      ensures r == OutOfBounds ==> hashCode > 0
      ensures old(!Stale(bStatic, ring0)) && r != OutOfBounds ==>
                (r.Found? <==> AnyGood(Eligible(bStatic, old(indexActiveProxys)), old(indexActiveProxys), activeInReg, usable))
      ensures old(Stale(bStatic, ring0)) ==> Answers(bStatic, ring0.nodes, hashCode, usable, old(indexActiveProxys), r)
      ensures LastTried(ring.last, sortActivProxys, old(indexActiveProxys))
      ensures r != OutOfBounds ==> (r.Found? <==> ring.nodes != [])
      ensures old(!Stale(bStatic, ring0)) ==> Hosts(ring.nodes) == Eligible(bStatic, sortActivProxys)
      ensures old(Rebuilds(bStatic, ring0.last, indexActiveProxys)) ==> weightChanged !! old(indexActiveProxys).Values
    {
      hide RingOk, GoodBuild, FirstIsGood, AnyGood, IsGood;
      ring := Refresh(bStatic, ring0);
      ghost var current := old(!Stale(bStatic, ring0));
      ghost var nodes := ring.nodes;
      r, ring, probes := ProbeLoop(bStatic, ring, hashCode, usable);
      if current {
        FirstIsEligible(bStatic, nodes, hashCode, old(indexActiveProxys), usable);
      }
    }

    /** The loop itself. */
    method ProbeLoop(bStatic: bool, ring0: Ring, hashCode: nat, usable: nat -> bool)
      returns (r: Result, ring: Ring, probes: nat)
      requires Valid() && RingOk(ring0, bStatic) && sortActivProxys == indexActiveProxys
      requires Hosts(ring0.nodes) <= sortActivProxys.Keys && LastTried(ring0.last, sortActivProxys, indexActiveProxys)
      modifies this`indexActiveProxys, this`sortActivProxys, this`weightChanged
      ensures Valid() && RingOk(ring, bStatic) && ListedKept(indexActiveProxys, old(indexActiveProxys), activeInReg)
      ensures probes <= |old(indexActiveProxys)|
      ensures r.Found? ==> IsGood(r.proxy, old(indexActiveProxys).Keys, old(indexActiveProxys), activeInReg, usable)
      ensures r == Null ==> indexActiveProxys == map[]
      ensures r == OutOfBounds ==> hashCode > 0
      ensures Answers(bStatic, ring0.nodes, hashCode, usable, old(indexActiveProxys), r)
      ensures LastTried(ring.last, sortActivProxys, old(indexActiveProxys))
      ensures r != OutOfBounds ==> (r.Found? <==> ring.nodes != [])
      ensures Hosts(ring0.nodes) == old(Eligible(bStatic, sortActivProxys)) ==> Hosts(ring.nodes) == Eligible(bStatic, sortActivProxys)
      ensures weightChanged <= old(weightChanged)
    {
      hide RingOk, GoodBuild, FirstIsGood, AnyGood, IsGood;
      if |ring0.nodes| == 0 {
        return FallBack, ring0, 0;
      }
      ghost var index := indexActiveProxys;
      var one;
      one, ring := ProbeOnce(bStatic, ring0, hashCode, usable, index);
      if one.Settled? {
        return one.r, ring, 0;
      }
      r, ring, probes := ProbeRest(bStatic, ring, hashCode, usable, index);
      probes := probes + 1;
    }

    /** The probes after the first failed one, on rings built since. */
    method ProbeRest(bStatic: bool, ring0: Ring, hashCode: nat, usable: nat -> bool, ghost index: map<Host, nat>)
      returns (r: Result, ring: Ring, probes: nat)
      requires Valid() && RingOk(ring0, bStatic) && Hosts(ring0.nodes) == Eligible(bStatic, sortActivProxys)
      requires ListedKept(indexActiveProxys, index, activeInReg) && GoodKept(sortActivProxys, index, activeInReg, usable)
      requires LastTried(ring0.last, sortActivProxys, index)
      modifies this`indexActiveProxys, this`sortActivProxys, this`weightChanged
      ensures Valid() && RingOk(ring, bStatic) && ListedKept(indexActiveProxys, index, activeInReg)
      ensures probes <= |old(sortActivProxys)|
      ensures r.Found? ==> IsGood(r.proxy, index.Keys, index, activeInReg, usable)
      ensures r == Null ==> indexActiveProxys == map[]
      ensures r == OutOfBounds ==> hashCode > 0
      ensures r != OutOfBounds ==> (r.Found? <==> AnyGood(Eligible(bStatic, index), index, activeInReg, usable))
      ensures LastTried(ring.last, sortActivProxys, index)
      ensures r != OutOfBounds ==> (r.Found? <==> ring.nodes != [])
      ensures Hosts(ring.nodes) == Eligible(bStatic, sortActivProxys) && weightChanged <= old(weightChanged)
    {
      hide RingOk, GoodBuild, LastTried, FirstIsGood, AnyGood, IsGood, Hosts;
      ring := ring0;
      probes := 0;
      while |ring.nodes| > 0 && |indexActiveProxys| > 0
        invariant Valid() && RingOk(ring, bStatic)
        invariant Hosts(ring.nodes) == Eligible(bStatic, sortActivProxys) && LastTried(ring.last, sortActivProxys, index)
        invariant ListedKept(indexActiveProxys, index, activeInReg) && GoodKept(sortActivProxys, index, activeInReg, usable)
        invariant probes + |sortActivProxys| == |old(sortActivProxys)| && weightChanged <= old(weightChanged)
        decreases |sortActivProxys|
      {
        var one;
        one, ring := ProbeOnce(bStatic, ring, hashCode, usable, index);
        if one.Settled? {
          if one.r.Found? {
            FirstIsAnyGood(bStatic, ring.nodes, hashCode, index, usable);
          }
          return one.r, ring, probes;
        }
        probes := probes + 1;
      }
      NoneLeft(bStatic, index, usable);
      NoHosts(ring.nodes);
      if |indexActiveProxys| == 0 {
        return Null, ring, probes;
      }
      return FallBack, ring, probes;
    }

    /** On a current ring the first node tried is eligible, so it adds nothing. */
    lemma FirstIsEligible(bStatic: bool, nodes: seq<RingNode>, hashCode: nat, index: map<Host, nat>, usable: nat -> bool)
      requires Hosts(nodes) == Eligible(bStatic, index)
      ensures FirstIsGood(nodes, hashCode, index, activeInReg, usable) ==> AnyGood(Eligible(bStatic, index), index, activeInReg, usable)
      ensures nodes == [] ==> !AnyGood(Eligible(bStatic, index), index, activeInReg, usable)
    {
      if FirstIsGood(nodes, hashCode, index, activeInReg, usable) {
        var i :| 0 <= i < |nodes| && Located(nodes, hashCode, i) && Good(nodes[i].host, index, activeInReg, usable);
        assert nodes[i] in nodes && nodes[i].host in Hosts(nodes);
      }
    }

    /** When no eligible host is left in the running, none was acceptable. */
    lemma NoneLeft(bStatic: bool, index: map<Host, nat>, usable: nat -> bool)
      requires Within(sortActivProxys, indexActiveProxys) && Within(indexActiveProxys, index)
      requires GoodKept(sortActivProxys, index, activeInReg, usable)
      ensures Eligible(bStatic, sortActivProxys) == {} ==> !AnyGood(Eligible(bStatic, index), index, activeInReg, usable)
    {
      forall h | h in Eligible(bStatic, index) && Good(h, index, activeInReg, usable)
        ensures h in Eligible(bStatic, sortActivProxys)
      {
      }
    }

    lemma FirstIsAnyGood(bStatic: bool, nodes: seq<RingNode>, hashCode: nat, index: map<Host, nat>, usable: nat -> bool)
      requires Within(sortActivProxys, indexActiveProxys) && Within(indexActiveProxys, index)
      requires Hosts(nodes) == Eligible(bStatic, sortActivProxys)
      requires FirstIsGood(nodes, hashCode, index, activeInReg, usable)
      ensures AnyGood(Eligible(bStatic, index), index, activeInReg, usable)
    {
      var i :| 0 <= i < |nodes| && Located(nodes, hashCode, i) && Good(nodes[i].host, index, activeInReg, usable);
      assert nodes[i] in nodes && nodes[i].host in Hosts(nodes);
      assert nodes[i].host in Eligible(bStatic, index);
    }

    lemma StaleIsEmpty(r: Ring)
      requires RingOk(r, false)
      ensures Eligible(false, indexActiveProxys) == indexActiveProxys.Keys
      ensures Stale(false, r) ==> r.nodes == []
    {
    }

    /** Without static weights a usable endpoint is found exactly when there is one and the ring is
        not stale; a stale ring is empty and leaves the choice to plain hashing. */
    method GetConHashProxyForNormal(hashCode: nat, usable: nat -> bool) returns (r: Result)
      requires Valid()
      modifies this`indexActiveProxys, this`sortActivProxys, this`weightChanged, this`normalRing
      ensures Valid()
      ensures r.Found? ==> IsGood(r.proxy, old(indexActiveProxys).Keys, old(indexActiveProxys), activeInReg, usable)
      ensures r != OutOfBounds ==>
                (r.Found? <==> AnyGood(old(indexActiveProxys).Keys, old(indexActiveProxys), activeInReg, usable)
                               && old(!Stale(false, normalRing)))
      ensures r == Null ==> indexActiveProxys == map[]
      ensures r == OutOfBounds ==> hashCode > 0
      ensures ListedKept(indexActiveProxys, old(indexActiveProxys), activeInReg)
      ensures old(regProxys) != {} ==>
                LastTried(normalRing.last, sortActivProxys, old(indexActiveProxys))
                && (r != OutOfBounds ==> (r.Found? <==> normalRing.nodes != []))
                && (old(Rebuilds(false, normalRing.last, indexActiveProxys)) ==> weightChanged !! old(indexActiveProxys).Values)
    {
      if regProxys == {} {
        return Null;
      }
      StaleIsEmpty(normalRing);
      var probes;
      r, normalRing, probes := Probe(false, normalRing, hashCode, usable);
    }

    /** With static weights the same holds of the endpoints of positive weight; on a stale ring the node
        tried first may also be one that has lost its weight. */
    method GetConHashProxyForWeight(hashCode: nat, usable: nat -> bool) returns (r: Result)
      requires Valid()
      modifies this`indexActiveProxys, this`sortActivProxys, this`weightChanged, this`weightRing
      ensures Valid()
      ensures r.Found? ==> IsGood(r.proxy, old(indexActiveProxys).Keys, old(indexActiveProxys), activeInReg, usable)
      ensures r != OutOfBounds && old(!Stale(true, weightRing)) ==>
                (r.Found? <==> AnyGood(Eligible(true, old(indexActiveProxys)), old(indexActiveProxys), activeInReg, usable))
      ensures old(Stale(true, weightRing)) && regProxys != {} ==>
                Answers(true, old(weightRing.nodes), hashCode, usable, old(indexActiveProxys), r)
      ensures regProxys != {} ==> LastTried(weightRing.last, sortActivProxys, old(indexActiveProxys))
      ensures regProxys != {} && r != OutOfBounds ==> (r.Found? <==> weightRing.nodes != [])
      ensures regProxys != {} && old(!Stale(true, weightRing)) ==> Hosts(weightRing.nodes) == Eligible(true, sortActivProxys)
      ensures r == OutOfBounds ==> hashCode > 0
      ensures r == Null ==> indexActiveProxys == map[]
      ensures ListedKept(indexActiveProxys, old(indexActiveProxys), activeInReg)
    {
      if regProxys == {} {
        return Null;
      }
      var probes;
      r, weightRing, probes := Probe(true, weightRing, hashCode, usable);
    }

    /** The consistent-hash branches of getHashProxy: the weight type decides which ring is searched. */
    method GetHashProxy(hashCode: nat, usable: nat -> bool) returns (r: Result)
      requires Valid()
      modifies this`indexActiveProxys, this`sortActivProxys, this`weightChanged, this`weightRing, this`normalRing
      ensures Valid()
      ensures if staticWeight then normalRing == old(normalRing) else weightRing == old(weightRing)
      ensures r.Found? ==> IsGood(r.proxy, old(indexActiveProxys).Keys, old(indexActiveProxys), activeInReg, usable)
      ensures r != OutOfBounds && old(!Stale(staticWeight, if staticWeight then weightRing else normalRing)) ==>
                (r.Found? <==> AnyGood(Eligible(staticWeight, old(indexActiveProxys)), old(indexActiveProxys), activeInReg, usable))
      ensures r == OutOfBounds ==> hashCode > 0
    {
      StaleIsEmpty(normalRing);
      if staticWeight {
        r := GetConHashProxyForWeight(hashCode, usable);
      } else {
        r := GetConHashProxyForNormal(hashCode, usable);
      }
    }
  }
}
