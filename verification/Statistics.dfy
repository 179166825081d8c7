/** Call statistics on their way from one call to the wire: recorded per function in an adapter
    (AdapterProxy::stat), collected per head (mergeStat, doStat), pooled (addMicMsg) and cut into
    report packets (reportMicMsg). */
module Statistics {

  const STAT_PROTOCOL_LEN: nat := 100

  datatype Head = Head(
    masterName: string, slaveName: string, interfaceName: string, masterIp: string, slaveIp: string,
    slavePort: int, returnValue: int, slaveSetName: string, slaveSetArea: string, slaveSetID: string,
    tarsVersion: string)

  datatype Body = Body(count: nat, timeoutCount: nat, execCount: nat, totalRspTime: nat) {
    /** The test under which mergeStat passes an entry on. */
    predicate Counted() { count != 0 || timeoutCount != 0 || execCount != 0 }
  }

  type Stats = map<Head, Body>

  const ZERO := Body(0, 0, 0, 0)

  /** AdapterProxy::merge, addMicMsg's merge branch. */
  function Add(a: Body, b: Body): (r: Body) {
    Body(a.count + b.count, a.timeoutCount + b.timeoutCount, a.execCount + b.execCount,
         a.totalRspTime + b.totalRspTime)
  }

  function At<K>(m: map<K, Body>, k: K): (b: Body) {
    if k in m then m[k] else ZERO
  }

  /** Merge into the entry under k, or make it. */
  function Bump<K>(m: map<K, Body>, k: K, b: Body): (r: map<K, Body>) {
    m[k := if k in m then Add(m[k], b) else b]
  }

  // ----- Sums over the keys of a map that lie in a chosen set -----

  datatype Figure = Count | TimeoutCount | ExecCount | TotalRspTime

  function Value(b: Body, f: Figure): (n: nat) {
    match f
    case Count => b.count
    case TimeoutCount => b.timeoutCount
    case ExecCount => b.execCount
    case TotalRspTime => b.totalRspTime
  }

  function Part<K>(k: K, b: Body, sel: iset<K>, f: Figure): (n: nat) {
    if k in sel then Value(b, f) else 0
  }

  ghost function Pick<K>(m: map<K, Body>): (k: K)
    requires m != map[]
    ensures k in m
  {
    var k :| k in m; k
  }

  ghost function Total<K>(m: map<K, Body>, sel: iset<K>, f: Figure): (t: nat)
    decreases |m|
  {
    if m == map[] then 0
    else Part(Pick(m), m[Pick(m)], sel, f) + Total(m - {Pick(m)}, sel, f)
  }

  lemma {:induction false} TotalRemove<K>(m: map<K, Body>, h: K, sel: iset<K>, f: Figure)
    requires h in m
    ensures Total(m, sel, f) == Part(h, m[h], sel, f) + Total(m - {h}, sel, f)
    decreases |m|
  {
    var k := Pick(m);
    if k != h {
      TotalRemove(m - {k}, h, sel, f);
      TotalRemove(m - {h}, k, sel, f);
      assert m - {k} - {h} == m - {h} - {k};
    }
  }

  lemma TotalBump<K>(m: map<K, Body>, h: K, b: Body, sel: iset<K>, f: Figure)
    ensures Total(Bump(m, h, b), sel, f) == Total(m, sel, f) + Part(h, b, sel, f)
  {
    TotalRemove(Bump(m, h, b), h, sel, f);
    assert Bump(m, h, b) - {h} == m - {h};
    if h in m {
      TotalRemove(m, h, sel, f);
    } else {
      assert m - {h} == m;
    }
  }

  // ----- Merging maps -----

  /** The union of two maps, entries under the same head merged. */
  function Merged<K>(m: map<K, Body>, add: map<K, Body>): (r: map<K, Body>) {
    m + map h | h in add :: if h in m then Add(m[h], add[h]) else add[h]
  }

  lemma MergedNone<K>(m: map<K, Body>)
    ensures Merged(m, map[]) == m
  {
  }

  lemma MergedStep<K>(m: map<K, Body>, add: map<K, Body>, h: K)
    requires h in add
    ensures Merged(m, add) == Bump(Merged(m, add - {h}), h, add[h])
  {
  }

  lemma {:induction false} TotalMerged<K>(m: map<K, Body>, add: map<K, Body>, sel: iset<K>, f: Figure)
    ensures Total(Merged(m, add), sel, f) == Total(m, sel, f) + Total(add, sel, f)
    decreases |add|
  {
    if add == map[] {
      assert Merged(m, add) == m by {
        MergedNone(m);
      }
    } else {
      var h := Pick(add);
      TotalMerged(m, add - {h}, sel, f);
      MergedStep(m, add, h);
      TotalBump(Merged(m, add - {h}), h, add[h], sel, f);
    }
  }

  /** An adapter's per-function entries under its head. */
  function Labelled(head: Head, bodies: map<string, Body>): (r: Stats) {
    map h | h in (set name | name in bodies :: head.(interfaceName := name)) :: bodies[h.interfaceName]
  }

  lemma LabelledBump(head: Head, bodies: map<string, Body>, name: string, b: Body)
    ensures Labelled(head, Bump(bodies, name, b)) == Bump(Labelled(head, bodies), head.(interfaceName := name), b)
  {
    var l, r := Labelled(head, Bump(bodies, name, b)), Bump(Labelled(head, bodies), head.(interfaceName := name), b);
    forall h ensures h in l <==> h in r {
      assert h in l <==> h == head.(interfaceName := h.interfaceName) && h.interfaceName in Bump(bodies, name, b);
      assert h in Labelled(head, bodies) <==> h == head.(interfaceName := h.interfaceName) && h.interfaceName in bodies;
    }
  }

  // ----- The adapter -----

  datatype Status = REQ_REQ | REQ_RSP | REQ_TIME | REQ_BUSY | REQ_EXC

  datatype Call = Call(function_: string, push: bool, status: Status, iRet: int, begin: int, end: int)

  /** The one-call body that stat fills in; a clock that ran backwards counts as ten seconds. */
  function Sample(c: Call): (b: Body)
    ensures b.count + b.timeoutCount + b.execCount == 1
    ensures b.count == 1 <==> c.status == REQ_RSP && c.iRet == 0
    ensures b.timeoutCount == 1 <==> c.status == REQ_TIME
    ensures b.totalRspTime == if b.count == 0 then 0 else if c.end < c.begin then 10000 else c.end - c.begin
  {
    if c.status == REQ_RSP && c.iRet == 0 then
      var t := if c.end >= c.begin then c.end - c.begin else 10000;
      Body(1, 0, 0, t)
    else if c.status == REQ_TIME then Body(0, 1, 0, 0)
    else Body(0, 0, 1, 0)
  }

  /** The entries with at least one call. */
  function Kept(bodies: map<string, Body>): (r: map<string, Body>) {
    map name | name in bodies && bodies[name].Counted() :: bodies[name]
  }

  class AdapterProxy {
    var statHead: Head
    var statBody: map<string, Body>

    method Stat(c: Call)
      modifies this`statBody
      ensures statBody == if c.push then old(statBody) else Bump(old(statBody), c.function_, Sample(c))
    {
      if c.push {
        return;
      }
      var body := Body(0, 0, 0, 0);
      if c.status == REQ_RSP && c.iRet == 0 {
        var sptime := if c.end >= c.begin then c.end - c.begin else 10000;
        body := body.(count := 1, totalRspTime := sptime);
      } else if c.status == REQ_TIME {
        body := body.(timeoutCount := 1);
      } else {
        body := body.(execCount := 1);
      }
      if c.function_ in statBody {
        statBody := statBody[c.function_ := Add(statBody[c.function_], body)];
      } else {
        statBody := statBody[c.function_ := body];
      }
    }

    /** Entries are visited in any order; those without a single call are passed over. */
    method MergeStat(mStatMicMsg: Stats) returns (m: Stats)
      modifies this
      ensures statBody == map[]
      ensures statHead == old(statHead).(interfaceName := statHead.interfaceName)
      ensures m == Merged(mStatMicMsg, Labelled(old(statHead), Kept(old(statBody))))
    {
      m := mStatMicMsg;
      var todo := statBody.Keys;
      ghost var done: map<string, Body> := map[];
      MergedNone(mStatMicMsg);
      assert Labelled(statHead, done) == map[];
      while todo != {}
        invariant statBody == old(statBody)
        invariant forall name :: name in todo ==> name in statBody && name !in done
        invariant forall name :: name in statBody && name !in todo && statBody[name].Counted() ==> name in done
        invariant forall name :: name in done ==> name in statBody && done[name] == statBody[name] && done[name].Counted()
        invariant statHead == old(statHead).(interfaceName := statHead.interfaceName)
        invariant m == Merged(mStatMicMsg, Labelled(old(statHead), done))
        decreases |todo|
      {
        var name :| name in todo;
        statHead := statHead.(interfaceName := name);
        m := MergeOne(m, statBody[name]);
        if statBody[name].Counted() {
          MergeStatStep(old(statHead), mStatMicMsg, done, name, statBody[name]);
          done := done[name := statBody[name]];
        }
        todo := todo - {name};
      }
      assert done == Kept(statBody);
      statBody := map[];
    }

    method MergeOne(mStatMicMsg: Stats, b: Body) returns (m: Stats)
      ensures m == if b.Counted() then Bump(mStatMicMsg, statHead, b) else mStatMicMsg
    {
      m := mStatMicMsg;
      if b.count != 0 || b.timeoutCount != 0 || b.execCount != 0 {
        if statHead in m {
          m := m[statHead := Add(m[statHead], b)];
        } else {
          m := m[statHead := b];
        }
      }
    }
  }

  lemma MergeStatStep(head: Head, m: Stats, done: map<string, Body>, name: string, b: Body)
    requires name !in done
    ensures Merged(m, Labelled(head, done[name := b]))
            == Bump(Merged(m, Labelled(head, done)), head.(interfaceName := name), b)
  {
    var h := head.(interfaceName := name);
    var add := Labelled(head, done);
    LabelledBump(head, done, name, b);
    assert h.interfaceName == name;
    assert h !in add;
    MergedStep(m, Bump(add, h, b), h);
    assert Bump(add, h, b) - {h} == add;
  }
}
