/** StatReport: pooling the collected statistics (addMicMsg), cutting them into packets that fit a
    datagram (reportMicMsg), and the whole way of a call's figures to the wire. */
module StatReporting {
  import opened Basics
  import opened Statistics

  // ----- Cutting a map into packets -----

  /** The estimated encoded size of one entry. */
  function ItemLen(h: Head): (n: nat) {
    STAT_PROTOCOL_LEN + |h.masterName| + |h.slaveName| + |h.interfaceName|
    + |h.slaveSetName| + |h.slaveSetArea| + |h.slaveSetID|
  }

  /** Every further character of these six names counts, and nothing else does. */
  lemma ItemLenCounts(h: Head, s: string)
    ensures ItemLen(h.(masterName := h.masterName + s)) == ItemLen(h) + |s|
    ensures ItemLen(h.(slaveName := h.slaveName + s)) == ItemLen(h) + |s|
    ensures ItemLen(h.(interfaceName := h.interfaceName + s)) == ItemLen(h) + |s|
    ensures ItemLen(h.(slaveSetName := h.slaveSetName + s)) == ItemLen(h) + |s|
    ensures ItemLen(h.(slaveSetArea := h.slaveSetArea + s)) == ItemLen(h) + |s|
    ensures ItemLen(h.(slaveSetID := h.slaveSetID + s)) == ItemLen(h) + |s|
    ensures ItemLen(h.(masterIp := s)) == ItemLen(h.(slaveIp := s)) == ItemLen(h.(tarsVersion := s)) == ItemLen(h)
    ensures ItemLen(Head("", "", "", "", "", 0, 0, "", "", "", "")) == STAT_PROTOCOL_LEN
  {
  }

  function Size(group: seq<Head>): (n: nat) {
    if group == [] then 0 else Size(group[..|group| - 1]) + ItemLen(group[|group| - 1])
  }

  /** The heads of each packet in sending order, when `open` is already in the current packet. */
  function Cut(max: nat, keys: seq<Head>, open: seq<Head>): (groups: seq<seq<Head>>)
    decreases |keys|
  {
    if keys == [] then if open == [] then [] else [open]
    else if Size(open) + ItemLen(keys[0]) > max then [open] + Cut(max, keys[1..], [keys[0]])
    else Cut(max, keys[1..], open + [keys[0]])
  }

  /** Every head is in exactly one packet, in order. */
  lemma {:induction false} CutPartitions(max: nat, keys: seq<Head>, open: seq<Head>)
    ensures Flatten(Cut(max, keys, open)) == open + keys
    decreases |keys|
  {
    if keys == [] {
      assert open != [] ==> [open][1..] == [];
    } else if Size(open) + ItemLen(keys[0]) > max {
      CutPartitions(max, keys[1..], [keys[0]]);
      assert ([open] + Cut(max, keys[1..], [keys[0]]))[1..] == Cut(max, keys[1..], [keys[0]]);
      assert [keys[0]] + keys[1..] == keys;
    } else {
      CutPartitions(max, keys[1..], open + [keys[0]]);
      assert open + [keys[0]] + keys[1..] == open + keys;
    }
  }

  predicate Fits(max: nat, group: seq<Head>) {
    |group| > 1 ==> Size(group) <= max
  }

  /** A packet with more than one entry is within the limit. */
  lemma {:induction false} CutFits(max: nat, keys: seq<Head>, open: seq<Head>)
    requires Fits(max, open)
    ensures forall g :: g in Cut(max, keys, open) ==> Fits(max, g)
    decreases |keys|
  {
    if keys == [] {
    } else {
      if Size(open) + ItemLen(keys[0]) > max {
        CutFits(max, keys[1..], [keys[0]]);
      } else {
        assert (open + [keys[0]])[..|open|] == open;
        CutFits(max, keys[1..], open + [keys[0]]);
      }
    }
  }

  /** Packets are as full as the order allows: each next packet starts with an entry that no longer
      fitted.  Only the first packet can be empty, exactly when its first entry alone is too big. */
  lemma {:induction false} CutIsGreedy(max: nat, keys: seq<Head>, open: seq<Head>)
    ensures var groups := Cut(max, keys, open);
            (forall i :: 0 < i < |groups| ==> groups[i] != [] && Size(groups[i - 1]) + ItemLen(groups[i][0]) > max)
            && (groups != [] ==> open <= groups[0])
            && (([] in groups) <==> open == [] && keys != [] && ItemLen(keys[0]) > max)
    decreases |keys|
  {
    if keys == [] {
    } else {
      if Size(open) + ItemLen(keys[0]) > max {
        CutIsGreedy(max, keys[1..], [keys[0]]);
        CutContinues(max, keys[1..], [keys[0]]);
      } else {
        CutIsGreedy(max, keys[1..], open + [keys[0]]);
        CutContinues(max, keys[1..], open + [keys[0]]);
      }
    }
  }

  /** A function name longer than the limit, which mergeStat does not shorten: an empty packet goes out
      before the packet that holds the entry. */
  lemma EmptyPacketSent(max: nat, name: string, b: Body)
    requires |name| > max
    ensures var h := Head("", "", name, "", "", 0, 0, "", "", "", "");
            Packets(max, map[h := b], [h]) == [map[], map[h := b]]
  {
    var h := Head("", "", name, "", "", 0, 0, "", "", "", "");
    var m := map[h := b];
    assert [h][1..] == [];
    assert Cut(max, [], [h]) == [[h]];
    assert Cut(max, [h], []) == [[], [h]];
    assert Restrict(m, []) == map[] && Restrict(m, [h]) == m;
    var groups: seq<seq<Head>> := [[], [h]];
    assert groups[1..] == [[h]] && groups[1..][1..] == [];
    assert Restricted(m, groups[1..]) == [m];
  }

  lemma {:induction false} CutContinues(max: nat, keys: seq<Head>, open: seq<Head>)
    requires open != []
    ensures Cut(max, keys, open) != [] && open <= Cut(max, keys, open)[0]
    decreases |keys|
  {
    if keys != [] && Size(open) + ItemLen(keys[0]) <= max {
      CutContinues(max, keys[1..], open + [keys[0]]);
    }
  }

  function Restrict<K, V>(m: map<K, V>, keys: seq<K>): (r: map<K, V>) {
    map k | k in keys && k in m :: m[k]
  }

  function Restricted<K, V>(m: map<K, V>, groups: seq<seq<K>>): (ps: seq<map<K, V>>) {
    if groups == [] then [] else [Restrict(m, groups[0])] + Restricted(m, groups[1..])
  }

  /** `order` is the order in which the map's iterator visits its keys. */
  ghost predicate Enumerates<K(!new)>(order: seq<K>, m: map<K, Body>) {
    NoDuplicates(order) && forall k :: k in order <==> k in m
  }

  function Packets(max: nat, m: Stats, order: seq<Head>): (ps: seq<Stats>) {
    Restricted(m, Cut(max, order, []))
  }

  function Pool(queue: seq<Stats>): (m: Stats) {
    if queue == [] then map[] else Merged(Pool(queue[..|queue| - 1]), queue[|queue| - 1])
  }

  class StatReport {
    var maxReportSize: nat
    var statPrx: bool

    /** The iterator of `add` visits its entries in any order. */
    method AddMicMsg(oldMsg: Stats, add: Stats) returns (r: Stats)
      ensures r == Merged(oldMsg, add)
    {
      r := oldMsg;
      var todo := add.Keys;
      ghost var done: Stats := map[];
      MergedNone(oldMsg);
      while todo != {}
        invariant forall h :: h in todo ==> h in add && h !in done
        invariant forall h :: h in add && h !in todo ==> h in done
        invariant forall h :: h in done ==> h in add && done[h] == add[h]
        invariant r == Merged(oldMsg, done)
        decreases |todo|
      {
        var h :| h in todo;
        MergedGrows(oldMsg, done, h, add[h]);
        if h !in r {
          r := r[h := add[h]];
        } else {
          r := r[h := Add(r[h], add[h])];
        }
        done := done[h := add[h]];
        todo := todo - {h};
      }
      assert done == add;
    }

    /** The reporting thread pools every map waiting in the queue. */
    method PopAll(queue: seq<Stats>) returns (m: Stats)
      ensures m == Pool(queue)
    {
      m := map[];
      for i := 0 to |queue|
        invariant m == Pool(queue[..i])
      {
        m := AddMicMsg(m, queue[i]);
        assert queue[..i + 1][..i] == queue[..i];
      }
      assert queue[..|queue|] == queue;
    }

    /** The packets handed to async_reportMicMsg, in order; none without a proxy to send through. */
    method ReportMicMsg(msg: Stats, order: seq<Head>) returns (sent: seq<Stats>)
      requires Enumerates(order, msg)
      ensures sent == if statPrx then Packets(maxReportSize, msg, order) else []
    {
      NothingToVisit(order, msg);
      if |msg| == 0 {
        return [];
      }
      sent := SendBatches(msg, order);
    }

    /** The loop of reportMicMsg. */
    method SendBatches(msg: Stats, order: seq<Head>) returns (sent: seq<Stats>)
      requires Enumerates(order, msg)
      ensures sent == if statPrx then Packets(maxReportSize, msg, order) else []
    {
      sent := [];
      var iLen := 0;
      var mTemp: Stats := map[];
      ghost var open: seq<Head> := [];
      ghost var closed: seq<Stats> := [];
      ghost var all := Packets(maxReportSize, msg, order);
      assert order[0..] == order;
      for i := 0 to |order|
        invariant mTemp == Restrict(msg, open) && iLen == Size(open)
        invariant forall h :: h in open ==> h in msg
        invariant all == closed + Due(maxReportSize, msg, order[i..], open)
        invariant sent == if statPrx then closed else []
      {
        var head := order[i];
        var iTemLen := STAT_PROTOCOL_LEN + |head.masterName| + |head.slaveName| + |head.interfaceName|
                       + |head.slaveSetName| + |head.slaveSetArea| + |head.slaveSetID|;
        iLen := iLen + iTemLen;
        DueStep(maxReportSize, msg, order, i, open);
        if iLen > maxReportSize {
          if statPrx {
            sent := sent + [mTemp];
          }
          Associates(closed, [mTemp], Due(maxReportSize, msg, order[i + 1..], [] + [head]));
          closed := closed + [mTemp];
          iLen := iTemLen;
          mTemp := map[];
          open := [];
        }
        SizeSnoc(open, head);
        RestrictSnoc(msg, open, head);
        mTemp := mTemp[head := msg[head]];
        open := open + [head];
      }
      assert order[|order|..] == [];
      DueEnd(maxReportSize, msg, open);
      if mTemp != map[] && statPrx {
        sent := sent + [mTemp];
      }
    }
  }

  /** What is still to be sent when `open` is in the current packet and `keys` are to come. */
  function Due(max: nat, m: Stats, keys: seq<Head>, open: seq<Head>): (ps: seq<Stats>) {
    Restricted(m, Cut(max, keys, open))
  }

  lemma DueStep(max: nat, m: Stats, keys: seq<Head>, i: nat, open: seq<Head>)
    requires i < |keys|
    ensures Due(max, m, keys[i..], open)
            == if Size(open) + ItemLen(keys[i]) > max
               then [Restrict(m, open)] + Due(max, m, keys[i + 1..], [] + [keys[i]])
               else Due(max, m, keys[i + 1..], open + [keys[i]])
  {
    assert keys[i..][1..] == keys[i + 1..];
    assert [] + [keys[i]] == [keys[i]];
    var tail := Cut(max, keys[i + 1..], [keys[i]]);
    assert ([open] + tail)[1..] == tail;
  }

  lemma DueEnd(max: nat, m: Stats, open: seq<Head>)
    requires forall h :: h in open ==> h in m
    ensures Due(max, m, [], open) == if Restrict(m, open) != map[] then [Restrict(m, open)] else []
  {
    if open != [] {
      assert open[0] in Restrict(m, open);
      assert Restricted(m, [open]) == [Restrict(m, open)] + Restricted(m, [open][1..]);
      assert [open][1..] == [];
    }
  }

  lemma NothingToVisit(order: seq<Head>, m: Stats)
    requires Enumerates(order, m)
    ensures order != [] ==> |m| != 0
  {
    if order != [] {
      assert order[0] in m;
    }
  }

  lemma Associates<T>(a: seq<T>, b: seq<T>, c: seq<T>)
    ensures a + (b + c) == a + b + c
  {
  }

  lemma MergedGrows(m: Stats, done: Stats, h: Head, b: Body)
    requires h !in done
    ensures Merged(m, done[h := b]) == Bump(Merged(m, done), h, b)
  {
    MergedStep(m, done[h := b], h);
    assert done[h := b] - {h} == done;
  }

  lemma SizeSnoc(group: seq<Head>, h: Head)
    ensures Size(group + [h]) == Size(group) + ItemLen(h)
  {
    assert (group + [h])[..|group|] == group;
  }

  lemma RestrictSnoc(m: Stats, keys: seq<Head>, k: Head)
    requires k in m
    ensures Restrict(m, keys + [k]) == Restrict(m, keys)[k := m[k]]
  {
  }

  // ----- Packets carry everything once -----

  ghost function Sum(ps: seq<Stats>, sel: iset<Head>, f: Figure): (t: nat) {
    if ps == [] then 0 else Total(ps[0], sel, f) + Sum(ps[1..], sel, f)
  }

  lemma {:induction false} SumConcat(a: seq<Stats>, b: seq<Stats>, sel: iset<Head>, f: Figure)
    ensures Sum(a + b, sel, f) == Sum(a, sel, f) + Sum(b, sel, f)
  {
    if a == [] {
      assert a + b == b;
    } else {
      SumConcat(a[1..], b, sel, f);
      assert (a + b)[1..] == a[1..] + b;
    }
  }

  lemma SumSnoc(a: seq<Stats>, m: Stats, sel: iset<Head>, f: Figure)
    ensures Sum(a + [m], sel, f) == Sum(a, sel, f) + Total(m, sel, f)
  {
    SumConcat(a, [m], sel, f);
    assert [m][1..] == [];
  }

  /** Splitting off the entries of the first keys splits the total. */
  lemma {:induction false} TotalSplit(m: Stats, a: seq<Head>, b: seq<Head>, sel: iset<Head>, f: Figure)
    requires NoDuplicates(a + b)
    ensures Total(Restrict(m, a + b), sel, f) == Total(Restrict(m, a), sel, f) + Total(Restrict(m, b), sel, f)
    decreases |a|
  {
    if a == [] {
      assert a + b == b;
      assert Restrict(m, a) == map[];
    } else {
      var h, rest := a[0], a[1..];
      assert a + b == [h] + (rest + b);
      assert NoDuplicates(rest + b) && h !in rest + b by {
        assert forall i :: 0 <= i < |rest + b| ==> (a + b)[i + 1] == (rest + b)[i];
        assert (a + b)[0] == h;
      }
      TotalSplit(m, rest, b, sel, f);
      RestrictCons(m, h, rest, sel, f);
      RestrictCons(m, h, rest + b, sel, f);
      assert [h] + rest == a;
    }
  }

  lemma RestrictCons(m: Stats, h: Head, rest: seq<Head>, sel: iset<Head>, f: Figure)
    requires h !in rest
    ensures Total(Restrict(m, [h] + rest), sel, f) == Part(h, At(m, h), sel, f) + Total(Restrict(m, rest), sel, f)
  {
    var whole := Restrict(m, [h] + rest);
    if h in m {
      TotalRemove(whole, h, sel, f);
      assert whole - {h} == Restrict(m, rest);
    } else {
      assert whole == Restrict(m, rest);
    }
  }

  lemma {:induction false} SumRestricted(m: Stats, groups: seq<seq<Head>>, sel: iset<Head>, f: Figure)
    requires NoDuplicates(Flatten(groups))
    ensures Sum(Restricted(m, groups), sel, f) == Total(Restrict(m, Flatten(groups)), sel, f)
    decreases |groups|
  {
    if groups == [] {
      assert Restrict(m, []) == map[];
    } else {
      assert forall i :: 0 <= i < |Flatten(groups[1..])| ==> Flatten(groups)[|groups[0]| + i] == Flatten(groups[1..])[i];
      SumRestricted(m, groups[1..], sel, f);
      TotalSplit(m, groups[0], Flatten(groups[1..]), sel, f);
    }
  }

  /** Whatever heads one looks at, the packets together report exactly what the map held. */
  lemma PacketsConserve(max: nat, m: Stats, order: seq<Head>, sel: iset<Head>, f: Figure)
    requires Enumerates(order, m)
    ensures Sum(Packets(max, m, order), sel, f) == Total(m, sel, f)
  {
    CutPartitions(max, order, []);
    assert [] + order == order;
    SumRestricted(m, Cut(max, order, []), sel, f);
    assert Restrict(m, order) == m;
  }
}
