/** The whole way of the figures: calls recorded in adapters, collected every few seconds into a
    bounded queue, pooled and reported by another thread, over every run of these steps. */
module StatPipeline {
  import opened Statistics
  import opened StatReporting

  const MAX_STAT_QUEUE_SIZE: nat := 100000

  datatype Adapter = Adapter(head: Head, bodies: map<string, Body>)

  /** `dropped` and `recorded` are bookkeeping: the maps thrown away, and every call ever recorded. */
  datatype Pipe = Pipe(adapters: seq<Adapter>, queue: seq<Stats>, wire: seq<Stats>,
                       dropped: seq<Stats>, recorded: Stats)

  datatype Event =
    | Create(head: Head)
    | Record(adapter: nat, call: Call)
    | DoStat
    | Report(order: seq<Head>, max: nat, statPrx: bool)

  function Collect(adapters: seq<Adapter>): (m: Stats) {
    if adapters == [] then map[]
    else
      var last := adapters[|adapters| - 1];
      Merged(Collect(adapters[..|adapters| - 1]), Labelled(last.head, Kept(last.bodies)))
  }

  function Emptied(adapters: seq<Adapter>): (r: seq<Adapter>)
    ensures |r| == |adapters|
    ensures forall i :: 0 <= i < |r| ==> r[i] == Adapter(adapters[i].head, map[])
  {
    seq(|adapters|, i requires 0 <= i < |adapters| => Adapter(adapters[i].head, map[]))
  }

  ghost predicate Legal(p: Pipe, e: Event) {
    match e
    case Record(a, _) => a < |p.adapters|
    case Report(order, _, _) => Enumerates(order, Pool(p.queue))
    case _ => true
  }

  /** An event that throws figures away: the queue is full, or there is no proxy to report through. */
  predicate Drops(p: Pipe, e: Event) {
    match e
    case DoStat => Collect(p.adapters) != map[] && |p.queue| >= MAX_STAT_QUEUE_SIZE
    case Report(_, _, statPrx) => Pool(p.queue) != map[] && !statPrx
    case _ => false
  }

  function RecordStep(p: Pipe, a: nat, c: Call): (q: Pipe)
    requires a < |p.adapters|
  {
    if c.push then p
    else
      var ad := p.adapters[a];
      p.(adapters := p.adapters[a := ad.(bodies := Bump(ad.bodies, c.function_, Sample(c)))],
         recorded := Bump(p.recorded, ad.head.(interfaceName := c.function_), Sample(c)))
  }

  /** CommunicatorEpoll::doStat and report. */
  function DoStatStep(p: Pipe): (q: Pipe) {
    var m := Collect(p.adapters);
    var q := p.(adapters := Emptied(p.adapters));
    if m == map[] then q
    else if |p.queue| < MAX_STAT_QUEUE_SIZE then q.(queue := p.queue + [m])
    else q.(dropped := p.dropped + [m])
  }

  /** One turn of StatReport::run. */
  function ReportStep(p: Pipe, order: seq<Head>, max: nat, statPrx: bool): (q: Pipe) {
    var m := Pool(p.queue);
    if statPrx then p.(queue := [], wire := p.wire + Packets(max, m, order))
    else p.(queue := [], dropped := if m == map[] then p.dropped else p.dropped + [m])
  }

  ghost function Step(p: Pipe, e: Event): (q: Pipe)
    requires Legal(p, e)
  {
    match e
    case Create(head) => p.(adapters := p.adapters + [Adapter(head, map[])])
    case Record(a, c) => RecordStep(p, a, c)
    case DoStat => DoStatStep(p)
    case Report(order, max, statPrx) => ReportStep(p, order, max, statPrx)
  }

  // ----- What the adapters still hold -----

  ghost function Pending(adapters: seq<Adapter>, sel: iset<Head>, f: Figure): (n: nat) {
    if adapters == [] then 0
    else
      var last := adapters[|adapters| - 1];
      Pending(adapters[..|adapters| - 1], sel, f) + Total(Labelled(last.head, last.bodies), sel, f)
  }

  predicate AllCounted(adapters: seq<Adapter>) {
    forall i :: 0 <= i < |adapters| ==> Kept(adapters[i].bodies) == adapters[i].bodies
  }

  lemma {:induction false} PendingUpdate(adapters: seq<Adapter>, i: nat, x: Adapter, sel: iset<Head>, f: Figure)
    requires i < |adapters|
    ensures Pending(adapters[i := x], sel, f) + Total(Labelled(adapters[i].head, adapters[i].bodies), sel, f)
            == Pending(adapters, sel, f) + Total(Labelled(x.head, x.bodies), sel, f)
    decreases |adapters|
  {
    var n := |adapters| - 1;
    if i < n {
      PendingUpdate(adapters[..n], i, x, sel, f);
      assert adapters[i := x][..n] == adapters[..n][i := x];
    } else {
      assert adapters[i := x][..n] == adapters[..n];
    }
  }

  lemma {:induction false} EmptiedPendsNothing(adapters: seq<Adapter>, sel: iset<Head>, f: Figure)
    ensures Pending(Emptied(adapters), sel, f) == 0
    decreases |adapters|
  {
    if adapters == [] {
    } else {
      var n := |adapters| - 1;
      EmptiedPendsNothing(adapters[..n], sel, f);
      assert Emptied(adapters)[..n] == Emptied(adapters[..n]);
      assert Labelled(adapters[n].head, map[]) == map[];
    }
  }

  /** Collecting loses nothing, since a recorded entry always has a call in it. */
  lemma {:induction false} CollectConserves(adapters: seq<Adapter>, sel: iset<Head>, f: Figure)
    requires AllCounted(adapters)
    ensures Total(Collect(adapters), sel, f) == Pending(adapters, sel, f)
    decreases |adapters|
  {
    if adapters == [] {
    } else {
      var n := |adapters| - 1;
      var last := adapters[n];
      CollectConserves(adapters[..n], sel, f);
      TotalMerged(Collect(adapters[..n]), Labelled(last.head, last.bodies), sel, f);
    }
  }

  lemma {:induction false} PoolConserves(queue: seq<Stats>, sel: iset<Head>, f: Figure)
    ensures Total(Pool(queue), sel, f) == Sum(queue, sel, f)
    decreases |queue|
  {
    if queue == [] {
    } else {
      var n := |queue| - 1;
      PoolConserves(queue[..n], sel, f);
      TotalMerged(Pool(queue[..n]), queue[n], sel, f);
      SumSnoc(queue[..n], queue[n], sel, f);
      assert queue[..n] + [queue[n]] == queue;
    }
  }

  // ----- Conservation -----

  ghost predicate Conserved(p: Pipe, sel: iset<Head>, f: Figure) {
    Total(p.recorded, sel, f)
    == Pending(p.adapters, sel, f) + Sum(p.queue, sel, f) + Sum(p.wire, sel, f) + Sum(p.dropped, sel, f)
  }

  lemma KeptBump(bodies: map<string, Body>, name: string, c: Call)
    requires Kept(bodies) == bodies
    ensures var r := Bump(bodies, name, Sample(c)); Kept(r) == r
  {
    var r := Bump(bodies, name, Sample(c));
    forall n | n in r ensures r[n].Counted() {
      assert n != name ==> n in Kept(bodies);
    }
  }

  lemma StepCounted(p: Pipe, e: Event)
    requires Legal(p, e) && AllCounted(p.adapters)
    ensures AllCounted(Step(p, e).adapters)
  {
    if e.Record? {
      KeptBump(p.adapters[e.adapter].bodies, e.call.function_, e.call);
    }
    assert Kept(map[]) == map[];
  }

  lemma RecordConserves(p: Pipe, a: nat, c: Call, sel: iset<Head>, f: Figure)
    requires a < |p.adapters| && Conserved(p, sel, f)
    ensures Conserved(RecordStep(p, a, c), sel, f)
  {
    if !c.push {
      var ad := p.adapters[a];
      var h := ad.head.(interfaceName := c.function_);
      var x := ad.(bodies := Bump(ad.bodies, c.function_, Sample(c)));
      LabelledBump(ad.head, ad.bodies, c.function_, Sample(c));
      TotalBump(Labelled(ad.head, ad.bodies), h, Sample(c), sel, f);
      TotalBump(p.recorded, h, Sample(c), sel, f);
      PendingUpdate(p.adapters, a, x, sel, f);
    }
  }

  lemma DoStatConserves(p: Pipe, sel: iset<Head>, f: Figure)
    requires AllCounted(p.adapters) && Conserved(p, sel, f)
    ensures Conserved(DoStatStep(p), sel, f)
  {
    var m := Collect(p.adapters);
    CollectConserves(p.adapters, sel, f);
    EmptiedPendsNothing(p.adapters, sel, f);
    if m != map[] {
      SumSnoc(if |p.queue| < MAX_STAT_QUEUE_SIZE then p.queue else p.dropped, m, sel, f);
    }
  }

  lemma ReportConserves(p: Pipe, order: seq<Head>, max: nat, statPrx: bool, sel: iset<Head>, f: Figure)
    requires Enumerates(order, Pool(p.queue)) && Conserved(p, sel, f)
    ensures Conserved(ReportStep(p, order, max, statPrx), sel, f)
  {
    var m := Pool(p.queue);
    PoolConserves(p.queue, sel, f);
    if statPrx {
      PacketsConserve(max, m, order, sel, f);
      SumConcat(p.wire, Packets(max, m, order), sel, f);
    } else {
      SumSnoc(p.dropped, m, sel, f);
    }
  }

  lemma CreateConserves(p: Pipe, head: Head, sel: iset<Head>, f: Figure)
    requires Conserved(p, sel, f)
    ensures Conserved(Step(p, Create(head)), sel, f)
  {
    var n := |p.adapters|;
    assert (p.adapters + [Adapter(head, map[])])[..n] == p.adapters;
    assert Labelled(head, map[]) == map[];
  }

  lemma StepConserves(p: Pipe, e: Event, sel: iset<Head>, f: Figure)
    requires Legal(p, e) && AllCounted(p.adapters) && Conserved(p, sel, f)
    ensures Conserved(Step(p, e), sel, f)
  {
    match e
    case Create(head) => CreateConserves(p, head, sel, f);
    case Record(a, c) => RecordConserves(p, a, c, sel, f);
    case DoStat => DoStatConserves(p, sel, f);
    case Report(order, max, statPrx) => ReportConserves(p, order, max, statPrx, sel, f);
  }

  ghost predicate LegalRun(p: Pipe, events: seq<Event>)
    decreases |events|
  {
    events == [] || (Legal(p, events[0]) && LegalRun(Step(p, events[0]), events[1..]))
  }

  ghost function Exec(p: Pipe, events: seq<Event>): (q: Pipe)
    requires LegalRun(p, events)
    decreases |events|
  {
    if events == [] then p else Exec(Step(p, events[0]), events[1..])
  }

  ghost predicate DropFree(p: Pipe, events: seq<Event>)
    requires LegalRun(p, events)
    decreases |events|
  {
    events == [] || (!Drops(p, events[0]) && DropFree(Step(p, events[0]), events[1..]))
  }

  /** In every run, for every choice of heads and every figure: what was recorded is what waits in
      the adapters, waits in the queue, was reported or was dropped. */
  lemma {:induction false} RunConserves(p: Pipe, events: seq<Event>, sel: iset<Head>, f: Figure)
    requires LegalRun(p, events) && AllCounted(p.adapters) && Conserved(p, sel, f)
    ensures Conserved(Exec(p, events), sel, f) && AllCounted(Exec(p, events).adapters)
    decreases |events|
  {
    if events == [] {
    } else {
      StepConserves(p, events[0], sel, f);
      StepCounted(p, events[0]);
      RunConserves(Step(p, events[0]), events[1..], sel, f);
    }
  }

  lemma StepDrops(p: Pipe, e: Event)
    requires Legal(p, e)
    ensures Step(p, e).dropped == [] <==> p.dropped == [] && !Drops(p, e)
  {
  }

  /** Figures are dropped exactly in runs where a full queue or a missing proxy met some figures. */
  lemma {:induction false} NothingDropped(p: Pipe, events: seq<Event>)
    requires LegalRun(p, events)
    ensures Exec(p, events).dropped == [] <==> p.dropped == [] && DropFree(p, events)
    decreases |events|
  {
    if events == [] {
    } else {
      StepDrops(p, events[0]);
      NothingDropped(Step(p, events[0]), events[1..]);
    }
  }

  const STARTED := Pipe([], [], [], [], map[])

  lemma FlushReports(p: Pipe, order: seq<Head>, max: nat, sel: iset<Head>, f: Figure)
    requires AllCounted(p.adapters) && Conserved(p, sel, f)
    requires p.dropped == [] && |p.queue| < MAX_STAT_QUEUE_SIZE
    requires Enumerates(order, Pool(DoStatStep(p).queue))
    ensures Sum(ReportStep(DoStatStep(p), order, max, true).wire, sel, f) == Total(p.recorded, sel, f)
  {
    var q := DoStatStep(p);
    DoStatConserves(p, sel, f);
    ReportConserves(q, order, max, true, sel, f);
    EmptiedPendsNothing(p.adapters, sel, f);
  }

  /** Once everything is collected and reported, the packets on the wire add up to the calls made. */
  lemma EverythingReported(events: seq<Event>, order: seq<Head>, max: nat, sel: iset<Head>, f: Figure)
    requires LegalRun(STARTED, events) && DropFree(STARTED, events)
    requires |Exec(STARTED, events).queue| < MAX_STAT_QUEUE_SIZE
    requires Enumerates(order, Pool(DoStatStep(Exec(STARTED, events)).queue))
    ensures var p := Exec(STARTED, events);
            Sum(ReportStep(DoStatStep(p), order, max, true).wire, sel, f) == Total(p.recorded, sel, f)
  {
    NothingDropped(STARTED, events);
    RunConserves(STARTED, events, sel, f);
    FlushReports(Exec(STARTED, events), order, max, sel, f);
  }

  // ----- What was recorded is what was called -----

  /** What a call counts for in each figure; pushed messages count for nothing. */
  function Worth(c: Call, f: Figure): (n: nat) {
    var succeeds := c.status == REQ_RSP && c.iRet == 0;
    if c.push then 0
    else
      match f
      case Count => if succeeds then 1 else 0
      case TimeoutCount => if c.status == REQ_TIME then 1 else 0
      case ExecCount => if !succeeds && c.status != REQ_TIME then 1 else 0
      case TotalRspTime => if !succeeds then 0 else if c.end >= c.begin then c.end - c.begin else 10000
  }

  function Heads(adapters: seq<Adapter>): (hs: seq<Head>)
    ensures |hs| == |adapters|
  {
    seq(|adapters|, i requires 0 <= i < |adapters| => adapters[i].head)
  }

  /** What the calls of a run come to under the chosen heads; `heads` are those of the adapters so far. */
  ghost function Made(heads: seq<Head>, events: seq<Event>, sel: iset<Head>, f: Figure): (n: nat)
    decreases |events|
  {
    if events == [] then 0
    else
      match events[0]
      case Create(head) => Made(heads + [head], events[1..], sel, f)
      case Record(a, c) =>
        (if a < |heads| && heads[a].(interfaceName := c.function_) in sel then Worth(c, f) else 0)
        + Made(heads, events[1..], sel, f)
      case _ => Made(heads, events[1..], sel, f)
  }

  lemma SampleIsWorth(c: Call, f: Figure)
    requires !c.push
    ensures Value(Sample(c), f) == Worth(c, f)
  {
  }

  lemma StepHeads(p: Pipe, e: Event)
    requires Legal(p, e)
    ensures Heads(Step(p, e).adapters) == if e.Create? then Heads(p.adapters) + [e.head] else Heads(p.adapters)
  {
  }

  lemma StepRecords(p: Pipe, e: Event, sel: iset<Head>, f: Figure)
    requires Legal(p, e)
    ensures Total(Step(p, e).recorded, sel, f) == Total(p.recorded, sel, f)
            + if e.Record? && Heads(p.adapters)[e.adapter].(interfaceName := e.call.function_) in sel then Worth(e.call, f) else 0
  {
    if e.Record? && !e.call.push {
      SampleIsWorth(e.call, f);
      TotalBump(p.recorded, p.adapters[e.adapter].head.(interfaceName := e.call.function_), Sample(e.call), sel, f);
    }
  }

  lemma {:induction false} RunRecords(p: Pipe, events: seq<Event>, sel: iset<Head>, f: Figure)
    requires LegalRun(p, events)
    ensures Total(Exec(p, events).recorded, sel, f) == Total(p.recorded, sel, f) + Made(Heads(p.adapters), events, sel, f)
    decreases |events|
  {
    hide Step, Total;
    if events == [] {
    } else {
      StepHeads(p, events[0]);
      StepRecords(p, events[0], sel, f);
      RunRecords(Step(p, events[0]), events[1..], sel, f);
    }
  }

  /** After a run without drops, one collection and one report put on the wire exactly what the calls of the run come to:
      successes with their times, timeouts and exceptions, under whatever heads one looks at. */
  lemma CallsReported(events: seq<Event>, order: seq<Head>, max: nat, sel: iset<Head>, f: Figure)
    requires LegalRun(STARTED, events) && DropFree(STARTED, events)
    requires |Exec(STARTED, events).queue| < MAX_STAT_QUEUE_SIZE
    requires Enumerates(order, Pool(DoStatStep(Exec(STARTED, events)).queue))
    ensures var p := Exec(STARTED, events);
            Sum(ReportStep(DoStatStep(p), order, max, true).wire, sel, f) == Made([], events, sel, f)
  {
    EverythingReported(events, order, max, sel, f);
    RunRecords(STARTED, events, sel, f);
    assert Heads([]) == [];
  }
}
