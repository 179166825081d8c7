/** SeqManager: an array-embedded free list of 16-bit sequence numbers that serves as a FIFO queue. */
module SequenceIds {
  import opened Basics

  const MAX_UNSIGN_SHORT: nat := 0xffff

  datatype SeqInfo = SeqInfo(next: nat, isFree: bool)

  lemma UpToMembers(n: nat)
    ensures NoDuplicates(UpTo(n))
    ensures forall x: nat :: x in UpTo(n) <==> x < n
  {
    forall x: nat | x < n ensures x in UpTo(n) {
      assert UpTo(n)[x] == x;
    }
  }

  /** The chain from `free` to `tail` is exactly `queue`, and exactly its members are marked free. */
  ghost predicate Chained(p: seq<SeqInfo>, free: nat, tail: nat, queue: seq<nat>) {
    && 0 < |p| < MAX_UNSIGN_SHORT
    && NoDuplicates(queue)
    && (forall i :: 0 <= i < |queue| ==> queue[i] < |p|)
    && (queue == [] ==> free == MAX_UNSIGN_SHORT && tail == MAX_UNSIGN_SHORT)
    && (queue != [] ==> free == queue[0] && tail == queue[|queue| - 1] && p[tail].next == MAX_UNSIGN_SHORT)
    && (forall i :: 0 <= i < |queue| - 1 ==> p[queue[i]].next == queue[i + 1])
    && (forall x :: 0 <= x < |p| ==> (p[x].isFree <==> x in queue))
  }

  class SeqManager {
    const num: nat
    const p: array<SeqInfo>
    var free: nat
    var freeTail: nat
    ghost var queue: seq<nat>

    ghost predicate Valid()
      reads this, p
    {
      p.Length == num && Chained(p[..], free, freeTail, queue)
    }

    constructor (iNum: nat)
      requires 0 < iNum < MAX_UNSIGN_SHORT
      ensures Valid() && fresh(p) && num == iNum
      ensures queue == UpTo(iNum)
    {
      num := iNum;
      p := new SeqInfo[iNum];
      free, freeTail := 0, iNum - 1;
      queue := UpTo(iNum);
      new;
      for i := 0 to iNum
        modifies p
        invariant forall x :: 0 <= x < i ==> p[x] == SeqInfo(x + 1, true)
      {
        p[i] := SeqInfo(i + 1, true);
      }
      p[iNum - 1] := p[iNum - 1].(next := MAX_UNSIGN_SHORT);
      UpToMembers(iNum);
    }

    /** Hands out the id that has been free the longest.  The source asserts that one is free. */
    method Get() returns (buf: nat)
      requires Valid() && queue != []
      modifies this`free, this`freeTail, this`queue, p
      ensures Valid()
      ensures buf == old(queue[0]) && queue == old(queue)[1..]
      ensures old(p[buf].isFree) && !p[buf].isFree
    {
      buf := free;
      assert p[buf].isFree by { assert queue[0] in queue; }
      if free == freeTail {
        assert queue[|queue| - 1] == queue[0];
        freeTail := MAX_UNSIGN_SHORT;
      }
      assert |queue| > 1 ==> p[queue[0]].next == queue[1];
      free := p[buf].next;
      p[buf] := p[buf].(isFree := false);
      assert queue == [buf] + queue[1..];
      queue := queue[1..];
    }

    /** Takes a held id back.  The source asserts that it is one. */
    method Del(iSeq: nat)
      requires Valid() && iSeq < num && iSeq !in queue
      modifies this`free, this`freeTail, this`queue, p
      ensures Valid()
      ensures queue == old(queue) + [iSeq]
    {
      assert !p[..][iSeq].isFree;
      p[iSeq] := p[iSeq].(next := MAX_UNSIGN_SHORT);
      if freeTail == MAX_UNSIGN_SHORT {
        assert queue == [];
        free := iSeq;
      } else {
        assert freeTail == queue[|queue| - 1];
        p[freeTail] := p[freeTail].(next := iSeq);
      }
      p[iSeq] := p[iSeq].(isFree := true);
      freeTail := iSeq;
      queue := queue + [iSeq];
    }
  }

  // ----- The chain, read off the array alone -----

  /** Follows the links for at most `steps` steps. */
  ghost function Walk(p: seq<SeqInfo>, from: nat, steps: nat): seq<nat>
    decreases steps
  {
    if steps == 0 || from >= |p| then [] else [from] + Walk(p, p[from].next, steps - 1)
  }

  lemma {:induction false} WalkFrom(p: seq<SeqInfo>, free: nat, tail: nat, queue: seq<nat>, i: nat, steps: nat)
    requires Chained(p, free, tail, queue)
    requires i < |queue| && steps >= |queue| - i
    ensures Walk(p, queue[i], steps) == queue[i..]
    decreases |queue| - i
  {
    if i + 1 < |queue| {
      WalkFrom(p, free, tail, queue, i + 1, steps - 1);
    } else {
      assert Walk(p, p[queue[i]].next, steps - 1) == [];
    }
  }

  /** The chain is acyclic: walking it never visits more than the free slots, each exactly once,
      and ends at the tail, however many steps are allowed beyond their number. */
  lemma ChainIsQueue(p: seq<SeqInfo>, free: nat, tail: nat, queue: seq<nat>, steps: nat)
    requires Chained(p, free, tail, queue) && steps >= |queue|
    ensures Walk(p, free, steps) == queue
  {
    if queue != [] { WalkFrom(p, free, tail, queue, 0, steps); }
  }

  lemma {:induction false} SizeOfMembers(s: seq<nat>)
    requires NoDuplicates(s)
    ensures |Members(s)| == |s|
  {
    if s == [] {
      assert Members(s) == {};
    } else {
      var n := |s| - 1;
      SizeOfMembers(s[..n]);
      assert s == s[..n] + [s[n]];
      assert Members(s) == Members(s[..n]) + {s[n]};
    }
  }

  ghost function Held(p: seq<SeqInfo>): set<nat> {
    set x | x in UpTo(|p|) && x < |p| && !p[x].isFree
  }

  /** Free and held ids together are all the ids. */
  lemma FreePlusHeld(p: seq<SeqInfo>, free: nat, tail: nat, queue: seq<nat>)
    requires Chained(p, free, tail, queue)
    ensures |queue| + |Held(p)| == |p|
  {
    SizeOfMembers(queue);
    UpToMembers(|p|);
    SizeOfMembers(UpTo(|p|));
    assert Members(UpTo(|p|)) == Members(queue) + Held(p);
    assert Members(queue) !! Held(p);
  }

  // ----- Every legal sequence of get and del -----

  datatype Op = GetOp | DelOp(id: nat)

  datatype Pool = Pool(queue: seq<nat>, got: seq<nat>, freed: seq<nat>)

  function Play(s: Pool, op: Op): (r: Pool)
    requires op == GetOp ==> s.queue != []
  {
    match op
    case GetOp => s.(queue := s.queue[1..], got := s.got + [s.queue[0]])
    case DelOp(id) => s.(queue := s.queue + [id], freed := s.freed + [id])
  }

  ghost predicate LegalOps(s: Pool, num: nat, ops: seq<Op>)
    decreases |ops|
  {
    ops != [] ==>
      && (match ops[0] case GetOp => s.queue != [] case DelOp(id) => id < num && id !in s.queue)
      && LegalOps(Play(s, ops[0]), num, ops[1..])
  }

  function PlayAll(s: Pool, num: nat, ops: seq<Op>): (r: Pool)
    requires LegalOps(s, num, ops)
    decreases |ops|
  {
    if ops == [] then s else PlayAll(Play(s, ops[0]), num, ops[1..])
  }

  /** The ids handed out are, in order, the initial ids followed by the ids in the order they were
      freed; what has not been handed out yet is the free queue, and it never repeats an id. */
  lemma {:induction false} FirstFreedFirstServed(s: Pool, num: nat, ops: seq<Op>, first: seq<nat>)
    requires LegalOps(s, num, ops)
    requires s.got + s.queue == first + s.freed && NoDuplicates(s.queue)
    ensures var r := PlayAll(s, num, ops);
            r.got + r.queue == first + r.freed && NoDuplicates(r.queue)
    decreases |ops|
  {
    if ops == [] {
    } else {
      var r := Play(s, ops[0]);
      assert r.got + r.queue == first + r.freed by {
        match ops[0]
        case GetOp => assert s.queue == [s.queue[0]] + s.queue[1..];
        case DelOp(id) => assert r.got + r.queue == (s.got + s.queue) + [id];
      }
      FirstFreedFirstServed(r, num, ops[1..], first);
    }
  }
}
