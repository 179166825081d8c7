/** Three endpoints of equal weight: each three rounds rotate them, so a turn need not restore their order. */
module TiedWeights {
  import opened WeightedRouter
  import opened RouterTable
  import opened SchedulePeriod

  /** Scaled weight `x` each, beginning with endpoint `r % 3`. */
  function ThreeOf(x: nat, r: nat): (m: seq<Entry>) {
    [Entry(x, r % 3), Entry(x, (r + 1) % 3), Entry(x, (r + 2) % 3)]
  }

  function Equal(x: nat): (w: map<nat, nat>) { map[0 := x, 1 := x, 2 := x] }

  lemma ThreeIds(x: nat, r: nat)
    ensures multiset(Ids(ThreeOf(x, r))) == multiset(Equal(x).Keys)
  {
    assert Ids(ThreeOf(x, r)) == [r % 3, (r + 1) % 3, (r + 2) % 3];
    assert Equal(x).Keys == {0, 1, 2};
    ThreeResidues(r);
  }

  lemma NextResidues(r: nat)
    ensures (r + 1) % 3 == (if r % 3 == 2 then 0 else r % 3 + 1)
    ensures (r + 2) % 3 == (if r % 3 == 0 then 2 else r % 3 - 1)
  {
  }

  lemma ThreeResidues(r: nat)
    ensures multiset([r % 3, (r + 1) % 3, (r + 2) % 3]) == multiset{0, 1, 2}
  {
    NextResidues(r);
    var a: nat, b: nat, c: nat := r % 3, (r + 1) % 3, (r + 2) % 3;
    OneOfThree(a, b, c);
  }

  lemma OneOfThree(a: nat, b: nat, c: nat)
    requires a < 3 && b == (if a == 2 then 0 else a + 1) && c == (if a == 0 then 2 else a - 1)
    ensures multiset([a, b, c]) == multiset{0, 1, 2}
  {
  }

  lemma RoundOfThree(a: Entry, b: Entry, c: Entry, w: map<nat, nat>, total: nat)
    requires a.id in w && b.id in w && c.id in w
    ensures Round([a, b, c], w, total) ==
            Insert(Insert([Entry(c.key - total + w[c.id], c.id)], Entry(b.key + w[b.id], b.id)), Entry(a.key + w[a.id], a.id))
  {
    var m := [a, b, c];
    assert m[..2] == [a, b] && [a, b][..1] == [a] && [a][..0] == [];
    var acc := [Charged(m, w, total)];
    var acc1 := Insert(acc, Entry(b.key + w[b.id], b.id));
    var acc2 := Insert(acc1, Entry(a.key + w[a.id], a.id));
    assert Reinsert([a, b], w, acc) == Reinsert([a], w, acc1);
    assert Reinsert([a], w, acc1) == Reinsert([], w, acc2);
  }

  lemma InsertIntoTwo(x: Entry, y: Entry, e: Entry)
    ensures Insert([x], y) == if y.key < x.key then [y, x] else [x, y]
    ensures Insert([x, y], e) == if e.key < x.key then [e, x, y] else if e.key < y.key then [x, e, y] else [x, y, e]
  {
    assert [x][1..] == [] && [x, y][1..] == [y] && [y][1..] == [];
    assert Insert([], y) == [y] && Insert([], e) == [e];
    assert Insert([y], e) == if e.key < y.key then [e, y] else [y, e];
  }

  lemma FirstOfThree(x: nat, a: nat, b: nat, c: nat)
    requires x > 0 && a < 3 && b < 3 && c < 3
    ensures Round([Entry(x, a), Entry(x, b), Entry(x, c)], Equal(x), 3 * x) == [Entry(0 - x, c), Entry(2 * x, b), Entry(2 * x, a)]
  {
    RoundOfThree(Entry(x, a), Entry(x, b), Entry(x, c), Equal(x), 3 * x);
    InsertIntoTwo(Entry(0 - x, c), Entry(2 * x, b), Entry(2 * x, a));
  }

  lemma SecondOfThree(x: nat, a: nat, b: nat, c: nat)
    requires x > 0 && a < 3 && b < 3 && c < 3
    ensures Round([Entry(0 - x, c), Entry(2 * x, b), Entry(2 * x, a)], Equal(x), 3 * x) == [Entry(0, a), Entry(0, c), Entry(3 * x, b)]
  {
    RoundOfThree(Entry(0 - x, c), Entry(2 * x, b), Entry(2 * x, a), Equal(x), 3 * x);
    InsertIntoTwo(Entry(0, a), Entry(3 * x, b), Entry(0, c));
  }

  lemma ThirdOfThree(x: nat, a: nat, b: nat, c: nat)
    requires x > 0 && a < 3 && b < 3 && c < 3
    ensures Round([Entry(0, a), Entry(0, c), Entry(3 * x, b)], Equal(x), 3 * x) == [Entry(x, b), Entry(x, c), Entry(x, a)]
  {
    RoundOfThree(Entry(0, a), Entry(0, c), Entry(3 * x, b), Equal(x), 3 * x);
    InsertIntoTwo(Entry(x, b), Entry(x, c), Entry(x, a));
  }

  /** Three rounds serve each endpoint once, from the last to the second, and rotate them. */
  lemma ThreeRoundsRotate(x: nat, r: nat)
    requires x > 0 && multiset(Ids(ThreeOf(x, r))) == multiset(Equal(x).Keys)
    ensures Run(ThreeOf(x, r), Equal(x), 3 * x, 3) == Progress(ThreeOf(x, r + 1), [(r + 2) % 3, r % 3, (r + 1) % 3])
  {
    FirstOfThree(x, r % 3, (r + 1) % 3, (r + 2) % 3);
    SecondOfThree(x, r % 3, (r + 1) % 3, (r + 2) % 3);
    ThirdOfThree(x, r % 3, (r + 1) % 3, (r + 2) % 3);
    RunStep(ThreeOf(x, r), Equal(x), 3 * x, 0);
    RunStep(ThreeOf(x, r), Equal(x), 3 * x, 1);
    RunStep(ThreeOf(x, r), Equal(x), 3 * x, 2);
    assert (r + 3) % 3 == r % 3;
  }

  lemma NoRounds(m: seq<Entry>, w: map<nat, nat>, total: nat)
    requires m != [] && multiset(Ids(m)) == multiset(w.Keys)
    ensures Run(m, w, total, 0).state == m
  {
  }

  lemma {:induction false} Rotated(x: nat, k: nat)
    requires x > 0 && multiset(Ids(ThreeOf(x, 0))) == multiset(Equal(x).Keys)
    ensures Run(ThreeOf(x, 0), Equal(x), 3 * x, 3 * k).state == ThreeOf(x, k)
    decreases k
  {
    hide Run, ThreeOf;
    if k == 0 {
      NoRounds(ThreeOf(x, 0), Equal(x), 3 * x);
    } else {
      Rotated(x, k - 1);
      ThreeIds(x, k - 1);
      ThreeRoundsRotate(x, k - 1);
      RunSplit(ThreeOf(x, 0), Equal(x), 3 * x, 3 * (k - 1), 3);
      assert 3 * (k - 1) + 3 == 3 * k;
    }
  }

  lemma SameRotation(x: nat, k: nat)
    ensures ThreeOf(x, 0) != [] && (ThreeOf(x, k) == ThreeOf(x, 0) <==> k % 3 == 0)
  {
  }

  /** Rounds in threes are a period exactly when the rotations they make are none. */
  lemma RotationsPeriod(x: nat, k: nat)
    requires x > 0 && multiset(Ids(ThreeOf(x, 0))) == multiset(Equal(x).Keys)
    ensures Period(ThreeOf(x, 0), Equal(x), 3 * x, 3 * k) <==> k > 0 && k % 3 == 0
  {
    hide Run, Period, ThreeOf;
    Rotated(x, k);
    SameRotation(x, k);
    PeriodIff(ThreeOf(x, 0), Equal(x), 3 * x, 3 * k);
  }

  lemma TurnsAsRotations(x: nat, d: nat)
    requires x > 0
    ensures d * (3 * x) == 3 * (d * x) && (d * x > 0 <==> d > 0)
  {
  }

  /** So many turns are a period exactly when they make a multiple of three rotations. */
  lemma ThreeEqualPeriod(x: nat, d: nat)
    requires x > 0
    ensures multiset(Ids(ThreeOf(x, 0))) == multiset(Equal(x).Keys)
    ensures Period(ThreeOf(x, 0), Equal(x), 3 * x, d * (3 * x)) <==> d > 0 && d * x % 3 == 0
  {
    hide Period, Run;
    ThreeIds(x, 0);
    TurnsAsRotations(x, d);
    RotationsPeriod(x, d * x);
  }

  lemma SevensScale()
    ensures Scaled([7, 7, 7]) == [10, 10, 10]
  {
    var ws: seq<nat> := [7, 7, 7];
    assert Minimum(ws) == 7 && Maximum(ws) == 7;
    assert Range(7, 7) == 10 && ScaleOne(7, 7, 7) == 10;
  }

  /** Three endpoints of weight 7, say, are such a router. */
  lemma ThreeEqualReached()
    ensures Scaled([7, 7, 7]) == [10, 10, 10]
    ensures Load(Scaled([7, 7, 7]), [0, 1, 2]) == Router(Equal(10), ThreeOf(10, 0), 30, [])
  {
    hide Scaled;
    SevensScale();
    var sw: seq<nat>, ids: seq<nat> := [10, 10, 10], [0, 1, 2];
    assert sw[..2] == [10, 10] && sw[..2][..1] == [10] && sw[..2][..1][..0] == [];
    assert ids[..2] == [0, 1] && ids[..2][..1] == [0] && ids[..2][..1][..0] == [];
    assert Load(sw[..2][..1][..0], ids[..2][..1][..0]) == Router(map[], [], 0, []);
    assert Load(sw[..2][..1], ids[..2][..1]) == Router(map[0 := 10], [Entry(10, 0)], 10, []);
    InsertIntoTwo(Entry(10, 0), Entry(10, 1), Entry(10, 2));
    assert Load(sw[..2], ids[..2]) == Router(map[0 := 10, 1 := 10], [Entry(10, 0), Entry(10, 1)], 20, []);
  }

  /** The first turn begins with endpoint 2 and the second with endpoint 0; three turns restore the order. */
  lemma TieOrderChanges()
    ensures multiset(Ids(ThreeOf(10, 0))) == multiset(Equal(10).Keys)
    ensures Picked(ThreeOf(10, 0)) == 2 && Picked(Run(ThreeOf(10, 0), Equal(10), 30, 30).state) == 0
    ensures !Period(ThreeOf(10, 0), Equal(10), 30, 30) && !Period(ThreeOf(10, 0), Equal(10), 30, 60)
    ensures Period(ThreeOf(10, 0), Equal(10), 30, 90)
  {
    hide Period, Run;
    ThreeIds(10, 0);
    RotationsPeriod(10, 10);
    RotationsPeriod(10, 20);
    RotationsPeriod(10, 30);
    Rotated(10, 10);
  }
}
