/** What the endpoint lists given to updateEndpoints come to: which proxies are taken, which of them stands for its
    host, and which weights and change flags they get. */
module EndpointLists {
  import opened Basics
  import opened ConsistentHash

  /** Listing `i` is one of proxy `p`, and is not passed over for want of weight. */
  ghost predicate Lists(list: seq<Listed>, skip: bool, p: nat, i: nat) {
    i < |list| && list[i].0 == p && !(skip && list[i].1 <= 0)
  }

  lemma ListsSnoc(list: seq<Listed>, skip: bool, p: nat)
    requires list != []
    ensures var n := |list| - 1;
            && (forall i: nat :: i < n ==> (Lists(list, skip, p, i) <==> Lists(list[..n], skip, p, i)))
            && (Lists(list, skip, p, n) <==> list[n].0 == p && !Skipped(list[n], skip))
  {
  }

  /** Exactly the proxies with such a listing are taken. */
  lemma {:induction false} TakenIff(list: seq<Listed>, skip: bool, p: nat)
    ensures p in Taken(list, skip) <==> exists i: nat :: Lists(list, skip, p, i)
  {
    if list == [] {
    } else {
      var n := |list| - 1;
      TakenIff(list[..n], skip, p);
      ListsSnoc(list, skip, p);
      if i: nat :| Lists(list, skip, p, i) && i != n {
        assert Lists(list[..n], skip, p, i);
      }
      if i: nat :| Lists(list[..n], skip, p, i) {
        assert Lists(list, skip, p, i);
      }
    }
  }

  /** They are taken in the order of the list. */
  lemma {:induction false} TakenConcat(a: seq<Listed>, b: seq<Listed>, skip: bool)
    ensures Taken(a + b, skip) == Taken(a, skip) + Taken(b, skip)
    decreases |b|
  {
    if b == [] {
      assert a + b == a;
    } else {
      var n := |b| - 1;
      assert (a + b)[..|a| + n] == a + b[..n];
      TakenConcat(a, b[..n], skip);
    }
  }

  /** A host stands for the first of its proxies. */
  ghost predicate FirstFor(ps: seq<nat>, hostOf: nat -> Host, h: Host, i: nat) {
    i < |ps| && hostOf(ps[i]) == h && forall j :: 0 <= j < i ==> hostOf(ps[j]) != h
  }

  lemma {:induction false} FirstOfHostIs(ps: seq<nat>, hostOf: nat -> Host, h: Host)
    ensures h in FirstOfHost(ps, hostOf) <==> exists p :: p in ps && hostOf(p) == h
    ensures h in FirstOfHost(ps, hostOf) ==> exists i: nat :: FirstFor(ps, hostOf, h, i) && FirstOfHost(ps, hostOf)[h] == ps[i]
  {
    if ps == [] {
    } else {
      var n := |ps| - 1;
      FirstOfHostIs(ps[..n], hostOf, h);
      assert ps == ps[..n] + [ps[n]];
      var rest := FirstOfHost(ps[..n], hostOf);
      if h in rest {
        var i: nat :| FirstFor(ps[..n], hostOf, h, i) && rest[h] == ps[..n][i];
        assert FirstFor(ps, hostOf, h, i) && FirstOfHost(ps, hostOf)[h] == ps[i];
      } else if hostOf(ps[n]) == h {
        assert forall j :: 0 <= j < n ==> ps[j] in ps[..n];
        assert FirstFor(ps, hostOf, h, n) && FirstOfHost(ps, hostOf)[h] == ps[n];
      }
    }
  }

  /** Listing `i` is the last one of the proxy. */
  ghost predicate LastListing(list: seq<Listed>, skip: bool, p: nat, i: nat) {
    Lists(list, skip, p, i) && forall j: nat :: i < j ==> !Lists(list, skip, p, j)
  }

  /** A proxy that is not taken keeps its weight and flag; one that is has the weight of its last listing. */
  lemma {:induction false} WeighIs(z: Weighing, list: seq<Listed>, skip: bool, p: nat)
    ensures p !in Taken(list, skip) ==>
              var r := Weigh(z, list, skip);
              (p in r.changed <==> p in z.changed) && (p in r.weight <==> p in z.weight)
              && (p in z.weight ==> r.weight[p] == z.weight[p])
    ensures p in Taken(list, skip) ==>
              p in Weigh(z, list, skip).weight
              && exists i: nat :: LastListing(list, skip, p, i) && Weigh(z, list, skip).weight[p] == list[i].1
  {
    if list == [] {
    } else {
      var n := |list| - 1;
      WeighIs(z, list[..n], skip, p);
      ListsSnoc(list, skip, p);
      if Lists(list, skip, p, n) {
        assert LastListing(list, skip, p, n);
      } else if p in Taken(list, skip) {
        var i: nat :| LastListing(list[..n], skip, p, i) && Weigh(z, list[..n], skip).weight[p] == list[..n][i].1;
        EarlierLast(list, skip, p, i);
      }
    }
  }

  lemma EarlierLast(list: seq<Listed>, skip: bool, p: nat, i: nat)
    requires list != [] && LastListing(list[..|list| - 1], skip, p, i) && !Lists(list, skip, p, |list| - 1)
    ensures LastListing(list, skip, p, i)
  {
    ListsSnoc(list, skip, p);
    forall j: nat | i < j ensures !Lists(list, skip, p, j) {
      assert !Lists(list[..|list| - 1], skip, p, j);
    }
  }

  /** The flag of a proxy is set, or set already, exactly when it is given a weight it did not have. */
  lemma {:induction false} FlagIs(z: Weighing, list: seq<Listed>, skip: bool, p: nat, i: nat)
    requires Lists(list, skip, p, i) && forall j: nat :: j != i ==> !Lists(list, skip, p, j)
    ensures var r := Weigh(z, list, skip);
            && p in r.weight && r.weight[p] == list[i].1
            && (p in r.changed <==> p in z.changed || p !in z.weight || z.weight[p] != list[i].1)
  {
    var n := |list| - 1;
    ListsSnoc(list, skip, p);
    if i < n {
      forall j: nat | j != i ensures !Lists(list[..n], skip, p, j) {
        assert !Lists(list, skip, p, j);
      }
      FlagIs(z, list[..n], skip, p, i);
    } else {
      TakenIff(list[..n], skip, p);
      assert forall j: nat :: j < n ==> !Lists(list, skip, p, j);
      WeighIs(z, list[..n], skip, p);
    }
  }
}
