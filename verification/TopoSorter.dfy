/** The sort as the program runs it: a closure that updates `seen` and `order` in place, started from the
    keys of the map collected in any order and then sorted. */
module TopoSorter {
  import opened TopoSort
  import opened TopoOrder

  /// sort.Strings

  /** Lexicographic order on strings. */
  predicate Leq(a: string, b: string) {
    a == "" || (b != "" && (a[0] < b[0] || (a[0] == b[0] && Leq(a[1..], b[1..]))))
  }

  /** The strings first differ at k, and a has the smaller character there. */
  predicate RisesAt(a: string, b: string, k: nat) {
    k < |a| && k < |b| && a[k] < b[k] && a[..k] == b[..k]
  }

  lemma RisesLater(a: string, b: string, k: nat)
    requires a != "" && b != "" && a[0] == b[0]
    ensures RisesAt(a, b, k + 1) <==> RisesAt(a[1..], b[1..], k)
  {
    if k < |a| - 1 && k < |b| - 1 {
      assert a[..k + 1] == [a[0]] + a[1..][..k] && b[..k + 1] == [b[0]] + b[1..][..k];
    }
  }

  /** A string sorts before its extensions, and otherwise the first difference decides. */
  lemma {:induction false} LeqIs(a: string, b: string)
    ensures Leq(a, b) <==> a <= b || exists k: nat :: RisesAt(a, b, k)
  {
    if a != "" && b != "" && a[0] == b[0] {
      LeqIs(a[1..], b[1..]);
      assert a == [a[0]] + a[1..] && b == [b[0]] + b[1..];
      if k: nat :| RisesAt(a[1..], b[1..], k) { RisesLater(a, b, k); }
      if k: nat :| RisesAt(a, b, k) { RisesLater(a, b, k - 1); }
    } else if a != "" && b != "" {
      assert a[0] < b[0] ==> RisesAt(a, b, 0);
    }
  }

  lemma {:induction false} LeqTotal(a: string, b: string)
    ensures Leq(a, b) || Leq(b, a)
  {
    if a != "" && b != "" { LeqTotal(a[1..], b[1..]); }
  }

  lemma {:induction false} LeqAntisymmetric(a: string, b: string)
    requires Leq(a, b) && Leq(b, a)
    ensures a == b
  {
    if a != "" {
      LeqAntisymmetric(a[1..], b[1..]);
      assert a == [a[0]] + a[1..] && b == [b[0]] + b[1..];
    }
  }

  lemma {:induction false} LeqTransitive(a: string, b: string, c: string)
    requires Leq(a, b) && Leq(b, c)
    ensures Leq(a, c)
  {
    if a != "" && a[0] == b[0] == c[0] { LeqTransitive(a[1..], b[1..], c[1..]); }
  }

  predicate Ordered(keys: seq<string>) {
    forall i, j :: 0 <= i < j < |keys| ==> Leq(keys[i], keys[j])
  }

  function Insert(x: string, keys: seq<string>): (r: seq<string>)
    ensures multiset(r) == multiset(keys) + multiset{x}
  {
    if keys == [] || Leq(x, keys[0]) then [x] + keys
    else
      assert keys == [keys[0]] + keys[1..];
      [keys[0]] + Insert(x, keys[1..])
  }

  function SortStrings(keys: seq<string>): (r: seq<string>)
    ensures multiset(r) == multiset(keys)
  {
    if keys == [] then []
    else
      assert keys == [keys[0]] + keys[1..];
      Insert(keys[0], SortStrings(keys[1..]))
  }

  lemma {:induction false} InsertKeepsOrdered(x: string, keys: seq<string>)
    requires Ordered(keys)
    ensures Ordered(Insert(x, keys))
  {
    if keys == [] {
    } else if Leq(x, keys[0]) {
      forall j | 0 <= j < |keys| ensures Leq(x, keys[j]) {
        if j > 0 { LeqTransitive(x, keys[0], keys[j]); }
      }
    } else {
      LeqTotal(x, keys[0]);
      InsertKeepsOrdered(x, keys[1..]);
      var r := Insert(x, keys[1..]);
      forall j | 0 <= j < |r| ensures Leq(keys[0], r[j]) {
        assert r[j] in multiset(r);
        assert r[j] == x || r[j] in keys[1..];
      }
    }
  }

  lemma {:induction false} SortStringsOrders(keys: seq<string>)
    ensures Ordered(SortStrings(keys))
  {
    if keys != [] {
      SortStringsOrders(keys[1..]);
      InsertKeepsOrdered(keys[0], SortStrings(keys[1..]));
    }
  }

  lemma {:induction false} OrderedUnique(a: seq<string>, b: seq<string>)
    requires Ordered(a) && Ordered(b) && multiset(a) == multiset(b)
    ensures a == b
  {
    assert |a| == |multiset(a)| == |multiset(b)| == |b|;
    if a != [] {
      SameHead(a, b);
      Uncons(a);
      Uncons(b);
      OrderedUnique(a[1..], b[1..]);
    }
  }

  lemma Uncons(a: seq<string>)
    requires a != []
    ensures a == [a[0]] + a[1..] && multiset(a[1..]) == multiset(a) - multiset{a[0]}
  {
    assert a == [a[0]] + a[1..];
  }

  lemma SameHead(a: seq<string>, b: seq<string>)
    requires Ordered(a) && Ordered(b) && a != [] && b != [] && multiset(a) == multiset(b)
    ensures a[0] == b[0]
  {
    assert a[0] in multiset(b) && b[0] in multiset(a);
    HeadIsLeast(a, b[0]);
    HeadIsLeast(b, a[0]);
    LeqAntisymmetric(a[0], b[0]);
  }

  lemma HeadIsLeast(a: seq<string>, x: string)
    requires Ordered(a) && x in a
    ensures Leq(a[0], x)
  {
    if x == a[0] { LeqTotal(x, x); }
  }

  /// Map iteration order

  /** keys lists the keys of g once each, in some order. */
  ghost predicate Enumerates(g: Graph, keys: seq<string>) {
    Distinct(keys) && Elements(keys) == g.Keys
  }

  lemma {:induction false} DistinctMultiset(xs: seq<string>, x: string)
    requires Distinct(xs)
    ensures multiset(xs)[x] == if x in xs then 1 else 0
  {
    if xs != [] {
      assert xs == [xs[0]] + xs[1..];
      DistinctMultiset(xs[1..], x);
    }
  }

  lemma EnumerationsSortAlike(g: Graph, keys: seq<string>, keys': seq<string>)
    requires Enumerates(g, keys) && Enumerates(g, keys')
    ensures SortStrings(keys) == SortStrings(keys')
  {
    forall x ensures multiset(keys)[x] == multiset(keys')[x] {
      DistinctMultiset(keys, x);
      DistinctMultiset(keys', x);
      assert x in keys <==> x in Elements(keys);
      assert x in keys' <==> x in Elements(keys');
    }
    assert multiset(keys) == multiset(keys');
    SortStringsOrders(keys);
    SortStringsOrders(keys');
    OrderedUnique(SortStrings(keys), SortStrings(keys'));
  }

  lemma CountedOnce(xs: seq<string>)
    requires forall x :: multiset(xs)[x] <= 1
    ensures Distinct(xs)
  {
    forall i, j | 0 <= i < j < |xs| ensures xs[i] != xs[j] {
      assert xs == xs[..j] + xs[j..];
      assert xs[i] in multiset(xs[..j]) && xs[j] in multiset(xs[j..]);
      assert multiset(xs)[xs[i]] == multiset(xs[..j])[xs[i]] + multiset(xs[j..])[xs[i]];
    }
  }

  lemma SortedKeysEnumerate(g: Graph, keys: seq<string>)
    requires Enumerates(g, keys)
    ensures Enumerates(g, SortStrings(keys)) && Ordered(SortStrings(keys))
  {
    SortStringsOrders(keys);
    forall x ensures multiset(SortStrings(keys))[x] <= 1 { DistinctMultiset(keys, x); }
    CountedOnce(SortStrings(keys));
    forall x ensures x in SortStrings(keys) <==> x in keys {
      assert x in SortStrings(keys) <==> x in multiset(SortStrings(keys));
      assert x in keys <==> x in multiset(keys);
    }
    assert Elements(SortStrings(keys)) == Elements(keys);
  }

  /// The program

  /** The variables captured by the closure. */
  class Sorter {
    const graph: Graph
    var seen: set<string>
    var order: seq<string>

    constructor (g: Graph)
      ensures graph == g && seen == {} && order == []
    {
      graph, seen, order := g, {}, [];
    }

    method VisitAll(items: seq<string>)
      requires Elements(items) <= Nodes(graph)
      modifies this
      ensures Search(seen, order) == TopoSort.VisitAll(graph, items, Search(old(seen), old(order)))
      ensures old(order) <= order && DepthFirst(graph, items, old(seen), order[|old(order)|..])
      ensures seen == old(seen) + Elements(order[|old(order)|..])
      decreases Nodes(graph) - seen
    {
      ghost var start := Search(seen, order);
      for i := 0 to |items|
        invariant start.seen <= seen
        invariant TopoSort.VisitAll(graph, items, start)
                  == TopoSort.VisitAll(graph, items[i..], Search(seen, order))
      {
        var item := items[i];
        assert item in Elements(items) && items[i..][0] == item && items[i..][1..] == items[i + 1..];
        if item !in seen {
          seen := seen + {item};
          assert Elements(Prereqs(graph, item)) <= Nodes(graph);
          VisitAll(Prereqs(graph, item));
          order := order + [item];
        }
      }
      VisitAllDepthFirst(graph, items, start);
      VisitAllCloses(graph, items, start);
    }
  }

  /** Whatever order the map yields its keys in, the result is the same: the one depth-first output for the
      keys in ascending order.  It lists every node exactly once and keeps each prerequisite ahead of its
      course except on a cycle. */
  method Sort(g: Graph) returns (order: seq<string>)
    ensures forall keys :: Enumerates(g, keys) ==>
              Elements(SortStrings(keys)) == g.Keys && order == Sorted(g, SortStrings(keys))
    ensures exists keys :: Enumerates(g, keys) && Ordered(keys) && DepthFirst(g, keys, {}, order)
    ensures Distinct(order) && Elements(order) == Nodes(g)
    ensures forall i, y :: 0 <= i < |order| && y in Prereqs(g, order[i]) ==> y in order[..i] || Reaches(g, y, order[i])
    ensures IsTopological(g, order) <==> Acyclic(g)
  {
    var keys: seq<string> := [];
    var todo := g.Keys;
    while todo != {}
      invariant Distinct(keys) && todo <= g.Keys && Elements(keys) == g.Keys - todo
      decreases todo
    {
      var key :| key in todo;
      assert key !in Elements(keys);
      assert Elements(keys + [key]) == Elements(keys) + {key};
      keys := keys + [key];
      todo := todo - {key};
    }
    ghost var listed := keys;
    SortedKeysEnumerate(g, keys);
    keys := SortStrings(keys);
    var sorter := new Sorter(g);
    sorter.VisitAll(keys);
    order := sorter.order;
    assert order == order[0..];
    forall ks | Enumerates(g, ks)
      ensures Elements(SortStrings(ks)) == g.Keys && order == Sorted(g, SortStrings(ks))
    {
      EnumerationsSortAlike(g, listed, ks);
    }
    OutputsEveryNodeOnce(g, keys);
    TopologicalIffAcyclic(g, keys);
    SortInvariant(g, keys);
  }
}
