/** Topological sort by depth-first search over the prerequisite map: the recursion as a function, and what
    its output promises on every graph, cyclic or not. */
module TopoSort {
  type Graph = map<string, seq<string>>

  /** A missing key reads as the empty list. */
  function Prereqs(g: Graph, x: string): seq<string> {
    if x in g then g[x] else []
  }

  function Elements(xs: seq<string>): set<string> {
    set x | x in xs
  }

  /** Every key and every listed prerequisite. */
  function Nodes(g: Graph): set<string> {
    g.Keys + set x, y | x in g.Keys && y in g[x] :: y
  }

  datatype Search = Search(seen: set<string>, order: seq<string>)

  /** visitAll: visit the unseen items in turn, each after everything listed for it. */
  function VisitAll(g: Graph, items: seq<string>, s: Search): (s': Search)
    requires Elements(items) <= Nodes(g)
    ensures s.seen <= s'.seen && s.order <= s'.order
    decreases Nodes(g) - s.seen, |items|
  {
    if items == [] then s
    else
      assert items[0] in Elements(items) && Elements(items[1..]) <= Elements(items);
      if items[0] in s.seen then VisitAll(g, items[1..], s)
      else VisitAll(g, items[1..], Visit(g, items[0], s))
  }

  /** One unseen item: mark it, visit what it lists, then append it. */
  function Visit(g: Graph, x: string, s: Search): (s': Search)
    requires x in Nodes(g) && x !in s.seen
    ensures s.seen + {x} <= s'.seen && s.order <= s'.order
    decreases Nodes(g) - s.seen, 0
  {
    var s1 := VisitAll(g, Prereqs(g, x), Search(s.seen + {x}, s.order));
    Search(s1.seen, s1.order + [x])
  }

  /// Reachability along prerequisite edges

  ghost predicate IsPath(g: Graph, p: seq<string>) {
    p != [] && forall i :: 0 <= i < |p| - 1 ==> p[i + 1] in Prereqs(g, p[i])
  }

  ghost predicate PathFromTo(g: Graph, p: seq<string>, x: string, y: string) {
    IsPath(g, p) && p[0] == x && p[|p| - 1] == y
  }

  /** y is reached from x by following prerequisite edges, in any number of steps. */
  ghost predicate Reaches(g: Graph, x: string, y: string) {
    exists p :: PathFromTo(g, p, x, y)
  }

  lemma ReachesItself(g: Graph, x: string)
    ensures Reaches(g, x, x)
  {
    assert PathFromTo(g, [x], x, x);
  }

  lemma ReachesFurther(g: Graph, x: string, y: string, z: string)
    requires Reaches(g, x, y) && z in Prereqs(g, y)
    ensures Reaches(g, x, z)
  {
    var p :| PathFromTo(g, p, x, y);
    assert PathFromTo(g, p + [z], x, z);
  }

  /// The invariant of the search

  ghost predicate Distinct(xs: seq<string>) {
    forall i, j :: 0 <= i < j < |xs| ==> xs[i] != xs[j]
  }

  /** Every prerequisite of the i-th output comes before it, unless the two lie on a cycle. */
  ghost predicate EdgesRespected(g: Graph, order: seq<string>) {
    forall i, y :: 0 <= i < |order| && y in Prereqs(g, order[i]) ==> y in order[..i] || Reaches(g, y, order[i])
  }

  /** What a finished node lists has been seen. */
  ghost predicate Closed(g: Graph, s: Search) {
    forall x, y :: x in s.order && y in Prereqs(g, x) ==> y in s.seen
  }

  /** `grey` are the nodes still on the call stack; the others seen are in the output. */
  ghost predicate Consistent(g: Graph, s: Search, grey: set<string>) {
    && s.seen == grey + Elements(s.order)
    && grey !! Elements(s.order)
    && s.seen <= Nodes(g)
    && Distinct(s.order)
    && EdgesRespected(g, s.order)
    && Closed(g, s)
  }

  /** Each node on the call stack reaches every item about to be visited. */
  ghost predicate StackReaches(g: Graph, grey: set<string>, items: seq<string>) {
    forall x, y :: x in grey && y in items ==> Reaches(g, x, y)
  }

  lemma {:induction false} VisitAllKeepsOrder(g: Graph, items: seq<string>, s: Search, grey: set<string>)
    requires Elements(items) <= Nodes(g) && Consistent(g, s, grey) && StackReaches(g, grey, items)
    ensures var s' := VisitAll(g, items, s); Consistent(g, s', grey) && Elements(items) <= s'.seen
    decreases Nodes(g) - s.seen, |items|
  {
    if items != [] {
      assert items[0] in Elements(items) && Elements(items[1..]) <= Elements(items);
      if items[0] in s.seen {
        VisitAllKeepsOrder(g, items[1..], s, grey);
      } else {
        VisitKeepsOrder(g, items[0], s, grey);
        VisitAllKeepsOrder(g, items[1..], Visit(g, items[0], s), grey);
      }
      assert Elements(items) == {items[0]} + Elements(items[1..]);
    }
  }

  lemma {:induction false} VisitKeepsOrder(g: Graph, x: string, s: Search, grey: set<string>)
    requires x in Nodes(g) && x !in s.seen && Consistent(g, s, grey) && StackReaches(g, grey, [x])
    ensures Consistent(g, Visit(g, x, s), grey)
    decreases Nodes(g) - s.seen, 0
  {
    var grey' := grey + {x};
    ReachesItself(g, x);
    forall y, z | y in grey' && z in Prereqs(g, x) ensures Reaches(g, y, z) {
      assert x in [x];
      ReachesFurther(g, y, x, z);
    }
    VisitAllKeepsOrder(g, Prereqs(g, x), Search(s.seen + {x}, s.order), grey');
    FinishNode(g, x, VisitAll(g, Prereqs(g, x), Search(s.seen + {x}, s.order)), grey);
  }

  /** Appending x once all it lists is seen: what is not yet in the output is on the stack and so reaches x. */
  lemma FinishNode(g: Graph, x: string, s: Search, grey: set<string>)
    requires x !in grey && Consistent(g, s, grey + {x}) && Elements(Prereqs(g, x)) <= s.seen
    requires StackReaches(g, grey, [x])
    ensures Consistent(g, Search(s.seen, s.order + [x]), grey)
  {
    var order := s.order + [x];
    assert Elements(order) == Elements(s.order) + {x};
    ReachesItself(g, x);
    forall i, y | 0 <= i < |order| && y in Prereqs(g, order[i]) ensures y in order[..i] || Reaches(g, y, order[i]) {
      if i == |s.order| {
        assert order[..i] == s.order && x in [x] && y in Elements(Prereqs(g, x));
      } else {
        assert order[..i] == s.order[..i];
      }
    }
  }

  /// The whole sort

  function Sorted(g: Graph, keys: seq<string>): seq<string>
    requires Elements(keys) <= Nodes(g)
  {
    VisitAll(g, keys, Search({}, [])).order
  }

  lemma SortInvariant(g: Graph, keys: seq<string>)
    requires Elements(keys) <= Nodes(g)
    ensures var s := VisitAll(g, keys, Search({}, []));
            Consistent(g, s, {}) && Elements(keys) <= Elements(s.order) == s.seen
  {
    assert Elements([]) == {};
    VisitAllKeepsOrder(g, keys, Search({}, []), {});
  }

  /** Started from all keys, the search outputs each key and each listed prerequisite exactly once and nothing else. */
  lemma OutputsEveryNodeOnce(g: Graph, keys: seq<string>)
    requires Elements(keys) == g.Keys
    ensures Distinct(Sorted(g, keys)) && Elements(Sorted(g, keys)) == Nodes(g)
  {
    SortInvariant(g, keys);
    var order := Sorted(g, keys);
    forall x, y | x in g.Keys && y in g[x] ensures y in order {
      assert x in Elements(keys) && x in order && y in Prereqs(g, x);
      assert y in Elements(order);
    }
  }

  /** On any graph, for every listed edge from a course to a prerequisite: the prerequisite comes strictly
      before the course in the output, or the course is itself reachable from the prerequisite. */
  lemma EdgeOrder(g: Graph, keys: seq<string>, i: nat, y: string)
    requires Elements(keys) == g.Keys && i < |Sorted(g, keys)| && y in Prereqs(g, Sorted(g, keys)[i])
    ensures y in Sorted(g, keys)[..i] || Reaches(g, y, Sorted(g, keys)[i])
  {
    SortInvariant(g, keys);
  }

  /// Exactly the acyclic graphs have a topological order

  ghost predicate Acyclic(g: Graph) {
    forall x, y :: y in Prereqs(g, x) ==> !Reaches(g, y, x)
  }

  ghost predicate IsTopological(g: Graph, order: seq<string>) {
    && Distinct(order) && Elements(order) == Nodes(g)
    && forall i, y :: 0 <= i < |order| && y in Prereqs(g, order[i]) ==> y in order[..i]
  }

  function IndexOf(order: seq<string>, x: string): (i: nat)
    requires x in order
    ensures i < |order| && order[i] == x && forall k :: 0 <= k < i ==> order[k] != x
  {
    if order[0] == x then 0
    else
      assert order == [order[0]] + order[1..];
      1 + IndexOf(order[1..], x)
  }

  lemma EdgeDescends(g: Graph, order: seq<string>, x: string, y: string)
    requires IsTopological(g, order) && x in order && y in Prereqs(g, x)
    ensures y in order && IndexOf(order, y) < IndexOf(order, x)
  {
    var i := IndexOf(order, x);
    assert y in order[..i];
    var j := IndexOf(order[..i], y);
    assert order[j] == y;
  }

  /** In a topological order positions fall along every path. */
  lemma {:induction false} PathDescends(g: Graph, order: seq<string>, p: seq<string>)
    requires IsTopological(g, order) && IsPath(g, p) && p[0] in order
    ensures p[|p| - 1] in order && IndexOf(order, p[|p| - 1]) <= IndexOf(order, p[0])
    decreases |p|
  {
    if |p| > 1 {
      EdgeDescends(g, order, p[0], p[1]);
      forall m | 0 <= m < |p[1..]| - 1 ensures p[1..][m + 1] in Prereqs(g, p[1..][m]) {
        assert p[1..][m] == p[m + 1] && p[1..][m + 1] == p[m + 2];
      }
      PathDescends(g, order, p[1..]);
    }
  }

  lemma TopologicalMeansAcyclic(g: Graph, order: seq<string>)
    requires IsTopological(g, order)
    ensures Acyclic(g)
  {
    forall x, y | y in Prereqs(g, x) ensures !Reaches(g, y, x) {
      assert x in Elements(order);
      EdgeDescends(g, order, x, y);
      forall p ensures !PathFromTo(g, p, y, x) {
        if PathFromTo(g, p, y, x) { PathDescends(g, order, p); }
      }
    }
  }

  /** The output is a full topological order if and only if the graph is acyclic. */
  lemma TopologicalIffAcyclic(g: Graph, keys: seq<string>)
    requires Elements(keys) == g.Keys
    ensures IsTopological(g, Sorted(g, keys)) <==> Acyclic(g)
  {
    if IsTopological(g, Sorted(g, keys)) { TopologicalMeansAcyclic(g, Sorted(g, keys)); }
    if Acyclic(g) {
      OutputsEveryNodeOnce(g, keys);
      SortInvariant(g, keys);
    }
  }
}
