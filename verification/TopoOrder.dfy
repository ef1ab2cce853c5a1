/** The order in which the depth-first search outputs its nodes, pinned down on the output itself: items are
    taken from first to last, each brings out what it newly reaches, lists its prerequisites in turn and comes
    last.  No other sequence has this property. */
module TopoOrder {
  import opened TopoSort

  /// What a list of items newly reaches

  /** A path along prerequisite edges that meets no node already seen. */
  ghost predicate FreshPath(g: Graph, p: seq<string>, seen: set<string>) {
    && p != []
    && (forall i :: 0 <= i < |p| ==> p[i] !in seen)
    && forall i :: 0 <= i < |p| - 1 ==> p[i] in g && p[i + 1] in g[p[i]]
  }

  ghost predicate FreshFromTo(g: Graph, p: seq<string>, seen: set<string>, items: seq<string>, y: string) {
    FreshPath(g, p, seen) && p[0] in items && p[|p| - 1] == y
  }

  ghost predicate Fresh(g: Graph, items: seq<string>, seen: set<string>, y: string) {
    exists p :: FreshFromTo(g, p, seen, items, y)
  }

  /** out lists what the items newly reach, once each. */
  ghost predicate Outputs(g: Graph, items: seq<string>, seen: set<string>, out: seq<string>) {
    Distinct(out) && forall y :: y in out <==> Fresh(g, items, seen, y)
  }

  lemma FreshItself(g: Graph, items: seq<string>, seen: set<string>, x: string)
    requires x in items && x !in seen
    ensures Fresh(g, items, seen, x)
  {
    assert FreshFromTo(g, [x], seen, items, x);
  }

  /** What a node's prerequisites newly reach, the node newly reaches. */
  lemma FreshThrough(g: Graph, items: seq<string>, seen: set<string>, x: string, y: string)
    requires x in items && x !in seen && x in g && Fresh(g, g[x], seen + {x}, y)
    ensures Fresh(g, items, seen, y)
  {
    var p :| FreshFromTo(g, p, seen + {x}, g[x], y);
    var q := [x] + p;
    assert forall i :: 0 < i < |q| ==> q[i] == p[i - 1];
    assert FreshFromTo(g, q, seen, items, y);
  }

  lemma FreshFewer(g: Graph, items: seq<string>, seen: set<string>, items': seq<string>, seen': set<string>, y: string)
    requires Elements(items) <= Elements(items') && seen' <= seen && Fresh(g, items, seen, y)
    ensures Fresh(g, items', seen', y)
  {
    var p :| FreshFromTo(g, p, seen, items, y);
    assert p[0] in Elements(items);
    assert FreshFromTo(g, p, seen', items', y);
  }

  /** With nothing seen, newly reached is reached. */
  lemma FreshFromNothing(g: Graph, items: seq<string>, y: string)
    ensures Fresh(g, items, {}, y) <==> exists x :: x in items && Reaches(g, x, y)
  {
    if p :| FreshFromTo(g, p, {}, items, y) {
      assert PathFromTo(g, p, p[0], y);
      assert Reaches(g, p[0], y);
    }
    if x :| x in items && Reaches(g, x, y) {
      var p :| PathFromTo(g, p, x, y);
      forall i | 0 <= i < |p| - 1 ensures p[i] in g && p[i + 1] in g[p[i]] {
        assert p[i + 1] in Prereqs(g, p[i]);
      }
      assert FreshFromTo(g, p, {}, items, y);
    }
  }

  /// The search outputs exactly that

  /** The part of the output a search added. */
  function Added(s: Search, s': Search): seq<string>
    requires s.order <= s'.order
  {
    s'.order[|s.order|..]
  }

  /** Everything a search marks it also outputs, once, together with the prerequisites. */
  ghost predicate Closes(g: Graph, s: Search, s': Search) {
    && s.order <= s'.order
    && Distinct(Added(s, s')) && Elements(Added(s, s')) !! s.seen
    && s'.seen == s.seen + Elements(Added(s, s'))
    && forall x, y :: x in Added(s, s') && y in Prereqs(g, x) ==> y in s'.seen
  }

  lemma ClosesTwice(g: Graph, s: Search, s1: Search, s2: Search)
    requires Closes(g, s, s1) && Closes(g, s1, s2)
    ensures Closes(g, s, s2)
  {
    var xs, ys := Added(s, s1), Added(s1, s2);
    assert Added(s, s2) == xs + ys;
    forall i, j | 0 <= i < |xs| && 0 <= j < |ys| ensures xs[i] != ys[j] {
      assert xs[i] in Elements(xs) && ys[j] in Elements(ys);
    }
    assert Elements(xs + ys) == Elements(xs) + Elements(ys);
  }

  lemma {:induction false} VisitAllCloses(g: Graph, items: seq<string>, s: Search)
    requires Elements(items) <= Nodes(g)
    ensures Closes(g, s, VisitAll(g, items, s)) && Elements(items) <= VisitAll(g, items, s).seen
    decreases Nodes(g) - s.seen, |items|
  {
    if items == [] {
      assert Added(s, s) == [];
    } else {
      assert items[0] in Elements(items) && Elements(items) == {items[0]} + Elements(items[1..]);
      if items[0] in s.seen {
        VisitAllCloses(g, items[1..], s);
      } else {
        var s1 := Visit(g, items[0], s);
        VisitCloses(g, items[0], s);
        VisitAllCloses(g, items[1..], s1);
        ClosesTwice(g, s, s1, VisitAll(g, items[1..], s1));
      }
    }
  }

  lemma {:induction false} VisitCloses(g: Graph, x: string, s: Search)
    requires x in Nodes(g) && x !in s.seen
    ensures Closes(g, s, Visit(g, x, s))
    decreases Nodes(g) - s.seen, 0
  {
    var s0 := Search(s.seen + {x}, s.order);
    var s1, s2 := VisitAll(g, Prereqs(g, x), s0), Visit(g, x, s);
    VisitAllCloses(g, Prereqs(g, x), s0);
    assert Added(s, s2) == Added(s0, s1) + [x];
    assert x !in Elements(Added(s0, s1));
    assert Elements(Added(s, s2)) == Elements(Added(s0, s1)) + {x};
    forall y | y in Prereqs(g, x) ensures y in s2.seen { assert y in Elements(Prereqs(g, x)); }
  }

  /** Only what is newly reached is output. */
  lemma {:induction false} VisitAllFresh(g: Graph, items: seq<string>, s: Search, y: string)
    requires Elements(items) <= Nodes(g) && y in Added(s, VisitAll(g, items, s))
    ensures Fresh(g, items, s.seen, y)
    decreases Nodes(g) - s.seen, |items|
  {
    assert items != [];
    assert items[0] in Elements(items) && Elements(items[1..]) <= Elements(items);
    if items[0] in s.seen {
      VisitAllFresh(g, items[1..], s, y);
      FreshFewer(g, items[1..], s.seen, items, s.seen, y);
    } else {
      var s1 := Visit(g, items[0], s);
      assert Added(s, VisitAll(g, items, s)) == Added(s, s1) + Added(s1, VisitAll(g, items[1..], s1));
      if y in Added(s, s1) {
        VisitFresh(g, items[0], s, items, y);
      } else {
        VisitAllFresh(g, items[1..], s1, y);
        FreshFewer(g, items[1..], s1.seen, items, s.seen, y);
      }
    }
  }

  lemma {:induction false} VisitFresh(g: Graph, x: string, s: Search, items: seq<string>, y: string)
    requires x in Nodes(g) && x !in s.seen && x in items && y in Added(s, Visit(g, x, s))
    ensures Fresh(g, items, s.seen, y)
    decreases Nodes(g) - s.seen, 0
  {
    if y == x {
      FreshItself(g, items, s.seen, x);
    } else {
      var s0 := Search(s.seen + {x}, s.order);
      assert Added(s, Visit(g, x, s)) == Added(s0, VisitAll(g, Prereqs(g, x), s0)) + [x];
      VisitAllFresh(g, Prereqs(g, x), s0, y);
      assert x in g by { var p :| FreshFromTo(g, p, s0.seen, Prereqs(g, x), y); }
      FreshThrough(g, items, s.seen, x, y);
    }
  }

  /** All that is newly reached is output: along a fresh path every node is. */
  lemma {:induction false} PathIsAdded(g: Graph, p: seq<string>, s: Search, s': Search, k: nat)
    requires Closes(g, s, s') && FreshPath(g, p, s.seen) && p[0] in s'.seen && k < |p|
    ensures p[k] in Added(s, s')
  {
    if k > 0 {
      PathIsAdded(g, p, s, s', k - 1);
      assert p[k] in Prereqs(g, p[k - 1]);
    }
    assert p[k] in s'.seen && p[k] in Elements(Added(s, s'));
  }

  lemma VisitAllOutputs(g: Graph, items: seq<string>, s: Search)
    requires Elements(items) <= Nodes(g)
    ensures Outputs(g, items, s.seen, Added(s, VisitAll(g, items, s)))
  {
    var s' := VisitAll(g, items, s);
    VisitAllCloses(g, items, s);
    forall y ensures y in Added(s, s') <==> Fresh(g, items, s.seen, y) {
      if y in Added(s, s') { VisitAllFresh(g, items, s, y); }
      if p :| FreshFromTo(g, p, s.seen, items, y) {
        assert p[0] in Elements(items);
        PathIsAdded(g, p, s, s', |p| - 1);
      }
    }
  }

  /// The order of the output

  /** Item i's turn: the items before it have brought out the first n entries.  If it has been seen by then it
      adds nothing; otherwise its segment goes up to m, ends with it, and before that holds its prerequisites
      in turn. */
  ghost predicate Turn(g: Graph, items: seq<string>, seen: set<string>, out: seq<string>, i: nat, n: nat, m: nat)
    requires i < |items|
    decreases Nodes(g) - seen, 0
  {
    var x := items[i];
    && n <= m <= |out|
    && Outputs(g, items[..i], seen, out[..n])
    && Outputs(g, items[..i + 1], seen, out[..m])
    && if x in seen || x in out[..n] then n == m
       else
         && n < m && out[m - 1] == x && x in Nodes(g)
         && DepthFirst(g, if x in g then g[x] else [], seen + Elements(out[..n]) + {x}, out[n..m - 1])
  }

  ghost predicate HasTurn(g: Graph, items: seq<string>, seen: set<string>, out: seq<string>, i: nat)
    requires i < |items|
    decreases Nodes(g) - seen, 1
  {
    exists n: nat, m: nat :: Turn(g, items, seen, out, i, n, m)
  }

  ghost predicate DepthFirst(g: Graph, items: seq<string>, seen: set<string>, out: seq<string>)
    decreases Nodes(g) - seen, 2
  {
    Outputs(g, items, seen, out) && forall i :: 0 <= i < |items| ==> HasTurn(g, items, seen, out, i)
  }

  /** Visiting the items is visiting the first i and then the others. */
  lemma {:induction false} VisitAllSplit(g: Graph, items: seq<string>, i: nat, s: Search)
    requires Elements(items) <= Nodes(g) && i <= |items|
    ensures Elements(items[..i]) <= Nodes(g) && Elements(items[i..]) <= Nodes(g)
    ensures VisitAll(g, items, s) == VisitAll(g, items[i..], VisitAll(g, items[..i], s))
    decreases i
  {
    assert Elements(items[..i]) <= Elements(items) && Elements(items[i..]) <= Elements(items);
    if i == 0 {
      assert items[..0] == [] && items[0..] == items;
    } else {
      assert items[0] in Elements(items) && Elements(items[1..]) <= Elements(items);
      assert items[1..][..i - 1] == items[..i][1..] && items[1..][i - 1..] == items[i..] && items[..i][0] == items[0];
      VisitAllSplit(g, items[1..], i - 1, if items[0] in s.seen then s else Visit(g, items[0], s));
    }
  }

  /** The search takes its items in turn, whatever it has seen before. */
  lemma {:induction false} VisitAllDepthFirst(g: Graph, items: seq<string>, s: Search)
    requires Elements(items) <= Nodes(g)
    ensures DepthFirst(g, items, s.seen, Added(s, VisitAll(g, items, s)))
    decreases Nodes(g) - s.seen, 1
  {
    var out := Added(s, VisitAll(g, items, s));
    VisitAllOutputs(g, items, s);
    forall i | 0 <= i < |items| ensures HasTurn(g, items, s.seen, out, i) {
      VisitAllSplit(g, items, i, s);
      VisitAllSplit(g, items, i + 1, s);
      var s1, s2 := VisitAll(g, items[..i], s), VisitAll(g, items[..i + 1], s);
      ItemInTurn(g, items, s, i, s1, s2);
      assert out[..|Added(s, s2)|] == Added(s, s2);
      TurnOfPrefix(g, items, s.seen, out, i, |Added(s, s1)|, |Added(s, s2)|);
    }
  }

  /** Turns look no further than their own segment. */
  lemma TurnOfPrefix(g: Graph, items: seq<string>, seen: set<string>, out: seq<string>, i: nat, n: nat, m: nat)
    requires i < |items| && m <= |out| && Turn(g, items, seen, out[..m], i, n, m)
    ensures Turn(g, items, seen, out, i, n, m)
  {
    assert out[..m][..n] == out[..n] && out[..m][..m] == out[..m];
    if n < m { assert out[..m][n..m - 1] == out[n..m - 1]; }
  }

  lemma {:induction false} ItemInTurn(g: Graph, items: seq<string>, s: Search, i: nat, s1: Search, s2: Search)
    requires Elements(items) <= Nodes(g) && i < |items|
    requires Elements(items[..i]) <= Nodes(g) && Elements(items[..i + 1]) <= Nodes(g)
    requires s1 == VisitAll(g, items[..i], s) && s2 == VisitAll(g, items[..i + 1], s)
    ensures Turn(g, items, s.seen, Added(s, s2), i, |Added(s, s1)|, |Added(s, s2)|)
    decreases Nodes(g) - s.seen, 0
  {
    var x, before := items[i], Added(s, s1);
    OneMore(g, items, s, i);
    VisitAllOutputs(g, items[..i], s);
    VisitAllOutputs(g, items[..i + 1], s);
    VisitAllCloses(g, items[..i], s);
    assert x in s1.seen <==> x in s.seen || x in before by { assert x in Elements(before) <==> x in before; }
    if x in s1.seen {
      assert before[..|before|] == before;
    } else {
      var s0 := Search(s1.seen + {x}, s1.order);
      VisitAllDepthFirst(g, Prereqs(g, x), s0);
      LastSegment(g, x, s, s1);
      NewTurn(g, items, s.seen, before, Added(s0, VisitAll(g, Prereqs(g, x), s0)), i);
    }
  }

  /** A node's segment is what its prerequisites add, and then the node. */
  lemma LastSegment(g: Graph, x: string, s: Search, s1: Search)
    requires s.order <= s1.order && x in Nodes(g) && x !in s1.seen
    ensures var s0 := Search(s1.seen + {x}, s1.order);
            Added(s, Visit(g, x, s1)) == Added(s, s1) + Added(s0, VisitAll(g, Prereqs(g, x), s0)) + [x]
  {
  }

  lemma NewTurn(g: Graph, items: seq<string>, seen: set<string>, before: seq<string>, inner: seq<string>, i: nat)
    requires i < |items| && items[i] !in seen && items[i] !in before && items[i] in Nodes(g)
    requires Outputs(g, items[..i], seen, before)
    requires Outputs(g, items[..i + 1], seen, before + inner + [items[i]])
    requires DepthFirst(g, Prereqs(g, items[i]), seen + Elements(before) + {items[i]}, inner)
    ensures var out := before + inner + [items[i]]; Turn(g, items, seen, out, i, |before|, |out|)
  {
    var out := before + inner + [items[i]];
    assert out[..|before|] == before && out[..|out|] == out && out[|before|..|out| - 1] == inner;
  }

  lemma OneMore(g: Graph, items: seq<string>, s: Search, i: nat)
    requires Elements(items) <= Nodes(g) && i < |items|
    ensures items[i] in Nodes(g) && Elements(items[..i]) <= Nodes(g) && Elements(items[..i + 1]) <= Nodes(g)
    ensures var s1 := VisitAll(g, items[..i], s);
            VisitAll(g, items[..i + 1], s) == if items[i] in s1.seen then s1 else Visit(g, items[i], s1)
  {
    var xs := items[..i + 1];
    assert items[i] in Elements(items) && Elements(xs) <= Elements(items);
    VisitAllSplit(g, xs, i, s);
    assert xs[..i] == items[..i] && xs[i..] == [items[i]] && [items[i]][1..] == [];
  }

  /// No other sequence is in this order

  lemma {:induction false} DistinctSize(xs: seq<string>)
    requires Distinct(xs)
    ensures |Elements(xs)| == |xs|
  {
    if xs != [] {
      var n := |xs| - 1;
      DistinctSize(xs[..n]);
      assert Elements(xs) == Elements(xs[..n]) + {xs[n]};
    }
  }

  lemma OutputsAlike(g: Graph, items: seq<string>, seen: set<string>, a: seq<string>, b: seq<string>)
    requires Outputs(g, items, seen, a) && Outputs(g, items, seen, b)
    ensures |a| == |b|
  {
    DistinctSize(a);
    DistinctSize(b);
    assert Elements(a) == Elements(b);
  }

  lemma NothingFromNothing(g: Graph, items: seq<string>, seen: set<string>, out: seq<string>)
    requires Outputs(g, items, seen, out)
    ensures out != [] ==> items != []
  {
    if out != [] {
      assert out[0] in out;
      var p :| FreshFromTo(g, p, seen, items, out[0]);
    }
  }

  /** The items, what was seen before and the graph determine the output. */
  lemma {:induction false} DepthFirstUnique(g: Graph, items: seq<string>, seen: set<string>,
                                            a: seq<string>, b: seq<string>)
    requires DepthFirst(g, items, seen, a) && DepthFirst(g, items, seen, b)
    ensures a == b
    decreases Nodes(g) - seen, |items| + 1, 0
  {
    OutputsAlike(g, items, seen, a, b);
    if items == [] {
      NothingFromNothing(g, items, seen, a);
    } else {
      var n := SamePrefix(g, items, seen, a, b, |items|);
      assert items[..|items|] == items;
      OutputsAlike(g, items, seen, a, a[..n]);
      assert a[..n] == a && b[..n] == b;
    }
  }

  lemma TurnAt(g: Graph, items: seq<string>, seen: set<string>, out: seq<string>, i: nat) returns (n: nat, m: nat)
    requires DepthFirst(g, items, seen, out) && i < |items|
    ensures Turn(g, items, seen, out, i, n, m)
  {
    assert HasTurn(g, items, seen, out, i);
    n, m :| Turn(g, items, seen, out, i, n, m);
  }

  /** After i items two outputs are the same so far. */
  lemma {:induction false} SamePrefix(g: Graph, items: seq<string>, seen: set<string>,
                                      a: seq<string>, b: seq<string>, i: nat)
    returns (n: nat)
    requires DepthFirst(g, items, seen, a) && DepthFirst(g, items, seen, b) && i <= |items|
    ensures n <= |a| && n <= |b| && a[..n] == b[..n] && (i > 0 ==> Outputs(g, items[..i], seen, a[..n]))
    decreases Nodes(g) - seen, i, 1
  {
    if i == 0 { return 0; }
    var k := SamePrefix(g, items, seen, a, b, i - 1);
    var na, ma := TurnAt(g, items, seen, a, i - 1);
    var nb, mb := TurnAt(g, items, seen, b, i - 1);
    if i > 1 {
      OutputsAlike(g, items[..i - 1], seen, a[..na], a[..k]);
    } else {
      NothingFromNothing(g, items[..0], seen, a[..na]);
    }
    OutputsAlike(g, items[..i - 1], seen, a[..na], b[..nb]);
    OutputsAlike(g, items[..i], seen, a[..ma], b[..mb]);
    assert a[..na] == a[..k][..na] == b[..k][..na] == b[..na];
    SameTurn(g, items, seen, a, b, i - 1, na, ma);
    n := ma;
  }

  lemma {:induction false} SameTurn(g: Graph, items: seq<string>, seen: set<string>,
                                    a: seq<string>, b: seq<string>, i: nat, n: nat, m: nat)
    requires i < |items| && Turn(g, items, seen, a, i, n, m) && Turn(g, items, seen, b, i, n, m)
    requires a[..n] == b[..n]
    ensures a[..m] == b[..m]
    decreases Nodes(g) - seen, i + 1, 0
  {
    var x := items[i];
    if x !in seen && x !in a[..n] {
      var listed := if x in g then g[x] else [];
      DepthFirstUnique(g, listed, seen + Elements(a[..n]) + {x}, a[n..m - 1], b[n..m - 1]);
      assert a[..m] == a[..n] + a[n..m - 1] + [x] && b[..m] == b[..n] + b[n..m - 1] + [x];
    }
  }

  /// The whole sort

  /** For every i, what the first i keys reach is a prefix of the output. */
  lemma KeysInTurn(g: Graph, keys: seq<string>, out: seq<string>, i: nat)
    requires DepthFirst(g, keys, {}, out) && i <= |keys|
    ensures exists n :: 0 <= n <= |out| && forall y :: y in out[..n] <==> exists x :: x in keys[..i] && Reaches(g, x, y)
  {
    var n: nat := 0;
    if i > 0 {
      var last := i - 1;
      assert HasTurn(g, keys, {}, out, last);
      var k: nat, m: nat :| Turn(g, keys, {}, out, last, k, m);
      n := m;
    }
    forall y ensures y in out[..n] <==> exists x :: x in keys[..i] && Reaches(g, x, y) {
      FreshFromNothing(g, keys[..i], y);
    }
  }
}
