/** Tracking-area codes: each base station (eNB) gets a block of consecutive codes; blocks overlap inside a
    group of stations and are disjoint across groups. */
module TrackingAreas {
  import opened Arithmetic
  import opened Collections

  /// Erlang's div and rem truncate toward zero.

  function Div(x: int, y: int): int
    requires y != 0
  {
    if x >= 0 then (if y > 0 then x / y else -(x / -y))
    else if y > 0 then -(-x / y) else -x / -y
  }

  function Rem(x: int, y: int): int
    requires y != 0
  {
    x - Div(x, y) * y
  }

  /** The remainder is smaller than the divisor and takes the sign of the dividend. */
  lemma DivRem(x: int, y: int)
    requires y != 0
    ensures x == Div(x, y) * y + Rem(x, y)
    ensures x >= 0 ==> 0 <= Rem(x, y) < if y > 0 then y else -y
    ensures x <= 0 ==> 0 <= -Rem(x, y) < if y > 0 then y else -y
  {
    var a, b := if x >= 0 then x else -x, if y > 0 then y else -y;
    var q := a / b;
    Euclid(a, b);
    Negate(q, b);
    if (x >= 0) == (y > 0) {
      assert Div(x, y) == q;
    } else {
      assert Div(x, y) == -q;
    }
  }

  lemma Euclid(a: int, b: int)
    requires a >= 0 && b > 0
    ensures 0 <= a - a / b * b < b
  {
  }

  lemma Negate(x: int, y: int)
    ensures -x * y == -(x * y) && x * -y == -(x * y) && -x * -y == x * y
  {
  }

  /** get_first_tac */
  function FirstTac(perEnb: int, overlap: int, groupSize: int, enbId: int): int
    requires groupSize != 0
  {
    var perGroup := perEnb + (perEnb - overlap) * (groupSize - 1);
    var offset := enbId - 1;
    1 + Div(offset, groupSize) * perGroup + Rem(offset, groupSize) * (perEnb - overlap)
  }

  /** get_tac_help, which runs past its last code for ever unless it starts at or below it. */
  function TacsFrom(ta: int, last: int, acc: seq<int>): seq<int>
    requires ta <= last
    decreases last - ta
  {
    if ta == last then Reverse([last] + acc) else TacsFrom(ta + 1, last, [ta] + acc)
  }

  /** get_tac */
  function Tacs(start: int, count: int): seq<int>
    requires count >= 1
  {
    TacsFrom(start, start + count - 1, [])
  }

  lemma {:induction false} TacsFromCounts(ta: int, last: int, acc: seq<int>)
    requires ta <= last
    ensures var r := TacsFrom(ta, last, acc);
            && |r| == |acc| + last - ta + 1
            && r[..|acc|] == Reverse(acc)
            && forall k :: |acc| <= k < |r| ==> r[k] == ta + k - |acc|
    decreases last - ta
  {
    ReverseLength(acc);
    if ta < last {
      TacsFromCounts(ta + 1, last, [ta] + acc);
      var r := TacsFrom(ta, last, acc);
      assert Reverse([ta] + acc) == Reverse(acc) + [ta] by { assert ([ta] + acc)[1..] == acc; }
      assert r[..|acc| + 1] == Reverse(acc) + [ta];
      assert r[..|acc|] == r[..|acc| + 1][..|acc|] && r[|acc|] == r[..|acc| + 1][|acc|];
    } else {
      assert ([last] + acc)[1..] == acc;
    }
  }

  /** get_tac lists `count` consecutive codes in ascending order. */
  lemma TacsAreConsecutive(start: int, count: int)
    requires count >= 1
    ensures |Tacs(start, count)| == count
    ensures forall i :: 0 <= i < count ==> Tacs(start, count)[i] == start + i
  {
    TacsFromCounts(start, start + count - 1, []);
  }

  /// Blocks of stations

  /** Block size, overlap with the neighbour and group size, as the allocation scheme intends them. */
  datatype Scheme = Scheme(perEnb: int, overlap: int, groupSize: int)
  {
    predicate Valid() { perEnb >= 1 && 0 <= overlap <= perEnb && groupSize >= 1 }

    function PerGroup(): int { perEnb + (perEnb - overlap) * (groupSize - 1) }
  }

  /** The codes of one station. */
  function Block(s: Scheme, enb: int): set<int>
    requires s.Valid() && enb >= 1
  {
    set t | t in Tacs(FirstTac(s.perEnb, s.overlap, s.groupSize, enb), s.perEnb)
  }

  /** The codes from lo up to but not including hi, without gaps. */
  ghost predicate IsInterval(xs: set<int>, lo: int, hi: int) {
    forall x :: x in xs <==> lo <= x < hi
  }

  lemma {:induction false} IntervalSize(xs: set<int>, lo: int, hi: int)
    requires IsInterval(xs, lo, hi)
    ensures |xs| == if lo < hi then hi - lo else 0
    decreases hi - lo
  {
    if lo < hi {
      IntervalSize(xs - {hi - 1}, lo, hi - 1);
    } else {
      assert forall x :: x !in xs;
    }
  }

  /** Station j (from 0) of group q starts here. */
  function Start(s: Scheme, q: int, j: int): int {
    1 + q * s.PerGroup() + j * (s.perEnb - s.overlap)
  }

  lemma FirstTacIsStart(s: Scheme, enb: int)
    requires s.Valid() && enb >= 1
    ensures FirstTac(s.perEnb, s.overlap, s.groupSize, enb)
            == Start(s, (enb - 1) / s.groupSize, (enb - 1) % s.groupSize)
  {
  }

  lemma BlockIsInterval(s: Scheme, enb: int)
    requires s.Valid() && enb >= 1
    ensures var f := FirstTac(s.perEnb, s.overlap, s.groupSize, enb);
            IsInterval(Block(s, enb), f, f + s.perEnb)
  {
    var f := FirstTac(s.perEnb, s.overlap, s.groupSize, enb);
    TacsAreConsecutive(f, s.perEnb);
    forall x ensures x in Block(s, enb) <==> f <= x < f + s.perEnb {
      if f <= x < f + s.perEnb { assert Tacs(f, s.perEnb)[x - f] == x; }
    }
  }

  /// Overlap

  /** Two stations of one group, d apart, share exactly as many codes as the overlaps leave. */
  lemma SharedInGroup(s: Scheme, e1: int, e2: int)
    requires s.Valid() && 1 <= e1 <= e2 && (e1 - 1) / s.groupSize == (e2 - 1) / s.groupSize
    ensures var shared := s.perEnb - (e2 - e1) * (s.perEnb - s.overlap);
            |Block(s, e1) * Block(s, e2)| == if shared > 0 then shared else 0
  {
    var q, j1, j2 := (e1 - 1) / s.groupSize, (e1 - 1) % s.groupSize, (e2 - 1) % s.groupSize;
    FirstTacIsStart(s, e1);
    FirstTacIsStart(s, e2);
    BlockIsInterval(s, e1);
    BlockIsInterval(s, e2);
    var step := s.perEnb - s.overlap;
    SameQuotient(e1 - 1, e2 - 1, s.groupSize);
    Distribute(j1, j2 - j1, step);
    ProductNonnegative(j2 - j1, step);
    IntervalSize(Block(s, e1) * Block(s, e2), Start(s, q, j2), Start(s, q, j1) + s.perEnb);
  }

  /** Neighbours in a group share exactly the overlap. */
  lemma NeighboursShareOverlap(s: Scheme, enb: int)
    requires s.Valid() && enb >= 1 && (enb - 1) / s.groupSize == enb / s.groupSize
    ensures |Block(s, enb) * Block(s, enb + 1)| == s.overlap
  {
    SharedInGroup(s, enb, enb + 1);
  }

  /** A group's codes all lie in its own stretch of the line. */
  lemma BlockInGroupStretch(s: Scheme, enb: int)
    requires s.Valid() && enb >= 1
    ensures var q := (enb - 1) / s.groupSize;
            forall x :: x in Block(s, enb) ==> 1 + q * s.PerGroup() <= x < 1 + q * s.PerGroup() + s.PerGroup()
  {
    var j, step := (enb - 1) % s.groupSize, s.perEnb - s.overlap;
    FirstTacIsStart(s, enb);
    BlockIsInterval(s, enb);
    ProductNonnegative(j, step);
    ProductNonnegative(s.groupSize - 1 - j, step);
    Distribute(j, s.groupSize - 1 - j, step);
  }

  /** Stations of different groups share nothing. */
  lemma GroupsDisjoint(s: Scheme, e1: int, e2: int)
    requires s.Valid() && e1 >= 1 && e2 >= 1 && (e1 - 1) / s.groupSize < (e2 - 1) / s.groupSize
    ensures Block(s, e1) !! Block(s, e2)
  {
    var edge := 1 + (e2 - 1) / s.groupSize * s.PerGroup();
    assert forall x :: x in Block(s, e1) ==> x < edge by {
      BlockInGroupStretch(s, e1);
      ProductNonnegative(s.groupSize - 1, s.perEnb - s.overlap);
      StretchesApart((e1 - 1) / s.groupSize, (e2 - 1) / s.groupSize, s.PerGroup());
    }
    assert forall x :: x in Block(s, e2) ==> edge <= x by { BlockInGroupStretch(s, e2); }
    forall x | x in Block(s, e1) ensures x !in Block(s, e2) { assert x < edge; }
  }

  /// Coverage

  /** All codes of the first r stations. */
  function Covered(s: Scheme, r: nat): set<int>
    requires s.Valid()
  {
    if r == 0 then {} else Covered(s, r - 1) + Block(s, r)
  }

  /** The next station starts no further than right after the previous block, and never before it. */
  lemma NextStart(s: Scheme, enb: int)
    requires s.Valid() && enb >= 1
    ensures var f, g := FirstTac(s.perEnb, s.overlap, s.groupSize, enb), FirstTac(s.perEnb, s.overlap, s.groupSize, enb + 1);
            g == if enb % s.groupSize == 0 then f + s.perEnb else f + (s.perEnb - s.overlap)
  {
    FirstTacIsStart(s, enb);
    FirstTacIsStart(s, enb + 1);
    var q, j := (enb - 1) / s.groupSize, (enb - 1) % s.groupSize;
    assert enb - 1 == q * s.groupSize + j;
    if j == s.groupSize - 1 {
      Distribute(q, 1, s.groupSize);
      QuotientOf(enb, q + 1, 0, s.groupSize);
      NextGroupStart(s, q);
    } else {
      QuotientOf(enb, q, j + 1, s.groupSize);
      Distribute(j, 1, s.perEnb - s.overlap);
    }
  }

  lemma NextGroupStart(s: Scheme, q: int)
    ensures Start(s, q + 1, 0) == Start(s, q, s.groupSize - 1) + s.perEnb
  {
    Distribute(q, 1, s.PerGroup());
  }

  /** The first r stations cover an interval from code 1 to the end of the last block, without gaps. */
  lemma {:induction false} GapFree(s: Scheme, r: nat)
    requires s.Valid() && r >= 1
    ensures FirstTac(s.perEnb, s.overlap, s.groupSize, r) >= 1
    ensures IsInterval(Covered(s, r), 1, FirstTac(s.perEnb, s.overlap, s.groupSize, r) + s.perEnb)
  {
    BlockIsInterval(s, r);
    if r == 1 {
      assert Covered(s, 1) == Covered(s, 0) + Block(s, 1);
      FirstTacIsStart(s, 1);
      QuotientOf(0, 0, 0, s.groupSize);
    } else {
      GapFree(s, r - 1);
      NextStart(s, r - 1);
    }
  }

  /** k whole groups use up exactly the first k times the group's share of codes. */
  lemma WholeGroups(s: Scheme, k: nat)
    requires s.Valid() && k >= 1
    ensures k * s.groupSize >= 1
    ensures IsInterval(Covered(s, k * s.groupSize), 1, 1 + k * s.PerGroup())
  {
    Distribute(k - 1, 1, s.groupSize);
    ProductNonnegative(k - 1, s.groupSize);
    var r := k * s.groupSize;
    GapFree(s, r);
    FirstTacIsStart(s, r);
    QuotientOf(r - 1, k - 1, s.groupSize - 1, s.groupSize);
    NextGroupStart(s, k - 1);
  }

  /// Arithmetic

  lemma StretchesApart(q1: int, q2: int, n: nat)
    requires q1 < q2
    ensures q1 * n + n <= q2 * n
  {
    ProductNonnegative(q2 - q1 - 1, n);
    Distribute(q1, q2 - q1, n);
    Distribute(1, q2 - q1 - 1, n);
  }

  lemma SameQuotient(x: int, y: int, n: int)
    requires n > 0 && x / n == y / n
    ensures y % n - x % n == y - x
  {
  }
}
