/** Change for an amount in two ways: greedily from a list of coins, and by listing every way to make it
    from coins of 5, 2 and 1. */
module CoinExchange {

  /// The greedy exchange

  /** A coin that is not positive would be taken for ever. */
  type Coin = c: int | c > 0 witness 1

  /** exchange_int/3: take the current coin while it fits, then move on. */
  function ExchangeFrom(total: int, elements: seq<int>, coins: seq<Coin>): seq<int>
    decreases |coins|, total
  {
    if coins == [] then elements
    else if total >= coins[0] then ExchangeFrom(total - coins[0], elements + [coins[0]], coins)
    else ExchangeFrom(total, elements, coins[1..])
  }

  function Exchange(total: int, coins: seq<Coin>): seq<int>
  {
    ExchangeFrom(total, [], coins)
  }

  function Sum(xs: seq<int>): int {
    if xs == [] then 0 else Sum(xs[..|xs| - 1]) + xs[|xs| - 1]
  }

  /** What is left over is non-negative and smaller than every coin tried, and only listed coins are used. */
  lemma {:induction false} ExchangeFromRemainder(total: int, elements: seq<int>, coins: seq<Coin>)
    requires total >= 0
    ensures var r := ExchangeFrom(total, elements, coins);
            && elements <= r
            && 0 <= total + Sum(elements) - Sum(r)
            && (forall i :: 0 <= i < |coins| ==> total + Sum(elements) - Sum(r) < coins[i])
            && (forall x :: x in r[|elements|..] ==> x in coins)
    decreases |coins|, total
  {
    if coins != [] {
      if total >= coins[0] {
        var next := elements + [coins[0]];
        assert next[..|next| - 1] == elements;
        ExchangeFromRemainder(total - coins[0], next, coins);
        var r := ExchangeFrom(total, elements, coins);
        assert r[|elements|..] == [coins[0]] + r[|next|..];
      } else {
        ExchangeFromRemainder(total, elements, coins[1..]);
        Leftover(total, elements, coins);
      }
    } else {
      assert elements[|elements|..] == [];
    }
  }

  /** What is left over never exceeds what there was. */
  lemma {:induction false} Leftover(total: int, elements: seq<int>, coins: seq<Coin>)
    ensures total + Sum(elements) - Sum(ExchangeFrom(total, elements, coins)) <= total
    decreases |coins|, total
  {
    if coins != [] {
      if total >= coins[0] {
        var next := elements + [coins[0]];
        assert next[..|next| - 1] == elements;
        Leftover(total - coins[0], next, coins);
      } else {
        Leftover(total, elements, coins[1..]);
      }
    }
  }

  /** For positive coins in any order: the result uses listed coins only, and what it leaves unpaid is
      non-negative and smaller than every coin. */
  lemma GreedyRemainder(total: int, coins: seq<Coin>)
    requires total >= 0
    ensures var r := Exchange(total, coins);
            && 0 <= total - Sum(r)
            && (forall i :: 0 <= i < |coins| ==> total - Sum(r) < coins[i])
            && (forall x :: x in r ==> x in coins)
  {
    ExchangeFromRemainder(total, [], coins);
    var r := Exchange(total, coins);
    assert r[0..] == r;
  }

  /// The enumeration

  datatype Triple = Triple(a: int, b: int, c: int)

  predicate Pays(t: Triple, total: int) {
    t.a >= 0 && t.b >= 0 && t.c >= 0 && t.a * 5 + t.b * 2 + t.c == total
  }

  /** exchange_help as its three nested generators, each resumed at the given value. */
  function FromC(total: nat, a: nat, b: nat, c: nat): seq<Triple>
    decreases total + 1 - c
  {
    if c > total then []
    else (if a * 5 + b * 2 + c == total then [Triple(a, b, c)] else []) + FromC(total, a, b, c + 1)
  }

  function FromB(total: nat, a: nat, b: nat): seq<Triple>
    decreases total / 2 + 1 - b
  {
    if b > total / 2 then [] else FromC(total, a, b, 0) + FromB(total, a, b + 1)
  }

  function FromA(total: nat, a: nat): seq<Triple>
    decreases total / 5 + 1 - a
  {
    if a > total / 5 then [] else FromB(total, a, 0) + FromA(total, a + 1)
  }

  function ExchangeHelp(total: nat): seq<Triple> { FromA(total, 0) }

  /** Lexicographic order on triples. */
  predicate Before(s: Triple, t: Triple) {
    s.a < t.a || (s.a == t.a && (s.b < t.b || (s.b == t.b && s.c < t.c)))
  }

  predicate Ascending(ts: seq<Triple>) {
    forall i, j :: 0 <= i < j < |ts| ==> Before(ts[i], ts[j])
  }

  lemma AscendingConcat(xs: seq<Triple>, ys: seq<Triple>)
    requires Ascending(xs) && Ascending(ys) && forall x, y :: x in xs && y in ys ==> Before(x, y)
    ensures Ascending(xs + ys)
  {
    var zs := xs + ys;
    forall i, j | 0 <= i < j < |zs| ensures Before(zs[i], zs[j]) {
      if i < |xs| <= j { assert zs[i] in xs && zs[j] in ys; }
    }
  }

  /** At most one c completes a given a and b. */
  lemma {:induction false} FromCIs(total: nat, a: nat, b: nat, c: nat)
    ensures FromC(total, a, b, c) == if a * 5 + b * 2 + c <= total then [Triple(a, b, total - a * 5 - b * 2)] else []
    decreases total + 1 - c
  {
    if c <= total { FromCIs(total, a, b, c + 1); }
  }

  lemma {:induction false} FromBIs(total: nat, a: nat, b: nat)
    ensures forall t :: t in FromB(total, a, b) <==> Pays(t, total) && t.a == a && t.b >= b
    ensures Ascending(FromB(total, a, b))
    ensures |FromB(total, a, b)| == if a * 5 + b * 2 <= total then (total - a * 5) / 2 - b + 1 else 0
    decreases total / 2 + 1 - b
  {
    if b <= total / 2 {
      FromCIs(total, a, b, 0);
      FromBIs(total, a, b + 1);
      AscendingConcat(FromC(total, a, b, 0), FromB(total, a, b + 1));
      assert forall t :: t in FromB(total, a, b) <==> t in FromC(total, a, b, 0) || t in FromB(total, a, b + 1);
    }
  }

  /** Ways to pay when a fives or more are open: one way for each number of twos, then the same with five less. */
  function Ways(total: int): nat
    decreases total + 5
  {
    if total < 0 then 0 else total / 2 + 1 + Ways(total - 5)
  }

  lemma {:induction false} FromAIs(total: nat, a: nat)
    ensures forall t :: t in FromA(total, a) <==> Pays(t, total) && t.a >= a
    ensures Ascending(FromA(total, a))
    ensures |FromA(total, a)| == Ways(total - a * 5)
    decreases total / 5 + 1 - a
  {
    if a <= total / 5 {
      FromBIs(total, a, 0);
      FromAIs(total, a + 1);
      AscendingConcat(FromB(total, a, 0), FromA(total, a + 1));
      assert forall t :: t in FromA(total, a) <==> t in FromB(total, a, 0) || t in FromA(total, a + 1);
    }
  }

  lemma WaysBelowTen(total: nat)
    requires total < 10
    ensures Ways(total) == (total * total + 8 * total + 26) / 20
  {
    assert Ways(total) == [1, 1, 2, 2, 3, 4, 5, 6, 7, 8][total] by {
      if total >= 5 { assert Ways(total - 10) == 0; }
    }
    assert total * total == [0, 1, 4, 9, 16, 25, 36, 49, 64, 81][total];
  }

  lemma AddTwenties(x: int, k: int)
    ensures (x + 20 * k) / 20 == x / 20 + k
  {
  }

  /** Two coins of five less change the count by a linear amount, so it is quadratic. */
  lemma {:induction false} WaysQuadratic(total: nat)
    ensures Ways(total) == (total * total + 8 * total + 26) / 20
  {
    if total < 10 {
      WaysBelowTen(total);
    } else {
      var rest := total - 10;
      WaysQuadratic(rest);
      assert Ways(total) == Ways(rest) + total - 1;
      var x := rest * rest + 8 * rest + 26;
      assert total * total == rest * rest + 20 * rest + 100;
      AddTwenties(x, total - 1);
    }
  }

  /** exchange_help lists exactly the ways to pay, each once, in ascending order. */
  lemma ListsEveryWayOnce(total: nat)
    ensures forall t :: t in ExchangeHelp(total) <==> Pays(t, total)
    ensures forall i, j :: 0 <= i < j < |ExchangeHelp(total)| ==> ExchangeHelp(total)[i] != ExchangeHelp(total)[j]
    ensures Ascending(ExchangeHelp(total))
  {
    FromAIs(total, 0);
    assert Ascending(ExchangeHelp(total));
  }

  /** Its length is (total + 4)^2 / 20 rounded to the nearest integer. */
  lemma NumberOfWays(total: nat)
    ensures |ExchangeHelp(total)| == (total * total + 8 * total + 26) / 20
    ensures -10 <= (total + 4) * (total + 4) - 20 * |ExchangeHelp(total)| < 10
  {
    FromAIs(total, 0);
    WaysQuadratic(total);
    assert (total + 4) * (total + 4) == total * total + 8 * total + 16;
  }

  /// Greedy against the enumeration

  function Repeat(x: int, n: nat): (r: seq<int>)
    ensures |r| == n
  {
    if n == 0 then [] else Repeat(x, n - 1) + [x]
  }

  lemma {:induction false} RepeatSumStep(x: nat, n: nat)
    requires n > 0
    ensures Sum(Repeat(x, n)) == Sum(Repeat(x, n - 1)) + x
    ensures 0 <= Sum(Repeat(x, n - 1))
  {
    assert Repeat(x, n)[..n - 1] == Repeat(x, n - 1);
    if n > 1 { RepeatSumStep(x, n - 1); }
  }

  lemma MulStep(x: int, n: int)
    ensures x * n == x * (n - 1) + x
  {
  }

  lemma {:induction false} RepeatSum(x: nat, n: nat)
    ensures Sum(Repeat(x, n)) == x * n
  {
    if n > 0 {
      RepeatSumStep(x, n);
      RepeatSum(x, n - 1);
      MulStep(x, n);
    }
  }

  lemma {:induction false} SumConcat(xs: seq<int>, ys: seq<int>)
    ensures Sum(xs + ys) == Sum(xs) + Sum(ys)
  {
    if ys == [] {
      assert xs + ys == xs;
    } else {
      SumConcat(xs, ys[..|ys| - 1]);
      assert (xs + ys)[..|xs + ys| - 1] == xs + ys[..|ys| - 1];
    }
  }

  /** The greedy run takes as many of the current coin as fit. */
  lemma {:induction false} TakesAllThatFit(q: nat, rest: nat, elements: seq<int>, coins: seq<Coin>)
    requires coins != [] && rest < coins[0]
    ensures ExchangeFrom(Sum(Repeat(coins[0], q)) + rest, elements, coins)
            == ExchangeFrom(rest, elements + Repeat(coins[0], q), coins[1..])
    decreases q
  {
    var c := coins[0];
    if q > 0 {
      RepeatSumStep(c, q);
      TakesAllThatFit(q - 1, rest, elements + [c], coins);
      RepeatFront(c, q - 1);
      assert elements + [c] + Repeat(c, q - 1) == elements + ([c] + Repeat(c, q - 1));
    } else {
      assert elements + Repeat(c, 0) == elements;
    }
  }

  lemma {:induction false} RepeatFront(x: int, n: nat)
    ensures [x] + Repeat(x, n) == Repeat(x, n + 1)
  {
    if n > 0 {
      RepeatFront(x, n - 1);
      assert [x] + Repeat(x, n) == [x] + Repeat(x, n - 1) + [x];
    }
  }

  /** The greedy result for coins of 5, 2 and 1, as a triple. */
  function GreedyTriple(total: nat): Triple {
    Triple(total / 5, total % 5 / 2, total % 5 % 2)
  }

  /** So many of each coin, in the order of the coins. */
  function Purse(counts: seq<nat>, coins: seq<Coin>): seq<int>
    requires |counts| == |coins|
  {
    if coins == [] then [] else Repeat(coins[0], counts[0]) + Purse(counts[1..], coins[1..])
  }

  /** Below every coin, the rest of the purse is worth less than that coin. */
  predicate Tight(counts: seq<nat>, coins: seq<Coin>)
    requires |counts| == |coins|
  {
    coins == [] || (0 <= Sum(Purse(counts[1..], coins[1..])) < coins[0] && Tight(counts[1..], coins[1..]))
  }

  /** Greedy change for the worth of a tight purse is that purse. */
  lemma {:induction false} TightPurseIsGreedy(counts: seq<nat>, coins: seq<Coin>, elements: seq<int>)
    requires |counts| == |coins| && Tight(counts, coins)
    ensures ExchangeFrom(Sum(Purse(counts, coins)), elements, coins) == elements + Purse(counts, coins)
    decreases |coins|
  {
    if coins != [] {
      var first, rest := Repeat(coins[0], counts[0]), Purse(counts[1..], coins[1..]);
      calc {
        ExchangeFrom(Sum(Purse(counts, coins)), elements, coins);
      ==  { SumConcat(first, rest); }
        ExchangeFrom(Sum(first) + Sum(rest), elements, coins);
      ==  { TakesAllThatFit(counts[0], Sum(rest), elements, coins); }
        ExchangeFrom(Sum(rest), elements + first, coins[1..]);
      ==  { TightPurseIsGreedy(counts[1..], coins[1..], elements + first); }
        elements + first + rest;
      ==
        elements + (first + rest);
      }
    }
  }

  /** With coins of 5, 2 and 1 the quotients form a tight purse worth the total. */
  lemma QuotientsAreTight(total: nat, counts: seq<nat>, coins: seq<Coin>)
    requires coins == [5, 2, 1] && counts == [total / 5, total % 5 / 2, total % 5 % 2]
    ensures Tight(counts, coins) && Sum(Purse(counts, coins)) == total
    ensures |Purse(counts, coins)| == counts[0] + counts[1] + counts[2]
  {
    var fives, twos, ones := Repeat(coins[0], counts[0]), Repeat(coins[1], counts[1]), Repeat(coins[2], counts[2]);
    RepeatSum(coins[0], counts[0]);
    RepeatSum(coins[1], counts[1]);
    RepeatSum(coins[2], counts[2]);
    var c1, n1 := coins[1..], counts[1..];
    var c2, n2 := c1[1..], n1[1..];
    assert Purse(n2[1..], c2[1..]) == [];
    assert Purse(n2, c2) == ones + [] == ones;
    assert Purse(n1, c1) == twos + ones;
    SumConcat(twos, ones);
    SumConcat(fives, twos + ones);
    assert Tight(n2[1..], c2[1..]);
    assert Tight(n2, c2);
    assert Tight(n1, c1);
  }

  lemma GreedyPays(total: nat, counts: seq<nat>, coins: seq<Coin>)
    requires coins == [5, 2, 1] && counts == [total / 5, total % 5 / 2, total % 5 % 2]
    ensures Sum(Exchange(total, coins)) == total
    ensures |Exchange(total, coins)| == counts[0] + counts[1] + counts[2]
  {
    QuotientsAreTight(total, counts, coins);
    TightPurseIsGreedy(counts, coins, []);
    assert [] + Purse(counts, coins) == Purse(counts, coins);
  }

  /** Greedy change from coins of 5, 2 and 1 pays the total exactly, is one of the listed ways, and no listed
      way uses fewer coins. */
  lemma GreedyOptimal(total: nat, coins: seq<Coin>)
    requires coins == [5, 2, 1]
    ensures Sum(Exchange(total, coins)) == total
    ensures var t := GreedyTriple(total);
            t in ExchangeHelp(total) && |Exchange(total, coins)| == t.a + t.b + t.c
    ensures forall u :: u in ExchangeHelp(total) ==> |Exchange(total, coins)| <= u.a + u.b + u.c
  {
    var t := GreedyTriple(total);
    GreedyPays(total, [t.a, t.b, t.c], coins);
    ListsEveryWayOnce(total);
    assert Pays(t, total);
    forall u | u in ExchangeHelp(total) ensures t.a + t.b + t.c <= u.a + u.b + u.c {
      assert Pays(u, total) && u.a <= t.a;
      assert 5 * (t.a - u.a) + (2 * t.b + t.c) == 2 * u.b + u.c;
    }
  }
}
