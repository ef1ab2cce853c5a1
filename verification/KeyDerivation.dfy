/** The 16-octet key derived from a packed subscriber number, and how far it identifies the number. */
module KeyDerivation {
  import opened Bcd
  import opened Collections

  function SubList(xs: seq<Octet>, n: nat): seq<Octet> {
    if |xs| <= n then xs else xs[..n]
  }

  function Swapped(oct: Octet): Octet {
    ((oct & 0x0f) << 4) + ((oct & 0xf0) >> 4)
  }

  function SwapDigits(octs: seq<Octet>, result: seq<Octet>): seq<Octet> {
    if octs == [] then result else SwapDigits(octs[1..], [Swapped(octs[0])] + result)
  }

  function SwapAndShiftDigits(dig: Octet, octs: seq<Octet>, result: seq<Octet>): seq<Octet>
    decreases |octs|
  {
    if octs == [] then result
    else SwapAndShiftDigits(octs[0] & 0x0f, octs[1..], [(octs[0] & 0xf0) + dig] + result)
  }

  function Zeros(n: nat): (r: seq<Octet>)
    ensures |r| == n && forall i :: 0 <= i < n ==> r[i] == 0
  {
    seq(n, _ => 0)
  }

  const SALT: seq<Octet> := [0x12, 0x34, 0x56, 0x78]

  /** Last octet first, and not empty when there is any octet. */
  function Reversed(imsi: seq<Octet>): (r: seq<Octet>)
    requires imsi != []
    ensures |r| == |imsi| && r[0] == imsi[|imsi| - 1]
  {
    ReverseAt(imsi, 0);
    Reverse(imsi)
  }

  /** Imsi8PlainBCD in get_ki. */
  function Plain8(imsi: seq<Octet>): seq<Octet>
    requires imsi != []
  {
    var reversed := Reversed(imsi);
    if reversed[0] >= 0xf0 then SwapAndShiftDigits(reversed[0] & 0x0f, SubList(reversed[1..], 4), [])
    else SwapDigits(SubList(reversed, 4), [])
  }

  /** ImsiPlainBCD in get_ki. */
  function Plain(imsi: seq<Octet>): seq<Octet>
    requires imsi != []
  {
    var reversed := Reversed(imsi);
    if reversed[0] >= 0xf0 then SwapDigits([reversed[0] & 0x0f] + reversed[1..], []) else SwapDigits(reversed, [])
  }

  /** get_ki: None where the source fails, on an empty number and on one that needs more than 8 octets. */
  function GetKi(imsi: seq<Octet>): Option<seq<Octet>> {
    if imsi == [] || |Plain(imsi)| > 8 then None
    else Some(Plain8(imsi) + Plain(imsi) + Zeros(8 - |Plain(imsi)|) + SALT)
  }

  /// What the list functions compute, position by position

  lemma {:induction false} SwapDigitsIs(octs: seq<Octet>, result: seq<Octet>)
    ensures var r := SwapDigits(octs, result);
            && |r| == |octs| + |result|
            && (forall i :: 0 <= i < |octs| ==> r[i] == Swapped(octs[|octs| - 1 - i]))
            && r[|octs|..] == result
    decreases |octs|
  {
    if octs != [] {
      var next := [Swapped(octs[0])] + result;
      SwapDigitsIs(octs[1..], next);
      var r := SwapDigits(octs, result);
      assert r[|octs| - 1..][0] == r[|octs| - 1] == Swapped(octs[0]);
      assert r[|octs|..] == r[|octs| - 1..][1..] == result;
    }
  }

  /** The low nibble that ends up beside the k-th high nibble: the one carried over from the octet before. */
  function Carried(dig: Octet, octs: seq<Octet>, k: nat): Octet
    requires k < |octs|
  {
    if k == 0 then dig else octs[k - 1] & 0x0f
  }

  lemma {:induction false} SwapAndShiftIs(dig: Octet, octs: seq<Octet>, result: seq<Octet>)
    ensures var r := SwapAndShiftDigits(dig, octs, result);
            && |r| == |octs| + |result|
            && (forall k :: 0 <= k < |octs| ==> r[|octs| - 1 - k] == (octs[k] & 0xf0) + Carried(dig, octs, k))
            && r[|octs|..] == result
    decreases |octs|
  {
    if octs != [] {
      var next := [(octs[0] & 0xf0) + dig] + result;
      SwapAndShiftIs(octs[0] & 0x0f, octs[1..], next);
      var r := SwapAndShiftDigits(dig, octs, result);
      assert r[|octs| - 1..][0] == r[|octs| - 1];
      assert r[|octs|..] == r[|octs| - 1..][1..] == result;
      forall k | 0 <= k < |octs| ensures r[|octs| - 1 - k] == (octs[k] & 0xf0) + Carried(dig, octs, k) {
        if k > 0 {
          assert octs[1..][k - 1] == octs[k];
          assert Carried(octs[0] & 0x0f, octs[1..], k - 1) == Carried(dig, octs, k);
          assert r[|octs[1..]| - 1 - (k - 1)] == (octs[1..][k - 1] & 0xf0) + Carried(octs[0] & 0x0f, octs[1..], k - 1);
        }
      }
    }
  }

  /// Plain BCD: first digit in the high nibble

  function PlainBcd(ds: seq<Octet>): (r: seq<Octet>)
    requires |ds| % 2 == 0
    ensures |r| == |ds| / 2
  {
    seq(|ds| / 2, i requires 0 <= i < |ds| / 2 => Pair(ds[2 * i], ds[2 * i + 1]))
  }

  /** The digits followed by zeros, 16 in all. */
  function Padded(ds: seq<Octet>): (r: seq<Octet>)
    requires |ds| <= 16
    ensures |r| == 16
  {
    ds + Zeros(16 - |ds|)
  }

  lemma SwapNibbles(hi: Octet, lo: Octet)
    requires hi < 16 && lo < 16
    ensures Swapped(Pair(hi, lo)) == Pair(lo, hi)
    ensures (hi << 4) + lo == Pair(hi, lo)
    ensures Swapped(lo) == Pair(lo, 0)
  {
  }

  lemma PackedLow(o: seq<Octet>, ds: seq<Octet>, i: nat)
    requires AreDigits(ds) && IsPacked(o, ds) && i < |o|
    ensures o[i] & 0x0f == ds[2 * i]
  {
    Nibbles(if 2 * i + 1 < |ds| then ds[2 * i + 1] else 15, ds[2 * i]);
  }

  lemma PackedSwapped(o: seq<Octet>, ds: seq<Octet>, i: nat)
    requires AreDigits(ds) && IsPacked(o, ds) && 2 * i + 1 < |ds|
    ensures Swapped(o[i]) == Pair(ds[2 * i], ds[2 * i + 1])
  {
    SwapNibbles(ds[2 * i + 1], ds[2 * i]);
  }

  /** A high nibble beside a digit from elsewhere. */
  lemma PackedHighWith(o: seq<Octet>, ds: seq<Octet>, i: nat, dig: Octet)
    requires AreDigits(ds) && IsPacked(o, ds) && 2 * i + 1 < |ds| && dig < 10
    ensures (o[i] & 0xf0) + dig == Pair(ds[2 * i + 1], dig)
  {
    Nibbles(ds[2 * i + 1], ds[2 * i]);
    SwapNibbles(ds[2 * i + 1], dig);
  }

  lemma ReversedAt(imsi: seq<Octet>, k: nat)
    requires k < |imsi|
    ensures Reversed(imsi)[k] == imsi[|imsi| - 1 - k]
  {
    ReverseAt(imsi, k);
  }

  lemma PlainAt(o: seq<Octet>, ds: seq<Octet>, i: nat)
    requires AreDigits(ds) && IsPacked(o, ds) && i < |o|
    ensures |Plain(o)| == |o|
    ensures Plain(o)[i] == Pair(ds[2 * i], if 2 * i + 1 < |ds| then ds[2 * i + 1] else 0)
  {
    var reversed := Reversed(o);
    FilledIffLast(o, ds, |o| - 1);
    ReversedAt(o, |o| - 1 - i);
    SwapDigitsIs([reversed[0] & 0x0f] + reversed[1..], []);
    SwapDigitsIs(reversed, []);
    if 2 * i + 1 < |ds| {
      PackedSwapped(o, ds, i);
    } else {
      PackedLow(o, ds, i);
      SwapNibbles(0, ds[2 * i]);
    }
  }

  lemma PaddedPlain(o: seq<Octet>, ds: seq<Octet>)
    requires AreDigits(ds) && 0 < |ds| <= 16 && IsPacked(o, ds)
    ensures |Plain(o)| <= 8 && Plain(o) + Zeros(8 - |Plain(o)|) == PlainBcd(Padded(ds))
  {
    var p := Plain(o);
    PlainAt(o, ds, 0);
    forall i | 0 <= i < 8 ensures (p + Zeros(8 - |p|))[i] == PlainBcd(Padded(ds))[i] {
      if i < |p| { PlainAt(o, ds, i); } else { ZeroOctet(); }
    }
  }

  lemma ZeroOctet()
    ensures Pair(0, 0) == 0
  {
  }

  /** How many of the last digits are in the tail part: eight, or of a shorter number as many as fill octets. */
  function TailDigits(digits: nat): (t: nat)
    ensures t <= digits && t % 2 == 0
  {
    if digits >= 8 then 8 else digits - digits % 2
  }

  function Tail(ds: seq<Octet>): (r: seq<Octet>)
    ensures |r| == TailDigits(|ds|)
  {
    ds[|ds| - TailDigits(|ds|)..]
  }

  lemma TailLength(o: seq<Octet>, ds: seq<Octet>)
    requires AreDigits(ds) && IsPacked(o, ds) && ds != []
    ensures |Plain8(o)| == TailDigits(|ds|) / 2
  {
    var reversed := Reversed(o);
    FilledIffLast(o, ds, |o| - 1);
    SwapAndShiftIs(reversed[0] & 0x0f, SubList(reversed[1..], 4), []);
    SwapDigitsIs(SubList(reversed, 4), []);
  }

  /** Without a filler the tail part holds the last t octets, swapped: four, or all there are. */
  lemma EvenTailOctet(o: seq<Octet>, t: nat, k: nat)
    requires t == (if |o| <= 4 then |o| else 4) && k < t && o[|o| - 1] < 0xf0
    ensures |Plain8(o)| == t && Plain8(o)[t - 1 - k] == Swapped(o[|o| - 1 - k])
  {
    SwapDigitsIs(SubList(Reversed(o), 4), []);
    ReversedAt(o, k);
  }

  /** With one, each high nibble is paired with the low nibble that followed it. */
  lemma OddTailOctet(o: seq<Octet>, t: nat, k: nat)
    requires o != [] && t == (if |o| <= 5 then |o| - 1 else 4) && k < t && o[|o| - 1] >= 0xf0
    ensures |Plain8(o)| == t && |SubList(Reversed(o)[1..], 4)| == t
    ensures Plain8(o)[t - 1 - k]
            == (o[|o| - 2 - k] & 0xf0) + Carried(Reversed(o)[0] & 0x0f, SubList(Reversed(o)[1..], 4), k)
  {
    var dig, octs := Reversed(o)[0] & 0x0f, SubList(Reversed(o)[1..], 4);
    assert Plain8(o) == SwapAndShiftDigits(dig, octs, []);
    SwapAndShiftIs(dig, octs, []);
    assert octs[k] == o[|o| - 2 - k] by { ReversedAt(o, k + 1); }
    assert |octs| - 1 - k == t - 1 - k;
  }

  lemma EvenTailAt(o: seq<Octet>, ds: seq<Octet>, t: nat, i: nat)
    requires AreDigits(ds) && IsPacked(o, ds) && |ds| % 2 == 0 && t == TailDigits(|ds|) / 2 && i < t
    ensures |Plain8(o)| == t && Plain8(o)[i] == Pair(ds[|ds| - 2 * t + 2 * i], ds[|ds| - 2 * t + 2 * i + 1])
  {
    FilledIffLast(o, ds, |o| - 1);
    EvenTailOctet(o, t, t - 1 - i);
    PackedSwapped(o, ds, |o| - t + i);
  }

  lemma OddTailAt(o: seq<Octet>, ds: seq<Octet>, t: nat, i: nat)
    requires AreDigits(ds) && IsPacked(o, ds) && |ds| % 2 == 1 && t == TailDigits(|ds|) / 2 && i < t
    ensures |Plain8(o)| == t && Plain8(o)[i] == Pair(ds[|ds| - 2 * t + 2 * i], ds[|ds| - 2 * t + 2 * i + 1])
  {
    var j := |o| - 1 - t + i;
    TailLength(o, ds);
    OddTailJoined(o, ds, t, j);
    assert 2 * j + 1 == |ds| - 2 * t + 2 * i;
    PackedHighWith(o, ds, j, ds[2 * j + 2]);
  }

  lemma OddTailJoined(o: seq<Octet>, ds: seq<Octet>, t: nat, j: nat)
    requires AreDigits(ds) && IsPacked(o, ds) && |ds| % 2 == 1 && t == TailDigits(|ds|) / 2
    requires |o| - 1 - t <= j < |o| - 1 && |Plain8(o)| == t
    ensures Plain8(o)[j - (|o| - 1 - t)] == (o[j] & 0xf0) + ds[2 * j + 2]
  {
    var k := |o| - 2 - j;
    FilledIffLast(o, ds, |o| - 1);
    OddTailOctet(o, t, k);
    CarriedDigit(o, ds, k);
  }

  lemma CarriedDigit(o: seq<Octet>, ds: seq<Octet>, k: nat)
    requires AreDigits(ds) && IsPacked(o, ds) && |ds| % 2 == 1 && k < TailDigits(|ds|) / 2
    ensures k < |SubList(Reversed(o)[1..], 4)|
    ensures Carried(Reversed(o)[0] & 0x0f, SubList(Reversed(o)[1..], 4), k) == ds[|ds| - 1 - 2 * k]
  {
    ReversedAt(o, k);
    PackedLow(o, ds, |o| - 1 - k);
  }

  lemma TailIsPlain(o: seq<Octet>, ds: seq<Octet>)
    requires AreDigits(ds) && IsPacked(o, ds) && ds != []
    ensures Plain8(o) == PlainBcd(Tail(ds))
  {
    var t := TailDigits(|ds|) / 2;
    TailLength(o, ds);
    forall i | 0 <= i < t ensures Plain8(o)[i] == PlainBcd(Tail(ds))[i] {
      if |ds| % 2 == 0 { EvenTailAt(o, ds, t, i); } else { OddTailAt(o, ds, t, i); }
      TailAt(ds, t, i);
    }
  }

  lemma TailAt(ds: seq<Octet>, t: nat, i: nat)
    requires t == TailDigits(|ds|) / 2 && i < t
    ensures PlainBcd(Tail(ds))[i] == Pair(ds[|ds| - 2 * t + 2 * i], ds[|ds| - 2 * t + 2 * i + 1])
  {
  }

  /// Main results

  /** For 1 to 16 digits, even or odd: the last eight digits in plain BCD (of fewer than eight all, or all but
      the first), all digits in plain BCD padded with zeros to eight octets, then the salt. */
  lemma KeyLayout(n: nat)
    requires 1 <= |Digits(n)| <= 16
    ensures GetKi(ConvertToBcd(n))
            == Some(PlainBcd(Tail(Digits(n))) + PlainBcd(Padded(Digits(n))) + [0x12, 0x34, 0x56, 0x78])
  {
    var ds := Digits(n);
    DigitsValue(n);
    PackPacks(ds);
    var imsi := ConvertToBcd(n);
    TailIsPlain(imsi, ds);
    PaddedPlain(imsi, ds);
    assert GetKi(imsi) == Some(Plain8(imsi) + Plain(imsi) + Zeros(8 - |Plain(imsi)|) + SALT);
    assert Plain8(imsi) + Plain(imsi) + Zeros(8 - |Plain(imsi)|)
           == Plain8(imsi) + (Plain(imsi) + Zeros(8 - |Plain(imsi)|));
  }

  lemma PairIs(hi: Octet, lo: Octet)
    requires hi < 16 && lo < 16
    ensures Pair(hi, lo) == 16 * hi + lo
  {
  }

  /** Digit k, or 0 after the last one. */
  function DigitOrZero(ds: seq<Octet>, k: nat): Octet { if k < |ds| then ds[k] else 0 }

  lemma TailOctet(ds: seq<Octet>, t: nat, i: nat)
    requires AreDigits(ds) && t == TailDigits(|ds|) / 2 && i < t
    ensures PlainBcd(Tail(ds))[i] == 16 * ds[|ds| - 2 * t + 2 * i] + ds[|ds| - 2 * t + 2 * i + 1]
  {
    TailAt(ds, t, i);
    PairIs(ds[|ds| - 2 * t + 2 * i], ds[|ds| - 2 * t + 2 * i + 1]);
  }

  lemma PaddedOctet(ds: seq<Octet>, j: nat)
    requires AreDigits(ds) && |ds| <= 16 && j < 8
    ensures PlainBcd(Padded(ds))[j] == 16 * DigitOrZero(ds, 2 * j) + DigitOrZero(ds, 2 * j + 1)
  {
    assert PlainBcd(Padded(ds))[j] == Pair(DigitOrZero(ds, 2 * j), DigitOrZero(ds, 2 * j + 1));
    PairIs(DigitOrZero(ds, 2 * j), DigitOrZero(ds, 2 * j + 1));
  }

  /** The octets of a key as numbers: each is sixteen times one digit plus another, up to the last four. */
  predicate KeyOf(key: seq<Octet>, ds: seq<Octet>) {
    var t := if |ds| >= 8 then 4 else |ds| / 2;
    && |key| == t + 12
    && (forall i :: 0 <= i < t ==> key[i] == 16 * ds[|ds| - 2 * t + 2 * i] + ds[|ds| - 2 * t + 2 * i + 1])
    && (forall j :: 0 <= j < 8 ==> key[t + j] == 16 * DigitOrZero(ds, 2 * j) + DigitOrZero(ds, 2 * j + 1))
    && key[t + 8] == 0x12 && key[t + 9] == 0x34 && key[t + 10] == 0x56 && key[t + 11] == 0x78
  }

  lemma KeyOctets(n: nat)
    requires 1 <= |Digits(n)| <= 16
    ensures GetKi(ConvertToBcd(n)).Some? && KeyOf(GetKi(ConvertToBcd(n)).value, Digits(n))
  {
    DigitsValue(n);
    KeyLayout(n);
    LayoutOctets(Digits(n));
  }

  lemma LayoutOctets(ds: seq<Octet>)
    requires AreDigits(ds) && |ds| <= 16
    ensures KeyOf(PlainBcd(Tail(ds)) + PlainBcd(Padded(ds)) + [0x12, 0x34, 0x56, 0x78], ds)
  {
    var t, a, b := TailDigits(|ds|) / 2, PlainBcd(Tail(ds)), PlainBcd(Padded(ds));
    var key := a + b + [0x12, 0x34, 0x56, 0x78];
    assert t == if |ds| >= 8 then 4 else |ds| / 2;
    forall i | 0 <= i < t ensures key[i] == 16 * ds[|ds| - 2 * t + 2 * i] + ds[|ds| - 2 * t + 2 * i + 1] {
      assert key[i] == a[i];
      TailOctet(ds, t, i);
    }
    forall j | 0 <= j < 8 ensures key[t + j] == 16 * DigitOrZero(ds, 2 * j) + DigitOrZero(ds, 2 * j + 1) {
      assert key[t + j] == b[j];
      PaddedOctet(ds, j);
    }
  }

  /** Exactly the numbers of 8 to 16 digits get a key of 16 octets; longer ones and 0 get none. */
  lemma SixteenOctetsIff(n: nat)
    ensures var k := GetKi(ConvertToBcd(n));
            && (k.Some? <==> 1 <= |Digits(n)| <= 16)
            && (k.Some? && |k.value| == 16 <==> 8 <= |Digits(n)| <= 16)
  {
    var ds, imsi := Digits(n), ConvertToBcd(n);
    DigitsValue(n);
    PackPacks(ds);
    if ds != [] {
      PlainAt(imsi, ds, 0);
      TailLength(imsi, ds);
      assert GetKi(imsi) == if |Plain(imsi)| > 8 then None
                            else Some(Plain8(imsi) + Plain(imsi) + Zeros(8 - |Plain(imsi)|) + SALT);
    }
  }

  lemma PlainBcdInjective(ds: seq<Octet>, es: seq<Octet>)
    requires AreDigits(ds) && AreDigits(es) && |ds| == |es| && |ds| % 2 == 0 && PlainBcd(ds) == PlainBcd(es)
    ensures ds == es
  {
    forall i | 0 <= i < |ds| ensures ds[i] == es[i] {
      var j := i / 2;
      assert PlainBcd(ds)[j] == PlainBcd(es)[j];
      Nibbles(ds[2 * j], ds[2 * j + 1]);
      Nibbles(es[2 * j], es[2 * j + 1]);
    }
  }

  /** n with k zeros written after it. */
  function Shifted(n: nat, k: nat): nat {
    if k == 0 then n else Shifted(n, k - 1) * 10
  }

  lemma {:induction false} ShiftedDigits(n: nat, k: nat)
    requires n > 0
    ensures Shifted(n, k) > 0 && Digits(Shifted(n, k)) == Digits(n) + Zeros(k)
  {
    if k > 0 {
      ShiftedDigits(n, k - 1);
      LastDigit(Shifted(n, k));
      assert Zeros(k) == Zeros(k - 1) + [0];
    }
  }

  lemma {:induction false} ZerosShift(ds: seq<Octet>, k: nat)
    ensures ValueOf(ds + Zeros(k)) == Shifted(ValueOf(ds), k)
  {
    if k > 0 {
      ZerosShift(ds, k - 1);
      assert (ds + Zeros(k))[..|ds| + k - 1] == ds + Zeros(k - 1);
    } else {
      assert ds + Zeros(0) == ds;
    }
  }

  /** Equal parts of the key, in terms of digits. */
  lemma SameKeyMeansSameParts(n1: nat, n2: nat)
    requires 1 <= |Digits(n1)| <= 16 && 1 <= |Digits(n2)| <= 16
    ensures GetKi(ConvertToBcd(n1)) == GetKi(ConvertToBcd(n2)) <==>
            Tail(Digits(n1)) == Tail(Digits(n2)) && Padded(Digits(n1)) == Padded(Digits(n2))
  {
    var ds, es := Digits(n1), Digits(n2);
    DigitsValue(n1);
    DigitsValue(n2);
    KeyLayout(n1);
    KeyLayout(n2);
    var k1, k2 := GetKi(ConvertToBcd(n1)).value, GetKi(ConvertToBcd(n2)).value;
    if k1 == k2 {
      var t := |Tail(ds)| / 2;
      assert |k1| == t + 12 && |k2| == |Tail(es)| / 2 + 12;
      assert k1[..t] == PlainBcd(Tail(ds)) && k1[t..t + 8] == PlainBcd(Padded(ds));
      assert k2[..t] == PlainBcd(Tail(es)) && k2[t..t + 8] == PlainBcd(Padded(es));
      PlainBcdInjective(Tail(ds), Tail(es));
      PlainBcdInjective(Padded(ds), Padded(es));
    }
  }

  /** For a fixed digit count the key identifies the number. */
  lemma KeyInjective(n1: nat, n2: nat)
    requires 1 <= |Digits(n1)| == |Digits(n2)| <= 16
    ensures GetKi(ConvertToBcd(n1)) == GetKi(ConvertToBcd(n2)) <==> n1 == n2
  {
    DigitsValue(n1);
    DigitsValue(n2);
    SameKeyMeansSameParts(n1, n2);
    var ds, es := Digits(n1), Digits(n2);
    assert Padded(ds)[..|ds|] == ds && Padded(es)[..|es|] == es;
  }

  /** Across digit counts it does not: exactly the numbers that end in eight zeros share their key with
      themselves followed by more zeros. */
  lemma KeyCollisions(n1: nat, n2: nat)
    requires 1 <= |Digits(n1)| < |Digits(n2)| <= 16
    ensures GetKi(ConvertToBcd(n1)) == GetKi(ConvertToBcd(n2)) <==>
            n1 % 100_000_000 == 0 && n2 == Shifted(n1, |Digits(n2)| - |Digits(n1)|)
  {
    SameKeyMeansSameParts(n1, n2);
    var k := |Digits(n2)| - |Digits(n1)|;
    assert n1 > 0;
    if n1 % 100_000_000 == 0 && n2 == Shifted(n1, k) { FollowedByZerosCollide(n1, k); }
    if GetKi(ConvertToBcd(n1)) == GetKi(ConvertToBcd(n2)) { CollidingEndInZeros(n1, n2); }
  }

  lemma FollowedByZerosCollide(n: nat, k: nat)
    requires n > 0 && n % 100_000_000 == 0 && |Digits(n)| + k <= 16
    ensures |Digits(Shifted(n, k))| == |Digits(n)| + k
    ensures Tail(Digits(Shifted(n, k))) == Tail(Digits(n)) && Padded(Digits(Shifted(n, k))) == Padded(Digits(n))
  {
    var ds := Digits(n);
    ShiftedDigits(n, k);
    EndsInEightZeros(n);
    assert Padded(ds + Zeros(k)) == Padded(ds);
    assert Tail(ds + Zeros(k)) == Zeros(8) == Tail(ds);
  }

  lemma CollidingEndInZeros(n1: nat, n2: nat)
    requires 1 <= |Digits(n1)| < |Digits(n2)| <= 16
    requires Tail(Digits(n1)) == Tail(Digits(n2)) && Padded(Digits(n1)) == Padded(Digits(n2))
    ensures n1 % 100_000_000 == 0 && n2 == Shifted(n1, |Digits(n2)| - |Digits(n1)|)
  {
    var ds, es := Digits(n1), Digits(n2);
    DigitsValue(n1);
    DigitsValue(n2);
    SamePadding(ds, es);
    ZerosShift(ds, |es| - |ds|);
    SameTail(ds, |es| - |ds|);
    EndsInEightZeros(n1);
  }

  lemma SamePadding(ds: seq<Octet>, es: seq<Octet>)
    requires |ds| <= |es| <= 16 && Padded(ds) == Padded(es)
    ensures es == ds + Zeros(|es| - |ds|)
  {
    assert es == Padded(es)[..|es|] == Padded(ds)[..|es|];
  }

  /** Digits with the same tail after zeros were added: there are at least eight, and the last eight are zeros. */
  lemma SameTail(ds: seq<Octet>, k: nat)
    requires k > 0 && ds != [] && ds[0] != 0 && Tail(ds) == Tail(ds + Zeros(k))
    ensures |ds| >= 8 && ds[|ds| - 8..] == Zeros(8)
  {
    var t := TailDigits(|ds|);
    assert |Tail(ds + Zeros(k))| == t;
    forall i | |ds| - t <= i < |ds| ensures ds[i] == 0 { SlidingDigit(ds, k, t, i); }
  }

  /** A tail that equals itself moved along by appended zeros is all zeros. */
  lemma {:induction false} SlidingDigit(ds: seq<Octet>, k: nat, t: nat, i: nat)
    requires k > 0 && t <= |ds| && ds[|ds| - t..] == (ds + Zeros(k))[|ds| + k - t..]
    requires |ds| - t <= i < |ds|
    ensures ds[i] == 0
    decreases |ds| - i
  {
    var j := i - (|ds| - t);
    assert ds[i] == ds[|ds| - t..][j] == (ds + Zeros(k))[|ds| + k - t..][j] == (ds + Zeros(k))[i + k];
    if i + k < |ds| { SlidingDigit(ds, k, t, i + k); }
  }

  lemma EndsInEightZeros(n: nat)
    requires n > 0
    ensures n % 100_000_000 == 0 <==> |Digits(n)| >= 8 && Digits(n)[|Digits(n)| - 8..] == Zeros(8)
  {
    var ds := Digits(n);
    DigitsValue(n);
    if n % 100_000_000 == 0 {
      var m := n / 100_000_000;
      ShiftedByEight(m);
      ShiftedDigits(m, 8);
      assert ds == Digits(m) + Zeros(8);
    }
    if |ds| >= 8 && ds[|ds| - 8..] == Zeros(8) {
      var front := ds[..|ds| - 8];
      assert ds == front + Zeros(8);
      ZerosShift(front, 8);
      ShiftedByEight(ValueOf(front));
    }
  }

  lemma ShiftedByEight(n: nat)
    ensures Shifted(n, 8) == n * 100_000_000
  {
    ShiftedByTwo(n, 0);
    ShiftedByTwo(n, 2);
    ShiftedByTwo(n, 4);
    ShiftedByTwo(n, 6);
  }

  lemma ShiftedByTwo(n: nat, k: nat)
    ensures Shifted(n, k + 2) == Shifted(n, k) * 100
  {
    assert Shifted(n, k + 1) == Shifted(n, k) * 10;
  }

  /** A pair of numbers with one key: 9 digits and 10 digits. */
  lemma OneKeyForTwoNumbers()
    ensures GetKi(ConvertToBcd(100_000_000)) == GetKi(ConvertToBcd(1_000_000_000))
  {
    var n := 100_000_000;
    ShiftedByEight(1);
    ShiftedDigits(1, 8);
    ShiftedDigits(n, 1);
    LastDigit(1);
    assert Digits(0) == [];
    assert Shifted(n, 1) == Shifted(n, 0) * 10 == 1_000_000_000;
    KeyCollisions(n, 1_000_000_000);
  }
}
