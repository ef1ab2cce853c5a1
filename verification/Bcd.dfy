/** Subscriber numbers as telephony BCD: an integer becomes digits, two digits share an octet with the first
    one in the low nibble, and an odd last digit is filled up with the nibble f. */
module Bcd {
  type Octet = bv8

  /// Digits

  /** int2list/2: decimal digits, most significant first, and none for 0. */
  function IntToList(n: nat, list: seq<Octet>): seq<Octet> {
    if n == 0 then list else IntToList(n / 10, [(n % 10) as Octet] + list)
  }

  function Digits(n: nat): seq<Octet> { IntToList(n, []) }

  predicate AreDigits(ds: seq<Octet>) {
    forall i :: 0 <= i < |ds| ==> ds[i] < 10
  }

  function ValueOf(ds: seq<Octet>): nat {
    if ds == [] then 0 else ValueOf(ds[..|ds| - 1]) * 10 + ds[|ds| - 1] as nat
  }

  lemma {:induction false} IntToListSplit(n: nat, list: seq<Octet>)
    ensures IntToList(n, list) == Digits(n) + list
    decreases n
  {
    if n > 0 {
      var d := (n % 10) as Octet;
      IntToListSplit(n / 10, [d] + list);
      IntToListSplit(n / 10, [d] + []);
      assert Digits(n / 10) + [d] + list == Digits(n / 10) + ([d] + list);
      assert [d] + [] == [d];
    }
  }

  lemma LastDigit(n: nat)
    requires n > 0
    ensures Digits(n) == Digits(n / 10) + [(n % 10) as Octet]
  {
    IntToListSplit(n / 10, [(n % 10) as Octet] + []);
    assert [(n % 10) as Octet] + [] == [(n % 10) as Octet];
  }

  /** The digits of n are decimal digits, start with a non-zero one and have the value n. */
  lemma {:induction false} DigitsValue(n: nat)
    ensures AreDigits(Digits(n)) && ValueOf(Digits(n)) == n
    ensures n > 0 ==> Digits(n) != [] && Digits(n)[0] != 0
    decreases n
  {
    if n > 0 {
      DigitsValue(n / 10);
      LastDigit(n);
      assert Digits(n)[..|Digits(n)| - 1] == Digits(n / 10);
      if n < 10 { assert Digits(0) == []; }
    }
  }

  /// Packing

  /** An octet from its two nibbles. */
  function Pair(hi: Octet, lo: Octet): Octet { (hi << 4) | lo }

  /** Half as many octets as digits, rounded up. */
  function Octets(digits: nat): nat { (digits + 1) / 2 }

  /** convert_to_bcd_help/2 */
  function Pack(ds: seq<Octet>, result: seq<Octet>): (r: seq<Octet>)
    ensures |r| == |result| + Octets(|ds|)
    decreases |ds|
  {
    if ds == [] then result
    else if |ds| == 1 then result + [0xf0 | ds[0]]
    else Pack(ds[2..], result + [Pair(ds[1], ds[0])])
  }

  function ConvertToBcd(n: nat): seq<Octet> { Pack(Digits(n), []) }

  /** Octet i of a packed digit list. */
  function PackedOctet(ds: seq<Octet>, i: nat): Octet
    requires 2 * i < |ds|
  {
    if 2 * i + 1 < |ds| then Pair(ds[2 * i + 1], ds[2 * i]) else 0xf0 | ds[2 * i]
  }

  lemma {:induction false} PackIs(ds: seq<Octet>, result: seq<Octet>)
    ensures Pack(ds, result) == result + seq(Octets(|ds|), i requires 0 <= i < Octets(|ds|) => PackedOctet(ds, i))
    decreases |ds|
  {
    if |ds| >= 2 {
      PackIs(ds[2..], result + [Pair(ds[1], ds[0])]);
      assert forall i :: 0 <= i < Octets(|ds[2..]|) ==> PackedOctet(ds[2..], i) == PackedOctet(ds, i + 1);
    }
  }

  /** o packs ds: the closed form of the accumulator loop. */
  predicate IsPacked(o: seq<Octet>, ds: seq<Octet>) {
    && |o| == Octets(|ds|)
    && forall i :: 0 <= i < |o| ==> o[i] == PackedOctet(ds, i)
  }

  lemma PackPacks(ds: seq<Octet>)
    ensures IsPacked(Pack(ds, []), ds)
  {
    PackIs(ds, []);
  }

  /// A decoder: low nibble first, a trailing f dropped

  function Unpack(octets: seq<Octet>): seq<Octet> {
    if octets == [] then []
    else if octets[0] & 0xf0 == 0xf0 then [octets[0] & 0x0f] + Unpack(octets[1..])
    else [octets[0] & 0x0f, octets[0] >> 4] + Unpack(octets[1..])
  }

  lemma Nibbles(hi: Octet, lo: Octet)
    requires hi < 16 && lo < 16
    ensures Pair(hi, lo) & 0x0f == lo && Pair(hi, lo) & 0xf0 == hi << 4 && Pair(hi, lo) >> 4 == hi
    ensures (hi << 4 == 0xf0) <==> hi == 15
    ensures Pair(hi, lo) >= 0xf0 <==> hi == 15
    ensures 0xf0 | lo == Pair(15, lo)
  {
  }

  lemma {:induction false} UnpackPack(ds: seq<Octet>)
    requires AreDigits(ds)
    ensures Unpack(Pack(ds, [])) == ds
    decreases |ds|
  {
    if |ds| == 1 {
      Nibbles(15, ds[0]);
      assert [0xf0 | ds[0]][1..] == [];
    } else if |ds| >= 2 {
      Nibbles(ds[1], ds[0]);
      var o := Pair(ds[1], ds[0]);
      assert [] + [o] == [o];
      assert Pack(ds, []) == Pack(ds[2..], [o]);
      PackIs(ds[2..], [o]);
      PackIs(ds[2..], []);
      assert Pack(ds, []) == [o] + Pack(ds[2..], []);
      UnpackPack(ds[2..]);
      assert ds == [ds[0], ds[1]] + ds[2..];
    }
  }

  /** Packing is undone by the decoder: every number comes back. */
  lemma RoundTrip(n: nat)
    ensures ValueOf(Unpack(ConvertToBcd(n))) == n
  {
    DigitsValue(n);
    UnpackPack(Digits(n));
  }

  lemma FilledIffLast(o: seq<Octet>, ds: seq<Octet>, i: nat)
    requires AreDigits(ds) && IsPacked(o, ds) && i < |o|
    ensures o[i] >= 0xf0 <==> 2 * i + 1 == |ds|
  {
    Nibbles(if 2 * i + 1 < |ds| then ds[2 * i + 1] else 15, ds[2 * i]);
  }

  /** Octet i holds digit 2i in its low half and digit 2i+1, or f, in its high half. */
  lemma PackedOctets(n: nat, i: nat)
    requires 2 * i < |Digits(n)|
    ensures var ds, o := Digits(n), ConvertToBcd(n);
            && |o| == (|ds| + 1) / 2
            && o[i] == (if 2 * i + 1 < |ds| then 16 * ds[2 * i + 1] else 0xf0) + ds[2 * i]
  {
    DigitsValue(n);
    PackPacks(Digits(n));
    assert ConvertToBcd(n)[i] == PackedOctet(Digits(n), i);
    OctetIs(Digits(n), i);
  }

  lemma OctetIs(ds: seq<Octet>, i: nat)
    requires AreDigits(ds) && 2 * i < |ds|
    ensures PackedOctet(ds, i) == (if 2 * i + 1 < |ds| then 16 * ds[2 * i + 1] else 0xf0) + ds[2 * i]
  {
  }

  /** The test get_ki relies on: the last octet is 0xf0 or more exactly when the digit count is odd. */
  lemma LastOctetTellsParity(n: nat)
    requires n > 0
    ensures var o := ConvertToBcd(n);
            |o| == Octets(|Digits(n)|) > 0 && (o[|o| - 1] >= 0xf0 <==> |Digits(n)| % 2 == 1)
  {
    DigitsValue(n);
    PackPacks(Digits(n));
    FilledIffLast(ConvertToBcd(n), Digits(n), Octets(|Digits(n)|) - 1);
  }
}
