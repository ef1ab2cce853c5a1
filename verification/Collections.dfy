/** The optional value and the list reversal used by several models. */
module Collections {
  datatype Option<+T> = None | Some(value: T)

  function Reverse<T>(xs: seq<T>): seq<T> {
    if xs == [] then [] else Reverse(xs[1..]) + [xs[0]]
  }

  lemma {:induction false} ReverseAt<T>(xs: seq<T>, i: nat)
    requires i < |xs|
    ensures |Reverse(xs)| == |xs| && Reverse(xs)[i] == xs[|xs| - 1 - i]
  {
    if |xs| > 1 { ReverseAt(xs[1..], if i < |xs| - 1 then i else 0); }
  }

  lemma {:induction false} ReverseLength<T>(xs: seq<T>)
    ensures |Reverse(xs)| == |xs|
  {
    if xs != [] { ReverseLength(xs[1..]); }
  }
}
