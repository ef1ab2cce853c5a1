/** Fetching several URLs at once: main starts one goroutine for each argument and then receives as many
    results from the one unbuffered channel they all send on. */
module FanIn {

  /** What the request for an argument comes to.  Each of the three paths through fetch sends one text. */
  datatype Outcome = GetFailed(error: string) | ReadFailed(url: string, error: string) | Fetched(report: string)

  function Text(o: Outcome): string {
    match o
    case GetFailed(e) => e
    case ReadFailed(url, e) => "while reading " + url + ": " + e
    case Fetched(report) => report
  }

  datatype Fetcher = Unborn | Fetching | Sending(text: string) | Returned

  /** main in its first loop, its second loop, or past both. */
  datatype Main = Spawning(i: nat) | Receiving(k: nat) | Finished

  /** `from` records which argument each received text came from. */
  datatype State = State(main: Main, fetchers: seq<Fetcher>, received: seq<string>, from: seq<nat>)

  datatype Action = Spawn | EndSpawning | Respond(i: nat) | Receive(i: nat) | EndReceiving

  function Init(outcomes: seq<Outcome>): State {
    State(Spawning(0), seq(|outcomes|, _ => Unborn), [], [])
  }

  predicate Enabled(outcomes: seq<Outcome>, s: State, a: Action) {
    && |s.fetchers| == |outcomes|
    && match a
       case Spawn => s.main.Spawning? && s.main.i < |outcomes|
       case EndSpawning => s.main.Spawning? && s.main.i >= |outcomes|
       case Respond(i) => i < |outcomes| && s.fetchers[i] == Fetching
       case Receive(i) => i < |outcomes| && s.main.Receiving? && s.main.k < |outcomes| && s.fetchers[i].Sending?
       case EndReceiving => s.main.Receiving? && s.main.k >= |outcomes|
  }

  function Apply(outcomes: seq<Outcome>, s: State, a: Action): (s': State)
    requires Enabled(outcomes, s, a)
    ensures |s'.fetchers| == |s.fetchers|
  {
    match a
    case Spawn => s.(fetchers := s.fetchers[s.main.i := Fetching], main := Spawning(s.main.i + 1))
    case EndSpawning => s.(main := Receiving(0))
    case Respond(i) => s.(fetchers := s.fetchers[i := Sending(Text(outcomes[i]))])
    case Receive(i) =>
      s.(fetchers := s.fetchers[i := Returned], main := Receiving(s.main.k + 1),
         received := s.received + [s.fetchers[i].text], from := s.from + [i])
    case EndReceiving => s.(main := Finished)
  }

  predicate IsRun(outcomes: seq<Outcome>, s: State, acts: seq<Action>)
    decreases |acts|
  {
    acts == [] || (Enabled(outcomes, s, acts[0]) && IsRun(outcomes, Apply(outcomes, s, acts[0]), acts[1..]))
  }

  function After(outcomes: seq<Outcome>, s: State, acts: seq<Action>): State
    requires IsRun(outcomes, s, acts)
    decreases |acts|
  {
    if acts == [] then s else After(outcomes, Apply(outcomes, s, acts[0]), acts[1..])
  }

  /// Invariant

  predicate Inv(outcomes: seq<Outcome>, s: State) {
    && |s.fetchers| == |outcomes|
    && |s.received| == |s.from|
    && (forall i :: 0 <= i < |outcomes| ==> (s.fetchers[i] == Returned <==> i in s.from))
    && (forall i :: 0 <= i < |outcomes| ==> (s.fetchers[i] == Unborn <==> s.main.Spawning? && s.main.i <= i))
    && (forall i :: 0 <= i < |outcomes| ==> (s.fetchers[i].Sending? ==> s.fetchers[i].text == Text(outcomes[i])))
    && (forall j :: 0 <= j < |s.from| ==> s.from[j] < |outcomes| && s.received[j] == Text(outcomes[s.from[j]]))
    && (forall j, k :: 0 <= j < k < |s.from| ==> s.from[j] != s.from[k])
    && (match s.main
        case Spawning(i) => i <= |outcomes| && |s.from| == 0
        case Receiving(k) => k == |s.from|
        case Finished => |s.from| == |outcomes|)
  }

  lemma InvStep(outcomes: seq<Outcome>, s: State, a: Action)
    requires Inv(outcomes, s) && Enabled(outcomes, s, a)
    ensures Inv(outcomes, Apply(outcomes, s, a))
  {
    FewerThanAll(s.from, |outcomes|);
  }

  /** Distinct numbers below n are at most n, and if they are n of them, they are all of them. */
  lemma {:induction false} FewerThanAll(xs: seq<nat>, n: nat)
    requires forall j :: 0 <= j < |xs| ==> xs[j] < n
    requires forall j, k :: 0 <= j < k < |xs| ==> xs[j] != xs[k]
    ensures |xs| <= n && (|xs| == n ==> forall i :: 0 <= i < n ==> i in xs)
  {
    if xs != [] { assert xs[0] < n; }
    if n > 0 {
      if n - 1 in xs {
        var j :| 0 <= j < |xs| && xs[j] == n - 1;
        var ys := xs[..j] + xs[j + 1..];
        FewerThanAll(ys, n - 1);
        forall i | 0 <= i < n && |xs| == n ensures i in xs {
          if i < n - 1 { assert i in ys; }
        }
      } else {
        FewerThanAll(xs, n - 1);
      }
    }
  }

  lemma {:induction false} InvRun(outcomes: seq<Outcome>, s: State, acts: seq<Action>)
    requires Inv(outcomes, s) && IsRun(outcomes, s, acts)
    ensures Inv(outcomes, After(outcomes, s, acts))
    decreases |acts|
  {
    if acts != [] {
      InvStep(outcomes, s, acts[0]);
      InvRun(outcomes, Apply(outcomes, s, acts[0]), acts[1..]);
    }
  }

  /// Progress

  function FetcherRank(f: Fetcher): nat {
    match f case Unborn => 3 case Fetching => 2 case Sending(_) => 1 case Returned => 0
  }

  function FetchersRank(fs: seq<Fetcher>): nat {
    if fs == [] then 0 else FetchersRank(fs[..|fs| - 1]) + FetcherRank(fs[|fs| - 1])
  }

  function Rank(s: State): nat {
    FetchersRank(s.fetchers) + match s.main case Spawning(_) => 2 case Receiving(_) => 1 case Finished => 0
  }

  lemma {:induction false} RankUpdate(fs: seq<Fetcher>, i: nat, f: Fetcher)
    requires i < |fs|
    ensures FetchersRank(fs[i := f]) + FetcherRank(fs[i]) == FetchersRank(fs) + FetcherRank(f)
  {
    var n := |fs| - 1;
    if i == n {
      assert fs[i := f][..n] == fs[..n];
    } else {
      assert fs[i := f][..n] == fs[..n][i := f];
      RankUpdate(fs[..n], i, f);
    }
  }

  lemma StepDecreases(outcomes: seq<Outcome>, s: State, a: Action)
    requires Inv(outcomes, s) && Enabled(outcomes, s, a)
    ensures Rank(Apply(outcomes, s, a)) == Rank(s) - 1
  {
    match a
    case Spawn => RankUpdate(s.fetchers, s.main.i, Fetching);
    case Respond(i) => RankUpdate(s.fetchers, i, Sending(Text(outcomes[i])));
    case Receive(i) => RankUpdate(s.fetchers, i, Returned);
    case _ =>
  }

  lemma {:induction false} InitialRank(outcomes: seq<Outcome>)
    ensures Rank(Init(outcomes)) == 3 * |outcomes| + 2
  {
    if outcomes != [] {
      var n := |outcomes| - 1;
      InitialRank(outcomes[..n]);
      assert Init(outcomes).fetchers[..n] == Init(outcomes[..n]).fetchers;
    }
  }

  lemma {:induction false} RunLength(outcomes: seq<Outcome>, s: State, acts: seq<Action>)
    requires Inv(outcomes, s) && IsRun(outcomes, s, acts)
    ensures |acts| + Rank(After(outcomes, s, acts)) == Rank(s)
    decreases |acts|
  {
    if acts != [] {
      InvStep(outcomes, s, acts[0]);
      StepDecreases(outcomes, s, acts[0]);
      RunLength(outcomes, Apply(outcomes, s, acts[0]), acts[1..]);
    }
  }

  lemma {:induction false} ZeroRank(fs: seq<Fetcher>)
    requires FetchersRank(fs) == 0
    ensures forall i :: 0 <= i < |fs| ==> fs[i] == Returned
  {
    if fs != [] { ZeroRank(fs[..|fs| - 1]); }
  }

  lemma SomeStep(outcomes: seq<Outcome>, s: State) returns (a: Action)
    requires Inv(outcomes, s) && s.main != Finished
    ensures Enabled(outcomes, s, a)
  {
    match s.main
    case Spawning(i) => a := if i < |outcomes| then Spawn else EndSpawning;
    case Receiving(k) =>
      if k >= |outcomes| { return EndReceiving; }
      FewerThanAll(s.from, |outcomes|);
      var i := Missing(s.from, |outcomes|);
      a := if s.fetchers[i] == Fetching then Respond(i) else Receive(i);
  }

  /** Fewer than n distinct numbers leave one below n out. */
  lemma {:induction false} Missing(xs: seq<nat>, n: nat) returns (i: nat)
    requires |xs| < n
    requires forall j, k :: 0 <= j < k < |xs| ==> xs[j] != xs[k]
    ensures i < n && i !in xs
  {
    if n - 1 !in xs { return n - 1; }
    var j :| 0 <= j < |xs| && xs[j] == n - 1;
    var ys := xs[..j] + xs[j + 1..];
    i := Missing(ys, n - 1);
    forall k | 0 <= k < |xs| && k != j ensures xs[k] in ys {
      assert ys[if k < j then k else k - 1] == xs[k];
    }
  }

  /// Main result

  /** Every interleaving takes 3N + 2 steps and stops only with main finished, every fetcher returned and
      exactly one result received for each of the N arguments, equal ones included. */
  lemma {:induction false} EveryRunCollectsAll(outcomes: seq<Outcome>, acts: seq<Action>)
    requires IsRun(outcomes, Init(outcomes), acts)
    ensures |acts| <= 3 * |outcomes| + 2
    ensures var s := After(outcomes, Init(outcomes), acts);
            (exists a :: Enabled(outcomes, s, a)) <==> |acts| < 3 * |outcomes| + 2
    ensures |acts| == 3 * |outcomes| + 2 ==> Complete(outcomes, After(outcomes, Init(outcomes), acts))
  {
    InitialRank(outcomes);
    InvRun(outcomes, Init(outcomes), acts);
    RunLength(outcomes, Init(outcomes), acts);
    Outcomes(outcomes, After(outcomes, Init(outcomes), acts));
  }

  ghost predicate Complete(outcomes: seq<Outcome>, s: State) {
    && s.main == Finished
    && |s.fetchers| == |s.received| == |s.from| == |outcomes|
    && (forall i :: 0 <= i < |outcomes| ==> s.fetchers[i] == Returned)
    && (forall i :: 0 <= i < |outcomes| ==> i in s.from)
    && (forall j, k :: 0 <= j < k < |outcomes| ==> s.from[j] != s.from[k])
    && (forall j :: 0 <= j < |outcomes| ==> s.from[j] < |outcomes| && Reports(s.received[j], outcomes[s.from[j]]))
  }

  /** The text says which of the three things happened. */
  predicate Reports(text: string, o: Outcome) {
    && (o.GetFailed? ==> text == o.error)
    && (o.ReadFailed? ==> text == "while reading " + o.url + ": " + o.error)
    && (o.Fetched? ==> text == o.report)
  }

  lemma Outcomes(outcomes: seq<Outcome>, s: State)
    requires Inv(outcomes, s)
    ensures (exists a :: Enabled(outcomes, s, a)) <==> Rank(s) > 0
    ensures Rank(s) == 0 ==> Complete(outcomes, s)
  {
    if s.main != Finished {
      var a := SomeStep(outcomes, s);
      assert Enabled(outcomes, s, a);
    } else {
      FewerThanAll(s.from, |outcomes|);
      AllReturned(s.fetchers);
    }
  }

  lemma {:induction false} AllReturned(fs: seq<Fetcher>)
    requires forall i :: 0 <= i < |fs| ==> fs[i] == Returned
    ensures FetchersRank(fs) == 0
  {
    if fs != [] { AllReturned(fs[..|fs| - 1]); }
  }
}
