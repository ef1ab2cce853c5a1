/** The start loop of the otp service: instance I is pinned to the current core, and the core id then steps
    by one (full mode) or two (half mode) modulo the core count. */
module CorePinning {
  import opened Arithmetic

  datatype Mode = Full | Half

  function First(m: Mode): nat { if m.Full? then 0 else 1 }

  function Step(m: Mode): nat { if m.Full? then 1 else 2 }

  /** The core id in force for the i-th instance. */
  function CoreOf(m: Mode, cores: nat, i: nat): nat
    requires cores >= 1
  {
    if i == 0 then First(m) else (First(m) + i * Step(m)) % cores
  }

  /** The loop: one start per instance, with the core id stepped in the loop header. */
  method Start(m: Mode, cores: nat, instances: nat) returns (pinned: seq<nat>)
    requires cores >= 1
    ensures |pinned| == instances
    ensures forall i :: 0 <= i < instances ==> pinned[i] == CoreOf(m, cores, i)
    ensures m.Full? ==> forall i :: 0 <= i < instances ==> pinned[i] == i % cores
    ensures m.Half? && instances > 0 ==> pinned[0] == 1
    ensures m.Half? ==> forall i :: 0 < i < instances ==> pinned[i] == (1 + 2 * i) % cores
  {
    var coreId, step := 0, 1;
    if m == Half { coreId, step := 1, 2; }
    pinned := [];
    var i := 0;
    while i < instances
      invariant 0 <= i <= instances && |pinned| == i
      invariant step == Step(m) && coreId == CoreOf(m, cores, i)
      invariant forall k :: 0 <= k < i ==> pinned[k] == CoreOf(m, cores, k)
    {
      pinned := pinned + [coreId];
      StepWraps(First(m) + i * step, step, cores);
      coreId, i := (coreId + step) % cores, i + 1;
    }
    ZeroRemainder(cores);
    assert forall i :: 0 < i < instances ==> i * 1 == i && i * 2 == 2 * i;
  }

  lemma StepWraps(x: nat, step: nat, cores: nat)
    requires cores >= 1
    ensures (x % cores + step) % cores == (x + step) % cores
  {
    var y := x % cores + step;
    Distribute(x / cores, y / cores, cores);
    QuotientOf(x + step, x / cores + y / cores, y % cores, cores);
  }

  /// How often each core is used

  /** The cores the loop can reach: all of them, except that half mode skips the even ones when the count is even. */
  predicate Eligible(m: Mode, cores: nat, core: nat) {
    core < cores && (m.Full? || cores % 2 == 1 || core % 2 == 1)
  }

  /** How many starts go by before the core ids repeat. */
  function Period(m: Mode, cores: nat): nat {
    if m == Half && cores % 2 == 0 then cores / 2 else cores
  }

  /** When a core is reached for the first time. */
  function Slot(m: Mode, cores: nat, core: nat): int {
    if m.Full? then core
    else if core % 2 == 1 then (core - 1) / 2
    else (core - 1 + cores) / 2
  }

  lemma EvenHalf(cores: nat, i: nat)
    requires cores >= 2 && cores % 2 == 0
    ensures (1 + i * 2) % cores == 1 + i % (cores / 2) * 2
  {
    var h := cores / 2;
    var q, r := i / h, i % h;
    assert i == q * h + r;
    Distribute(h, h, q);
    QuotientOf(1 + i * 2, q, 1 + r * 2, cores);
  }

  lemma OddHalf(cores: nat, i: nat)
    requires cores >= 2 && cores % 2 == 1
    ensures (1 + i * 2) % cores == var r := i % cores; if 1 + r * 2 < cores then 1 + r * 2 else 1 + r * 2 - cores
  {
    var q, r := i / cores, i % cores;
    assert i == q * cores + r;
    Distribute(q, q, cores);
    if 1 + r * 2 < cores {
      QuotientOf(1 + i * 2, q + q, 1 + r * 2, cores);
    } else {
      Distribute(q + q, 1, cores);
      QuotientOf(1 + i * 2, q + q + 1, 1 + r * 2 - cores, cores);
    }
  }

  /** The core reached in slot r of a round. */
  function CoreInRound(m: Mode, cores: nat, r: nat): int {
    if m.Full? then r else if 1 + r * 2 < cores then 1 + r * 2 else 1 + r * 2 - cores
  }

  lemma RoundsRepeat(m: Mode, cores: nat, i: nat)
    requires cores >= 2 || (m.Full? && cores == 1)
    ensures Period(m, cores) >= 1
    ensures CoreOf(m, cores, i) == CoreInRound(m, cores, i % Period(m, cores))
  {
    ZeroRemainder(Period(m, cores));
    if m.Full? {
      assert i * 1 == i;
    } else if cores % 2 == 0 {
      EvenHalf(cores, i);
    } else {
      OddHalf(cores, i);
    }
  }

  lemma SlotInverts(m: Mode, cores: nat, r: nat, core: nat)
    requires (cores >= 2 || (m.Full? && cores == 1)) && r < Period(m, cores)
    ensures CoreInRound(m, cores, r) == core <==> Eligible(m, cores, core) && r == Slot(m, cores, core)
  {
  }

  /** Instance i lands on a core exactly when that core is eligible and its slot comes round. */
  lemma PinnedIff(m: Mode, cores: nat, i: nat, core: nat)
    requires cores >= 2 || (m.Full? && cores == 1)
    ensures Period(m, cores) >= 1
    ensures CoreOf(m, cores, i) == core <==> Eligible(m, cores, core) && i % Period(m, cores) == Slot(m, cores, core)
  {
    RoundsRepeat(m, cores, i);
    SlotInverts(m, cores, i % Period(m, cores), core);
  }

  lemma ZeroRemainder(n: nat)
    requires n >= 1
    ensures 0 % n == 0
  {
  }

  function Load(pinned: seq<nat>, core: nat): nat {
    if pinned == [] then 0
    else Load(pinned[..|pinned| - 1], core) + if pinned[|pinned| - 1] == core then 1 else 0
  }

  /** pinned is what Start returns. */
  predicate IsPinning(m: Mode, cores: nat, pinned: seq<nat>)
    requires cores >= 1
  {
    forall i :: 0 <= i < |pinned| ==> pinned[i] == CoreOf(m, cores, i)
  }

  lemma NextRemainder(n: nat, p: nat)
    requires p >= 1
    ensures if n % p == p - 1 then (n + 1) % p == 0 && (n + 1) / p == n / p + 1
            else (n + 1) % p == n % p + 1 && (n + 1) / p == n / p
  {
    if n % p == p - 1 {
      Distribute(n / p, 1, p);
      QuotientOf(n + 1, n / p + 1, 0, p);
    } else {
      QuotientOf(n + 1, n / p, n % p + 1, p);
    }
  }

  /** The exact load of every core after any number of starts. */
  lemma {:induction false} LoadIs(m: Mode, cores: nat, pinned: seq<nat>, core: nat)
    requires cores >= 2 || (m.Full? && cores == 1)
    requires IsPinning(m, cores, pinned)
    ensures var p := Period(m, cores);
            && p >= 1
            && Load(pinned, core) == if !Eligible(m, cores, core) then 0
                                     else |pinned| / p + if Slot(m, cores, core) < |pinned| % p then 1 else 0
  {
    var p := Period(m, cores);
    if pinned != [] {
      var n := |pinned| - 1;
      LoadIs(m, cores, pinned[..n], core);
      PinnedIff(m, cores, n, core);
      NextRemainder(n, p);
      assert 0 <= n % p < p;
      if Eligible(m, cores, core) { SlotBelowPeriod(m, cores, core); }
    } else {
      ZeroRemainder(p);
      if Eligible(m, cores, core) { SlotBelowPeriod(m, cores, core); }
    }
  }

  lemma SlotBelowPeriod(m: Mode, cores: nat, core: nat)
    requires Eligible(m, cores, core)
    ensures 0 <= Slot(m, cores, core) < Period(m, cores)
  {
  }

  /** Eligible cores never differ by more than one instance; the others stay empty. */
  lemma Balanced(m: Mode, cores: nat, pinned: seq<nat>, c: nat, d: nat)
    requires cores >= 2 || (m.Full? && cores == 1)
    requires IsPinning(m, cores, pinned) && Eligible(m, cores, c)
    ensures Eligible(m, cores, d) ==> -1 <= Load(pinned, c) - Load(pinned, d) <= 1
    ensures !Eligible(m, cores, d) ==> Load(pinned, d) == 0
  {
    LoadIs(m, cores, pinned, c);
    LoadIs(m, cores, pinned, d);
  }

  /** Every id handed out is a core of the machine, unless half mode starts on a machine with one core. */
  lemma IdsExist(m: Mode, cores: nat, pinned: seq<nat>)
    requires cores >= 1 && IsPinning(m, cores, pinned)
    ensures (forall i :: 0 <= i < |pinned| ==> pinned[i] < cores) <==> pinned == [] || m.Full? || cores >= 2
  {
    if pinned != [] { assert pinned[0] == First(m); }
  }
}
