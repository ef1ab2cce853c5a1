/** The chat protocol never deadlocks, and with finitely many connections and input lines every run ends,
    with the room empty, every channel closed and every writer gone. */
module ChatProgress {
  import opened ChatProtocol
  import opened ChatSafety

  /** Steps the server takes by itself; the others wait for a connection or for a user's input. */
  predicate Internal(a: Action) {
    !a.Accept? && !a.ScanLine? && !a.ScanEnd?
  }

  /** Nothing is left to do until the environment moves. */
  predicate LinkQuiet(s: State, c: Conn)
    requires c < |s.links|
  {
    && (s.links[c].handler.Dialing? || s.links[c].handler.Reading? || s.links[c].handler.Done?)
    && !s.links[c].writer.Writing?
    && (c in s.closed ==> s.links[c].writer.Exited?)
  }

  predicate Quiet(s: State) {
    s.broadcaster.Idle? && forall c :: 0 <= c < |s.links| ==> LinkQuiet(s, c)
  }

  lemma BroadcasterCanStep(cfg: Config, s: State) returns (a: Action)
    requires Lifecycle(cfg, s) && !s.broadcaster.Idle?
    ensures Internal(a) && Enabled(cfg, s, a)
  {
    if s.broadcaster.Removing? {
      a := CloseChannel;
    } else if s.broadcaster.todo == {} {
      a := EndRange;
    } else {
      var c :| c in s.broadcaster.todo;
      assert LinkLifecycle(cfg[c], s, c);
      a := if s.links[c].writer.Writing? then FinishWrite(c) else DeliverTo(c);
    }
  }

  lemma LinkCanStep(cfg: Config, s: State, c: Conn) returns (a: Action)
    requires Lifecycle(cfg, s) && s.broadcaster.Idle? && c < |cfg| && !LinkQuiet(s, c)
    ensures Internal(a) && Enabled(cfg, s, a)
  {
    assert LinkLifecycle(cfg[c], s, c);
    var l := s.links[c];
    if l.writer.Writing? { return FinishWrite(c); }
    match l.handler
    case Greet => a := SendGreeting(c);
    case Announce => a := SendMessage(c);
    case Saying(_) => a := SendMessage(c);
    case Farewell => a := SendMessage(c);
    case Enter => a := SendEnter(c);
    case Leave => a := SendLeave(c);
    case Hangup => a := CloseConn(c);
    case _ => a := WriterExit(c);
  }

  /** No deadlock: in a reachable state the server itself can step exactly when it is not quiet. */
  lemma NoDeadlock(cfg: Config, s: State)
    requires Reachable(cfg, s)
    ensures (exists a :: Internal(a) && Enabled(cfg, s, a)) <==> !Quiet(s)
  {
    ReachableSafe(cfg, s);
    if !Quiet(s) {
      var a;
      if !s.broadcaster.Idle? {
        a := BroadcasterCanStep(cfg, s);
      } else {
        var c :| 0 <= c < |s.links| && !LinkQuiet(s, c);
        a := LinkCanStep(cfg, s, c);
      }
      assert Internal(a) && Enabled(cfg, s, a);
    } else {
      forall a | Internal(a) ensures !Enabled(cfg, s, a) {
        QuietBlocks(cfg, s, a);
      }
    }
  }

  lemma QuietBlocks(cfg: Config, s: State, a: Action)
    requires Quiet(s) && Internal(a)
    ensures !Enabled(cfg, s, a)
  {
    if !a.EndRange? && !a.CloseChannel? && a.c < |s.links| { assert LinkQuiet(s, a.c); }
  }

  /// Termination

  /** Steps a handler still has to take. */
  function StepsLeft(p: Peer, h: Handler): int {
    match h
    case Dialing => 8 + 2 * |p.lines|
    case Greet => 7 + 2 * |p.lines|
    case Announce => 6 + 2 * |p.lines|
    case Enter => 5 + 2 * |p.lines|
    case Reading(k) => 4 + 2 * (|p.lines| - k)
    case Saying(k) => 3 + 2 * (|p.lines| - k)
    case Leave => 3
    case Farewell => 2
    case Hangup => 1
    case Done => 0
  }

  /** One handler step can set off a delivery and a write for every client. */
  function Weight(cfg: Config): nat { 2 * |cfg| + 2 }

  function LinkRank(p: Peer, l: Link, weight: nat): int {
    StepsLeft(p, l.handler) * weight + WriterRank(l.writer)
  }

  function WriterRank(w: Writer): nat {
    match w case Writing(_) => 2 case Ready => 1 case _ => 0
  }

  function LinksRank(cfg: Config, links: seq<Link>, weight: nat, n: nat): int
    requires n <= |cfg| && n <= |links|
  {
    if n == 0 then 0 else LinksRank(cfg, links, weight, n - 1) + LinkRank(cfg[n - 1], links[n - 1], weight)
  }

  function BroadcasterRank(b: Broadcaster): nat {
    match b
    case Idle => 0
    case Delivering(_, todo) => 1 + 2 * |todo|
    case Removing(_) => 1
  }

  function Rank(cfg: Config, s: State): int
    requires |s.links| == |cfg|
  {
    LinksRank(cfg, s.links, Weight(cfg), |cfg|) + BroadcasterRank(s.broadcaster)
  }

  lemma {:induction false} RankUpdate(cfg: Config, links: seq<Link>, weight: nat, c: Conn, l: Link, n: nat)
    requires n <= |cfg| && n <= |links| && c < |links| && c < |cfg|
    ensures LinksRank(cfg, links[c := l], weight, n) ==
            LinksRank(cfg, links, weight, n)
            + (if c < n then LinkRank(cfg[c], l, weight) - LinkRank(cfg[c], links[c], weight) else 0)
  {
    if n > 0 { RankUpdate(cfg, links, weight, c, l, n - 1); }
  }

  lemma {:induction false} RankNonnegative(cfg: Config, s: State, n: nat)
    requires Lifecycle(cfg, s) && n <= |cfg|
    ensures LinksRank(cfg, s.links, Weight(cfg), n) >= 0
  {
    if n > 0 {
      RankNonnegative(cfg, s, n - 1);
      assert LinkLifecycle(cfg[n - 1], s, n - 1);
      assert StepsLeft(cfg[n - 1], s.links[n - 1].handler) >= 0;
    }
  }

  lemma {:induction false} AtMost(xs: set<Conn>, n: nat)
    requires forall c :: c in xs ==> c < n
    ensures |xs| <= n
  {
    if n > 0 {
      AtMost(xs - {n - 1}, n - 1);
      if n - 1 in xs { assert |xs| == |xs - {n - 1}| + 1; }
      else { assert xs - {n - 1} == xs; }
    }
  }

  lemma {:induction false} WeightFalls(x: int, y: int, weight: nat)
    requires y <= x - 1
    ensures y * weight <= x * weight - weight
    decreases x - y
  {
    assert (x - 1) * weight == x * weight - weight;
    if y < x - 1 { WeightFalls(x - 1, y, weight); }
  }

  lemma StepDecreases(cfg: Config, s: State, a: Action)
    requires Lifecycle(cfg, s) && Enabled(cfg, s, a)
    ensures Rank(cfg, Apply(cfg, s, a)) < Rank(cfg, s)
  {
    if a.EndRange? || a.CloseChannel? || a.DeliverTo? {
      BroadcasterStepDecreases(cfg, s, a);
    } else if a.FinishWrite? || a.WriterExit? {
      RankUpdate(cfg, s.links, Weight(cfg), a.c, Apply(cfg, s, a).links[a.c], |cfg|);
    } else {
      HandlerStepDecreases(cfg, s, a);
    }
  }

  lemma BroadcasterStepDecreases(cfg: Config, s: State, a: Action)
    requires Lifecycle(cfg, s) && Enabled(cfg, s, a) && (a.EndRange? || a.CloseChannel? || a.DeliverTo?)
    ensures Rank(cfg, Apply(cfg, s, a)) < Rank(cfg, s)
  {
    match a
    case EndRange =>
    case CloseChannel => assert LinkLifecycle(cfg[s.broadcaster.conn], s, s.broadcaster.conn);
    case DeliverTo(c) =>
      assert LinkLifecycle(cfg[c], s, c);
      RankUpdate(cfg, s.links, Weight(cfg), c, Apply(cfg, s, a).links[c], |cfg|);
      assert |s.broadcaster.todo - {c}| == |s.broadcaster.todo| - 1;
  }

  lemma HandlerStepCost(cfg: Config, s: State, a: Action)
    requires Lifecycle(cfg, s) && Enabled(cfg, s, a)
    requires !a.EndRange? && !a.CloseChannel? && !a.DeliverTo? && !a.FinishWrite? && !a.WriterExit?
    ensures var s' := Apply(cfg, s, a);
            && s'.links == s.links[a.c := s'.links[a.c]]
            && StepsLeft(cfg[a.c], s'.links[a.c].handler) < StepsLeft(cfg[a.c], s.links[a.c].handler)
            && BroadcasterRank(s'.broadcaster) + WriterRank(s'.links[a.c].writer)
               < BroadcasterRank(s.broadcaster) + WriterRank(s.links[a.c].writer) + Weight(cfg)
  {
    assert LinkLifecycle(cfg[a.c], s, a.c);
    if a.SendMessage? { AtMost(s.clients, |cfg|); }
  }

  /** A handler step pays for everything it sets off. */
  lemma HandlerStepDecreases(cfg: Config, s: State, a: Action)
    requires Lifecycle(cfg, s) && Enabled(cfg, s, a)
    requires !a.EndRange? && !a.CloseChannel? && !a.DeliverTo? && !a.FinishWrite? && !a.WriterExit?
    ensures Rank(cfg, Apply(cfg, s, a)) < Rank(cfg, s)
  {
    var l, l', w := s.links[a.c], Apply(cfg, s, a).links[a.c], Weight(cfg);
    HandlerStepCost(cfg, s, a);
    RankUpdate(cfg, s.links, w, a.c, l', |cfg|);
    WeightFalls(StepsLeft(cfg[a.c], l.handler), StepsLeft(cfg[a.c], l'.handler), w);
  }

  lemma {:induction false} RunIsShort(cfg: Config, s: State, acts: seq<Action>)
    requires Safe(cfg, s) && IsRun(cfg, s, acts)
    ensures |acts| <= Rank(cfg, s)
    decreases |acts|
  {
    RankNonnegative(cfg, s, |cfg|);
    if acts != [] {
      SafeStep(cfg, s, acts[0]);
      StepDecreases(cfg, s, acts[0]);
      RunIsShort(cfg, Apply(cfg, s, acts[0]), acts[1..]);
    }
  }

  /** Handler steps of the first n connections: eight each, and two for every line. */
  function HandlerSteps(cfg: Config, n: nat): nat
    requires n <= |cfg|
  {
    if n == 0 then 0 else HandlerSteps(cfg, n - 1) + 8 + 2 * |cfg[n - 1].lines|
  }

  lemma {:induction false} InitialRank(cfg: Config, n: nat)
    requires n <= |cfg|
    ensures LinksRank(cfg, Init(cfg).links, Weight(cfg), n) == HandlerSteps(cfg, n) * Weight(cfg)
  {
    if n > 0 {
      InitialRank(cfg, n - 1);
      var x, y, w := HandlerSteps(cfg, n - 1), 8 + 2 * |cfg[n - 1].lines|, Weight(cfg);
      assert (x + y) * w == x * w + y * w;
    }
  }

  /** Every run is finite: its length is bounded by the connections and the lines they type. */
  lemma EveryRunEnds(cfg: Config, acts: seq<Action>)
    requires IsRun(cfg, Init(cfg), acts)
    ensures |acts| <= HandlerSteps(cfg, |cfg|) * (2 * |cfg| + 2)
  {
    InitialRank(cfg, |cfg|);
    InitSafe(cfg);
    RunIsShort(cfg, Init(cfg), acts);
  }

  /** A run that cannot be extended has served everyone: the room is empty, every channel is closed and every
      writer has exited, every script is in the log in full, and each client got its greeting and its window. */
  lemma FinishedRun(cfg: Config, s: State, c: Conn)
    requires Reachable(cfg, s) && !(exists a :: Enabled(cfg, s, a)) && c < |cfg|
    ensures |s.links| == |cfg| && s.broadcaster == Idle && s.clients == {}
    ensures c in s.closed && s.links[c].handler == Done && s.links[c].writer == Exited
    ensures s.links[c].joined <= s.links[c].parted <= |s.log|
    ensures s.links[c].received == ["You are " + cfg[c].who] + Texts(s.log[s.links[c].joined..s.links[c].parted])
    ensures var p, own, heard := cfg[c], Own(s.log, c), Own(s.log[s.links[c].joined..s.links[c].parted], c);
            && |own| == |p.lines| + 2 && |heard| == |p.lines|
            && own[0] == p.who + " has arrived" && own[|p.lines| + 1] == p.who + " has left"
            && forall k :: 0 <= k < |p.lines| ==> own[k + 1] == heard[k] == p.who + ": " + p.lines[k]
  {
    ScriptTexts(cfg[c]);
    ReachableSafe(cfg, s);
    NoDeadlock(cfg, s);
    forall d | 0 <= d < |cfg| ensures s.links[d].handler == Done {
      assert LinkQuiet(s, d);
      StuckLinkIsDone(cfg, s, d);
    }
    MembersAreInRoom(cfg, s);
    assert forall d :: d in s.clients ==> s.links[d].handler == Done;
    DoneLink(cfg, s, c);
    OwnInWindow(cfg, s, c);
  }

  lemma MembersAreInRoom(cfg: Config, s: State)
    requires Lifecycle(cfg, s)
    ensures forall d :: d in s.clients ==> d < |cfg| && InRoom(s.links[d].handler)
  {
    forall d | d in s.clients ensures d < |cfg| && InRoom(s.links[d].handler) {
      assert LinkLifecycle(cfg[d], s, d);
    }
  }

  lemma StuckLinkIsDone(cfg: Config, s: State, c: Conn)
    requires |s.links| == |cfg| && !s.panicked && c < |cfg| && LinkQuiet(s, c)
    requires !Enabled(cfg, s, Accept(c)) && !Enabled(cfg, s, ScanLine(c)) && !Enabled(cfg, s, ScanEnd(c))
    ensures s.links[c].handler == Done
  {
  }

  lemma DoneLink(cfg: Config, s: State, c: Conn)
    requires Safe(cfg, s) && Quiet(s) && c < |cfg| && s.links[c].handler == Done
    ensures c in s.closed && s.links[c].writer == Exited
    ensures s.links[c].joined <= s.links[c].parted <= |s.log|
    ensures Window(s, c) == s.log[s.links[c].joined..s.links[c].parted]
    ensures s.links[c].received == [Greeting(cfg[c])] + Texts(Window(s, c))
  {
    assert LinkLifecycle(cfg[c], s, c) && LinkQuiet(s, c) && LinkOrder(cfg[c], s, c);
  }
}
