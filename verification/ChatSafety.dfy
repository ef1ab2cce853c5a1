/** What every reachable state of the chat protocol satisfies: channel lifecycle, one global order, and
    each connection's own messages in program order. */
module ChatSafety {
  import opened ChatProtocol

  /// Channel lifecycle

  predicate InRoom(h: Handler) { h.Reading? || h.Saying? || h.Leave? }

  predicate Gone(h: Handler) { h.Farewell? || h.Hangup? || h.Done? }

  /** Membership in the client map and closing of the channel are both fixed by where the handler is. */
  predicate LinkLifecycle(p: Peer, s: State, c: Conn)
    requires c < |s.links|
  {
    var l := s.links[c];
    && (l.handler.Reading? ==> l.handler.k <= |p.lines|)
    && (l.handler.Saying? ==> l.handler.k < |p.lines|)
    && (c in s.clients <==> InRoom(l.handler))
    && (c in s.closed <==> Gone(l.handler) && s.broadcaster != Removing(c))
    && (s.broadcaster == Removing(c) ==> l.handler.Farewell?)
    && (l.handler.Dialing? <==> l.writer.Unborn?)
    && (l.handler.Greet? ==> l.writer.Ready?)
    && (l.writer.Exited? ==> c in s.closed)
  }

  predicate Lifecycle(cfg: Config, s: State) {
    && |s.links| == |cfg|
    && !s.panicked
    && (forall c :: c in s.clients ==> c < |cfg|)
    && (s.broadcaster.Delivering? ==> s.broadcaster.todo <= s.clients)
    && (s.broadcaster.Removing? ==> s.broadcaster.conn < |cfg|)
    && forall c :: 0 <= c < |cfg| ==> LinkLifecycle(cfg[c], s, c)
  }

  predicate OfBroadcaster(a: Action) { a.EndRange? || a.CloseChannel? }

  /** A step keeps each link's lifecycle, given that it does not panic. */
  lemma OwnLifecycleStep(cfg: Config, s: State, a: Action)
    requires Enabled(cfg, s, a) && !OfBroadcaster(a) && LinkLifecycle(cfg[a.c], s, a.c)
    requires !Apply(cfg, s, a).panicked && (a.DeliverTo? ==> a.c in s.clients)
    ensures LinkLifecycle(cfg[a.c], Apply(cfg, s, a), a.c)
  {
  }

  lemma OthersLifecycleStep(cfg: Config, s: State, a: Action, d: Conn)
    requires Enabled(cfg, s, a) && d < |cfg| && LinkLifecycle(cfg[d], s, d) && !Apply(cfg, s, a).panicked
    requires OfBroadcaster(a) || a.c != d
    ensures LinkLifecycle(cfg[d], Apply(cfg, s, a), d)
  {
    assert Apply(cfg, s, a).links[d] == s.links[d];
  }

  lemma StepDoesNotPanic(cfg: Config, s: State, a: Action)
    requires Lifecycle(cfg, s) && Enabled(cfg, s, a)
    ensures !Apply(cfg, s, a).panicked
  {
    if a.CloseChannel? { assert LinkLifecycle(cfg[s.broadcaster.conn], s, s.broadcaster.conn); }
    if a.DeliverTo? || a.SendGreeting? { assert LinkLifecycle(cfg[a.c], s, a.c); }
  }

  lemma MembersStep(cfg: Config, s: State, a: Action)
    requires Lifecycle(cfg, s) && Enabled(cfg, s, a)
    ensures var s' := Apply(cfg, s, a);
            && (forall c :: c in s'.clients ==> c < |cfg|)
            && (s'.broadcaster.Delivering? ==> s'.broadcaster.todo <= s'.clients)
            && (s'.broadcaster.Removing? ==> s'.broadcaster.conn < |cfg|)
  {
  }

  lemma LifecycleStep(cfg: Config, s: State, a: Action)
    requires Lifecycle(cfg, s) && Enabled(cfg, s, a)
    ensures Lifecycle(cfg, Apply(cfg, s, a))
  {
    StepDoesNotPanic(cfg, s, a);
    MembersStep(cfg, s, a);
    forall d | 0 <= d < |cfg| ensures LinkLifecycle(cfg[d], Apply(cfg, s, a), d) {
      assert LinkLifecycle(cfg[d], s, d);
      if OfBroadcaster(a) || a.c != d { OthersLifecycleStep(cfg, s, a, d); } else { OwnLifecycleStep(cfg, s, a); }
    }
  }

  /// One global order

  /** 1 while the newest log entry is still on its way to c. */
  function Pending(s: State, c: Conn): nat {
    if s.broadcaster.Delivering? && c in s.broadcaster.todo then 1 else 0
  }

  /** The stretch of the broadcast log that c is due: from its entering step to its leaving step, or up to
      the end of the log short of the message still being delivered to it. */
  function Window(s: State, c: Conn): seq<Message>
    requires c < |s.links|
  {
    var l := s.links[c];
    if InRoom(l.handler) && l.joined + Pending(s, c) <= |s.log| then s.log[l.joined..|s.log| - Pending(s, c)]
    else if Gone(l.handler) && l.joined <= l.parted <= |s.log| then s.log[l.joined..l.parted]
    else []
  }

  predicate LinkOrder(p: Peer, s: State, c: Conn)
    requires c < |s.links|
  {
    var l := s.links[c];
    && (InRoom(l.handler) ==> l.joined + Pending(s, c) <= |s.log|)
    && (Gone(l.handler) ==> l.joined <= l.parted <= |s.log|)
    && l.received == (if l.handler.Dialing? || l.handler.Greet? then [] else [Greeting(p)] + Texts(Window(s, c)))
  }

  predicate Order(cfg: Config, s: State) {
    && Lifecycle(cfg, s)
    && (s.broadcaster.Delivering? ==> |s.log| > 0 && s.log[|s.log| - 1] == s.broadcaster.msg)
    && forall c :: 0 <= c < |cfg| ==> LinkOrder(cfg[c], s, c)
  }

  /** What a step must leave alone for c's window and stream to stay as they are. */
  predicate Steady(s: State, s': State, c: Conn)
    requires c < |s.links| && c < |s'.links|
  {
    var l, l' := s.links[c], s'.links[c];
    && s'.log == s.log && Pending(s', c) == Pending(s, c)
    && l'.received == l.received && l'.joined == l.joined && l'.parted == l.parted
    && InRoom(l'.handler) == InRoom(l.handler) && Gone(l'.handler) == Gone(l.handler)
    && (l'.handler.Dialing? || l'.handler.Greet?) == (l.handler.Dialing? || l.handler.Greet?)
  }

  lemma SteadyKeepsOrder(p: Peer, s: State, s': State, c: Conn)
    requires c < |s.links| && c < |s'.links| && LinkOrder(p, s, c) && Steady(s, s', c)
    ensures LinkOrder(p, s', c)
  {
    assert Window(s', c) == Window(s, c);
  }

  lemma DeliveryKeepsOrder(cfg: Config, s: State, c: Conn)
    requires Enabled(cfg, s, DeliverTo(c)) && c in s.clients
    requires LinkLifecycle(cfg[c], s, c) && LinkOrder(cfg[c], s, c)
    requires |s.log| > 0 && s.log[|s.log| - 1] == s.broadcaster.msg
    ensures LinkOrder(cfg[c], Apply(cfg, s, DeliverTo(c)), c)
  {
    var s', m, l := Apply(cfg, s, DeliverTo(c)), s.broadcaster.msg, s.links[c];
    assert Pending(s, c) == 1 && Pending(s', c) == 0 && s'.log == s.log;
    assert s'.links[c] == l.(writer := Writing(m.text), received := l.received + [m.text]);
    var w, w' := Window(s, c), Window(s', c);
    assert w == s.log[l.joined..|s.log| - 1] && w' == s.log[l.joined..|s.log|] == w + [m];
    assert Texts(w') == Texts(w) + [m.text];
  }

  lemma AcceptanceKeepsOrder(cfg: Config, s: State, c: Conn, d: Conn)
    requires Enabled(cfg, s, SendMessage(c)) && d < |cfg|
    requires LinkLifecycle(cfg[d], s, d) && LinkOrder(cfg[d], s, d)
    ensures LinkOrder(cfg[d], Apply(cfg, s, SendMessage(c)), d)
  {
    var s' := Apply(cfg, s, SendMessage(c));
    var l, l' := s.links[d], s'.links[d];
    assert l'.received == l.received && l'.joined == l.joined && l'.parted == l.parted;
    assert InRoom(l'.handler) == InRoom(l.handler) && Gone(l'.handler) == Gone(l.handler);
    assert Pending(s, d) == 0 && (InRoom(l.handler) ==> Pending(s', d) == 1);
    assert Window(s', d) == Window(s, d);
  }

  lemma MembershipKeepsOrder(cfg: Config, s: State, a: Action)
    requires Order(cfg, s) && Enabled(cfg, s, a) && (a.SendEnter? || a.SendLeave? || a.SendGreeting?)
    ensures LinkOrder(cfg[a.c], Apply(cfg, s, a), a.c)
  {
    assert LinkLifecycle(cfg[a.c], s, a.c) && LinkOrder(cfg[a.c], s, a.c);
    assert Window(Apply(cfg, s, a), a.c) == Window(s, a.c);
  }

  lemma OtherStepsSteady(cfg: Config, s: State, a: Action, d: Conn)
    requires Enabled(cfg, s, a) && d < |cfg| && LinkLifecycle(cfg[d], s, d)
    requires !a.SendMessage? && !((a.DeliverTo? || a.SendEnter? || a.SendLeave? || a.SendGreeting?) && a.c == d)
    ensures Steady(s, Apply(cfg, s, a), d)
  {
    var s' := Apply(cfg, s, a);
    assert s'.log == s.log;
    assert Pending(s', d) == Pending(s, d);
  }

  lemma OrderStep(cfg: Config, s: State, a: Action)
    requires Order(cfg, s) && Enabled(cfg, s, a)
    ensures Order(cfg, Apply(cfg, s, a))
  {
    LifecycleStep(cfg, s, a);
    forall d | 0 <= d < |cfg| ensures LinkOrder(cfg[d], Apply(cfg, s, a), d) {
      if a.SendMessage? {
        AcceptanceKeepsOrder(cfg, s, a.c, d);
      } else if a == DeliverTo(d) {
        assert LinkLifecycle(cfg[d], s, d);
        DeliveryKeepsOrder(cfg, s, d);
      } else if a in {SendEnter(d), SendLeave(d), SendGreeting(d)} {
        MembershipKeepsOrder(cfg, s, a);
      } else {
        OtherStepsSteady(cfg, s, a, d);
        SteadyKeepsOrder(cfg[d], s, Apply(cfg, s, a), d);
      }
    }
  }

  /// Own messages

  lemma {:induction false} OwnSplit(ms: seq<Message>, ns: seq<Message>, c: Conn)
    ensures Own(ms + ns, c) == Own(ms, c) + Own(ns, c)
  {
    if ns == [] {
      assert ms + ns == ms;
    } else {
      var n := |ns| - 1;
      assert (ms + ns)[..|ms + ns| - 1] == ms + ns[..n];
      OwnSplit(ms, ns[..n], c);
    }
  }

  /** How many script entries a handler has already handed over. */
  function Sent(p: Peer, h: Handler): nat {
    match h
    case Dialing | Greet | Announce => 0
    case Enter => 1
    case Reading(k) => k + 1
    case Saying(k) => k + 1
    case Leave | Farewell => |p.lines| + 1
    case Hangup | Done => |p.lines| + 2
  }

  predicate LinkOwn(p: Peer, s: State, c: Conn)
    requires c < |s.links|
  {
    var l := s.links[c];
    && Sent(p, l.handler) <= |Script(p)|
    && Own(s.log, c) == Script(p)[..Sent(p, l.handler)]
    && (InRoom(l.handler) || Gone(l.handler) ==> l.joined <= |s.log| && Own(s.log[..l.joined], c) == [Arrived(p)])
    && (Gone(l.handler) ==> l.joined <= l.parted <= |s.log|
                            && Own(s.log[..l.parted], c) == Script(p)[..|p.lines| + 1])
  }

  predicate Safe(cfg: Config, s: State) {
    && Order(cfg, s)
    && forall c :: 0 <= c < |cfg| ==> LinkOwn(cfg[c], s, c)
  }

  lemma OutgoingIsNextInScript(p: Peer, h: Handler)
    requires HasMessage(h) && (h.Saying? ==> h.k < |p.lines|)
    ensures Sent(p, AfterMessage(h)) == Sent(p, h) + 1 <= |Script(p)|
    ensures Script(p)[..Sent(p, h)] + [Outgoing(p, h)] == Script(p)[..Sent(p, AfterMessage(h))]
  {
    assert Script(p)[Sent(p, h)] == Outgoing(p, h);
  }

  lemma AcceptanceExtendsOwnLog(cfg: Config, s: State, c: Conn, d: Conn)
    requires Enabled(cfg, s, SendMessage(c)) && d < |cfg| && LinkOwn(cfg[d], s, d)
    ensures var s' := Apply(cfg, s, SendMessage(c));
            && Sent(cfg[d], s'.links[d].handler) <= |Script(cfg[d])|
            && Own(s'.log, d) == Script(cfg[d])[..Sent(cfg[d], s'.links[d].handler)]
  {
    var m := Message(c, Outgoing(cfg[c], s.links[c].handler));
    OutgoingIsNextInScript(cfg[c], s.links[c].handler);
    OwnSplit(s.log, [m], d);
    assert [m][..0] == [];
    assert Own([m], d) == if c == d then [m.text] else [];
  }

  lemma AcceptanceKeepsOwn(cfg: Config, s: State, c: Conn, d: Conn)
    requires Enabled(cfg, s, SendMessage(c)) && d < |cfg| && LinkLifecycle(cfg[d], s, d) && LinkOwn(cfg[d], s, d)
    ensures LinkOwn(cfg[d], Apply(cfg, s, SendMessage(c)), d)
  {
    var s', l := Apply(cfg, s, SendMessage(c)), s.links[d];
    var l' := s'.links[d];
    AcceptanceExtendsOwnLog(cfg, s, c, d);
    assert l'.joined == l.joined && l'.parted == l.parted;
    assert InRoom(l'.handler) == InRoom(l.handler) && Gone(l'.handler) == Gone(l.handler);
    if InRoom(l.handler) || Gone(l.handler) { assert s'.log[..l.joined] == s.log[..l.joined]; }
    if Gone(l.handler) { assert s'.log[..l.parted] == s.log[..l.parted]; }
  }

  lemma EnteringKeepsOwn(cfg: Config, s: State, c: Conn)
    requires Enabled(cfg, s, SendEnter(c)) && LinkOwn(cfg[c], s, c)
    ensures LinkOwn(cfg[c], Apply(cfg, s, SendEnter(c)), c)
  {
    var s', n := Apply(cfg, s, SendEnter(c)), |s.log|;
    assert s'.log == s.log == s.log[..n] && s'.links[c].joined == n;
    assert Script(cfg[c])[..1] == [Arrived(cfg[c])];
  }

  lemma LeavingKeepsOwn(cfg: Config, s: State, c: Conn)
    requires Enabled(cfg, s, SendLeave(c)) && LinkOwn(cfg[c], s, c)
    ensures LinkOwn(cfg[c], Apply(cfg, s, SendLeave(c)), c)
  {
    var s', n := Apply(cfg, s, SendLeave(c)), |s.log|;
    assert s'.log == s.log == s.log[..n] && s'.links[c].parted == n;
    assert s'.links[c].joined == s.links[c].joined && Sent(cfg[c], Farewell) == Sent(cfg[c], Leave);
  }

  lemma OtherStepsKeepOwn(cfg: Config, s: State, a: Action, d: Conn)
    requires Enabled(cfg, s, a) && d < |cfg| && LinkLifecycle(cfg[d], s, d) && LinkOwn(cfg[d], s, d)
    requires !a.SendMessage? && a != SendEnter(d) && a != SendLeave(d)
    ensures LinkOwn(cfg[d], Apply(cfg, s, a), d)
  {
    var s' := Apply(cfg, s, a);
    var l, l' := s.links[d], s'.links[d];
    assert s'.log == s.log && l'.joined == l.joined && l'.parted == l.parted;
    assert InRoom(l'.handler) == InRoom(l.handler) && Gone(l'.handler) == Gone(l.handler);
    assert Sent(cfg[d], l'.handler) == Sent(cfg[d], l.handler);
  }

  lemma SafeStep(cfg: Config, s: State, a: Action)
    requires Safe(cfg, s) && Enabled(cfg, s, a)
    ensures Safe(cfg, Apply(cfg, s, a))
  {
    OrderStep(cfg, s, a);
    forall d | 0 <= d < |cfg| ensures LinkOwn(cfg[d], Apply(cfg, s, a), d) {
      assert LinkLifecycle(cfg[d], s, d) && LinkOwn(cfg[d], s, d);
      if a.SendMessage? {
        AcceptanceKeepsOwn(cfg, s, a.c, d);
      } else if a == SendEnter(d) {
        EnteringKeepsOwn(cfg, s, d);
      } else if a == SendLeave(d) {
        LeavingKeepsOwn(cfg, s, d);
      } else {
        OtherStepsKeepOwn(cfg, s, a, d);
      }
    }
  }

  lemma {:induction false} SafeRun(cfg: Config, s: State, acts: seq<Action>)
    requires Safe(cfg, s) && IsRun(cfg, s, acts)
    ensures Safe(cfg, After(cfg, s, acts))
    decreases |acts|
  {
    if acts != [] {
      SafeStep(cfg, s, acts[0]);
      SafeRun(cfg, Apply(cfg, s, acts[0]), acts[1..]);
    }
  }

  lemma InitSafe(cfg: Config)
    ensures Safe(cfg, Init(cfg))
  {
  }

  lemma ReachableSafe(cfg: Config, s: State)
    requires Reachable(cfg, s)
    ensures Safe(cfg, s)
  {
    var acts :| IsRun(cfg, Init(cfg), acts) && After(cfg, Init(cfg), acts) == s;
    InitSafe(cfg);
    SafeRun(cfg, Init(cfg), acts);
  }

  /// Main results

  /** In every reachable state each client has taken its greeting and then exactly its stretch of the one
      broadcast log, in log order, without gaps or duplicates: from its entering step to the end, short of a
      message still being delivered to it, or to its leaving step. */
  lemma OneGlobalOrder(cfg: Config, s: State, c: Conn)
    requires Reachable(cfg, s) && c < |cfg|
    ensures |s.links| == |cfg|
    ensures var l := s.links[c];
            && (l.handler in {Dialing, Greet} ==> l.received == [])
            && (l.handler in {Announce, Enter} ==> l.received == [Greeting(cfg[c])])
            && (InRoom(l.handler) ==>
                  && l.joined + Pending(s, c) <= |s.log|
                  && l.received == [Greeting(cfg[c])] + Texts(s.log[l.joined..|s.log| - Pending(s, c)]))
            && (Gone(l.handler) ==>
                  && l.joined <= l.parted <= |s.log|
                  && l.received == [Greeting(cfg[c])] + Texts(s.log[l.joined..l.parted]))
  {
    ReachableSafe(cfg, s);
    assert LinkOrder(cfg[c], s, c);
  }

  /** A stretch starts at its entering step: whatever follows, `joined` is the length the log had then. */
  lemma {:induction false} StretchStartsAtEntering(cfg: Config, s: State, c: Conn, acts: seq<Action>)
    requires Enabled(cfg, s, SendEnter(c)) && IsRun(cfg, Apply(cfg, s, SendEnter(c)), acts)
    ensures After(cfg, Apply(cfg, s, SendEnter(c)), acts).links[c].joined == |s.log|
  {
    BoundsStay(cfg, Apply(cfg, s, SendEnter(c)), c, acts);
  }

  /** And it ends at its leaving step. */
  lemma {:induction false} StretchEndsAtLeaving(cfg: Config, s: State, c: Conn, acts: seq<Action>)
    requires Enabled(cfg, s, SendLeave(c)) && IsRun(cfg, Apply(cfg, s, SendLeave(c)), acts)
    ensures After(cfg, Apply(cfg, s, SendLeave(c)), acts).links[c].parted == |s.log|
  {
    BoundsStay(cfg, Apply(cfg, s, SendLeave(c)), c, acts);
  }

  /** Nobody enters or leaves twice, so the bounds of a stretch are never moved. */
  lemma {:induction false} BoundsStay(cfg: Config, s: State, c: Conn, acts: seq<Action>)
    requires |s.links| == |cfg| && IsRun(cfg, s, acts) && c < |cfg|
    requires InRoom(s.links[c].handler) || Gone(s.links[c].handler)
    ensures After(cfg, s, acts).links[c].joined == s.links[c].joined
    ensures Gone(s.links[c].handler) ==> After(cfg, s, acts).links[c].parted == s.links[c].parted
    decreases |acts|
  {
    if acts != [] {
      BoundsStayStep(cfg, s, c, acts[0]);
      BoundsStay(cfg, Apply(cfg, s, acts[0]), c, acts[1..]);
    }
  }

  lemma BoundsStayStep(cfg: Config, s: State, c: Conn, a: Action)
    requires Enabled(cfg, s, a) && c < |cfg| && (InRoom(s.links[c].handler) || Gone(s.links[c].handler))
    ensures var l, l' := s.links[c], Apply(cfg, s, a).links[c];
            && l'.joined == l.joined && (InRoom(l'.handler) || Gone(l'.handler))
            && (Gone(l.handler) ==> Gone(l'.handler) && l'.parted == l.parted)
  {
  }

  /** Where c's stretch of the log ends, once it has entered. */
  function StretchEnd(s: State, c: Conn): nat
    requires c < |s.links|
  {
    if Gone(s.links[c].handler) then s.links[c].parted else |s.log|
  }

  /** Between two rounds of the broadcaster's loop nothing is pending. */
  lemma ReceivedWhenIdle(cfg: Config, s: State, c: Conn)
    requires Reachable(cfg, s) && c < |cfg| == |s.links| && s.broadcaster == Idle
    requires InRoom(s.links[c].handler) || Gone(s.links[c].handler)
    ensures s.links[c].joined <= StretchEnd(s, c) <= |s.log|
    ensures s.links[c].received == [Greeting(cfg[c])] + Texts(s.log)[s.links[c].joined..StretchEnd(s, c)]
    ensures c in s.closed <==> Gone(s.links[c].handler)
  {
    OneGlobalOrder(cfg, s, c);
    assert LinkLifecycle(cfg[c], s, c) by { ReachableSafe(cfg, s); }
    var from, end := s.links[c].joined, StretchEnd(s, c);
    assert Texts(s.log[from..end]) == Texts(s.log)[from..end];
  }

  /** Two clients agree on every log position that falls in both their windows. */
  lemma ClientsAgree(cfg: Config, s: State, c: Conn, d: Conn, i: nat)
    requires Reachable(cfg, s) && c < |cfg| == |s.links| && d < |cfg|
    requires s.links[c].joined <= i < s.links[c].joined + |Window(s, c)|
    requires s.links[d].joined <= i < s.links[d].joined + |Window(s, d)|
    ensures i < |s.log|
    ensures var x, y := 1 + i - s.links[c].joined, 1 + i - s.links[d].joined;
            && x < |s.links[c].received| && y < |s.links[d].received|
            && s.links[c].received[x] == s.links[d].received[y] == s.log[i].text
  {
    assert LinkOrder(cfg[c], s, c) && LinkOrder(cfg[d], s, d) by { ReachableSafe(cfg, s); }
    ReceivedAt(cfg, s, c, i);
    ReceivedAt(cfg, s, d, i);
  }

  lemma ReceivedAt(cfg: Config, s: State, c: Conn, i: nat)
    requires c < |cfg| && c < |s.links| && LinkOrder(cfg[c], s, c)
    requires s.links[c].joined <= i < s.links[c].joined + |Window(s, c)|
    ensures i < |s.log| && 1 + i - s.links[c].joined < |s.links[c].received|
    ensures s.links[c].received[1 + i - s.links[c].joined] == s.log[i].text
  {
    var w, k := Window(s, c), i - s.links[c].joined;
    assert s.links[c].received == [Greeting(cfg[c])] + Texts(w);
    assert w[k] == s.log[i];
    assert s.links[c].received[1 + k] == Texts(w)[k] == w[k].text;
  }

  /** No run sends on a closed channel or closes one twice.  A closed channel has left the client map for
      good, and nobody holds a pending send to it. */
  lemma NoPanic(cfg: Config, s: State, c: Conn)
    requires Reachable(cfg, s) && c < |cfg|
    ensures !s.panicked && |s.links| == |cfg|
    ensures c in s.closed ==>
              && c !in s.clients
              && s.links[c].handler !in {Dialing, Greet, Enter}
              && (s.broadcaster.Delivering? ==> c !in s.broadcaster.todo)
              && s.broadcaster != Removing(c)
  {
    ReachableSafe(cfg, s);
    assert LinkLifecycle(cfg[c], s, c);
  }

  /** A connection's entries in the log are always a prefix of its script: arrival, lines, departure.  Of
      these it receives exactly the lines, all of them once it has left, and never its own arrival or departure. */
  lemma OwnMessagesInOrder(cfg: Config, s: State, c: Conn)
    requires Reachable(cfg, s) && c < |cfg|
    ensures |s.links| == |cfg| && Own(s.log, c) <= Script(cfg[c])
    ensures Own(Window(s, c), c) <= Speech(cfg[c])
    ensures InRoom(s.links[c].handler) && Pending(s, c) == 0 ==> Own(s.log, c) == [Arrived(cfg[c])] + Own(Window(s, c), c)
    ensures Gone(s.links[c].handler) ==> Own(Window(s, c), c) == Speech(cfg[c])
    ensures s.links[c].handler == Done ==> Own(s.log, c) == Script(cfg[c])
  {
    ReachableSafe(cfg, s);
    OwnInWindow(cfg, s, c);
  }

  lemma ScriptTexts(p: Peer)
    ensures |Script(p)| == |p.lines| + 2 && |Speech(p)| == |p.lines|
    ensures Script(p)[0] == p.who + " has arrived" && Script(p)[|p.lines| + 1] == p.who + " has left"
    ensures forall k :: 0 <= k < |p.lines| ==> Script(p)[k + 1] == Speech(p)[k] == p.who + ": " + p.lines[k]
  {
  }

  /** The texts themselves: what a connection adds to the log, entry by entry, and what it receives of that. */
  lemma LoggedTexts(cfg: Config, s: State, c: Conn)
    requires Reachable(cfg, s) && c < |cfg|
    ensures |s.links| == |cfg| && |Own(s.log, c)| <= |cfg[c].lines| + 2
    ensures forall k :: 0 <= k < |Own(s.log, c)| ==>
              Own(s.log, c)[k] == if k == 0 then cfg[c].who + " has arrived"
                                  else if k <= |cfg[c].lines| then cfg[c].who + ": " + cfg[c].lines[k - 1]
                                  else cfg[c].who + " has left"
    ensures |Own(Window(s, c), c)| <= |cfg[c].lines|
    ensures forall k :: 0 <= k < |Own(Window(s, c), c)| ==>
              Own(Window(s, c), c)[k] == cfg[c].who + ": " + cfg[c].lines[k]
  {
    OwnMessagesInOrder(cfg, s, c);
    ScriptTexts(cfg[c]);
    var p, own := cfg[c], Own(s.log, c);
    forall k | 0 <= k < |own|
      ensures own[k] == if k == 0 then p.who + " has arrived"
                        else if k <= |p.lines| then p.who + ": " + p.lines[k - 1]
                        else p.who + " has left"
    {
      assert own[k] == Script(p)[k];
      if 0 < k <= |p.lines| { assert Script(p)[(k - 1) + 1] == p.who + ": " + p.lines[k - 1]; }
    }
  }

  /** The greeting comes before anything else. */
  lemma GreetedFirst(cfg: Config, s: State, c: Conn)
    requires Reachable(cfg, s) && c < |cfg|
    ensures |s.links| == |cfg|
    ensures s.links[c].received != [] ==> s.links[c].received[0] == "You are " + cfg[c].who
  {
    OneGlobalOrder(cfg, s, c);
  }

  lemma OwnInWindow(cfg: Config, s: State, c: Conn)
    requires Safe(cfg, s) && c < |cfg|
    ensures Own(s.log, c) <= Script(cfg[c])
    ensures Own(Window(s, c), c) <= Speech(cfg[c])
    ensures InRoom(s.links[c].handler) && Pending(s, c) == 0 ==> Own(s.log, c) == [Arrived(cfg[c])] + Own(Window(s, c), c)
    ensures Gone(s.links[c].handler) ==> Own(Window(s, c), c) == Speech(cfg[c])
    ensures s.links[c].handler == Done ==> Own(s.log, c) == Script(cfg[c])
  {
    assert LinkLifecycle(cfg[c], s, c) && LinkOrder(cfg[c], s, c) && LinkOwn(cfg[c], s, c);
    if InRoom(s.links[c].handler) {
      OwnWindowInRoom(cfg, s, c);
    } else if Gone(s.links[c].handler) {
      OwnWindowGone(cfg, s, c);
    }
  }

  lemma OwnWindowGone(cfg: Config, s: State, c: Conn)
    requires Safe(cfg, s) && c < |cfg| && Gone(s.links[c].handler)
    ensures Own(Window(s, c), c) == Speech(cfg[c])
  {
    var p, l, w := cfg[c], s.links[c], Window(s, c);
    assert LinkOrder(p, s, c) && LinkOwn(p, s, c);
    assert s.log[..l.parted] == s.log[..l.joined] + w;
    OwnSplit(s.log[..l.joined], w, c);
    assert Own(w, c) == Script(p)[1..|p.lines| + 1] == Speech(p);
  }

  lemma OwnWindowInRoom(cfg: Config, s: State, c: Conn)
    requires Safe(cfg, s) && c < |cfg| && InRoom(s.links[c].handler)
    ensures Own(Window(s, c), c) <= Speech(cfg[c])
    ensures Pending(s, c) == 0 ==> Own(s.log, c) == [Arrived(cfg[c])] + Own(Window(s, c), c)
  {
    var p, l, w := cfg[c], s.links[c], Window(s, c);
    assert LinkLifecycle(p, s, c) && LinkOrder(p, s, c) && LinkOwn(p, s, c);
    var n := |s.log| - Pending(s, c);
    assert w == s.log[l.joined..n];
    OwnInThree(s.log, l.joined, n, c);
    assert Pending(s, c) == 0 ==> s.log[n..] == [];
    PrefixOfSpeech(p, Own(w, c), Own(s.log[n..], c), Sent(p, l.handler));
  }

  lemma OwnInThree(log: seq<Message>, j: nat, n: nat, c: Conn)
    requires j <= n <= |log|
    ensures Own(log, c) == Own(log[..j], c) + (Own(log[j..n], c) + Own(log[n..], c))
  {
    assert log == log[..j] + log[j..] && log[j..] == log[j..n] + log[n..];
    OwnSplit(log[..j], log[j..], c);
    OwnSplit(log[j..n], log[n..], c);
  }

  lemma PrefixOfSpeech(p: Peer, xs: seq<string>, ys: seq<string>, n: nat)
    requires n <= |p.lines| + 1 && [Arrived(p)] + (xs + ys) == Script(p)[..n]
    ensures xs <= Speech(p)
  {
    assert forall i :: 0 <= i < |xs| ==> xs[i] == ([Arrived(p)] + (xs + ys))[i + 1] == Script(p)[i + 1] == Speech(p)[i];
  }
}
