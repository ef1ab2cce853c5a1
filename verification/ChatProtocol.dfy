/** The chat server as a protocol over unbuffered channels: one handler and one writer goroutine per
    connection, and one broadcaster that owns the set of live client channels.  A run is any sequence of
    enabled actions, so every interleaving and every iteration order of the client map is covered. */
module ChatProtocol {
  type Conn = nat

  /** One connection as the environment sees it: its remote address and the lines typed before end of input. */
  datatype Peer = Peer(who: string, lines: seq<string>)
  type Config = seq<Peer>

  /** Where a handler goroutine is blocked.  `Reading(k)` waits for input after k lines, `Saying(k)` holds line k. */
  datatype Handler = Dialing | Greet | Announce | Enter | Reading(k: nat) | Saying(k: nat)
                   | Leave | Farewell | Hangup | Done

  datatype Writer = Unborn | Ready | Writing(text: string) | Exited

  /** `text` is what travels on the channel; `from` records which connection sent it. */
  datatype Message = Message(from: Conn, text: string)

  /** `Removing(c)` is the point between deleting c from the map and closing its channel. */
  datatype Broadcaster = Idle | Delivering(msg: Message, todo: set<Conn>) | Removing(conn: Conn)

  /** `received` is what the writer took off the channel.  `joined` and `parted` are the lengths of the
      broadcast log when the channel entered and left the client map. */
  datatype Link = Link(handler: Handler, writer: Writer, received: seq<string>, joined: nat, parted: nat)

  datatype State = State(links: seq<Link>, broadcaster: Broadcaster, clients: set<Conn>, closed: set<Conn>,
                         log: seq<Message>, panicked: bool)

  datatype Action =
    | Accept(c: Conn) | SendGreeting(c: Conn) | SendMessage(c: Conn) | SendEnter(c: Conn)
    | ScanLine(c: Conn) | ScanEnd(c: Conn) | SendLeave(c: Conn) | CloseConn(c: Conn)
    | DeliverTo(c: Conn) | EndRange | CloseChannel
    | FinishWrite(c: Conn) | WriterExit(c: Conn)

  /// Texts

  function Greeting(p: Peer): string { "You are " + p.who }

  function Arrived(p: Peer): string { p.who + " has arrived" }

  function Said(p: Peer, k: nat): string
    requires k < |p.lines|
  {
    p.who + ": " + p.lines[k]
  }

  function HasLeft(p: Peer): string { p.who + " has left" }

  /** The chat lines of a peer as broadcast. */
  function Speech(p: Peer): seq<string> {
    seq(|p.lines|, k requires 0 <= k < |p.lines| => Said(p, k))
  }

  /** Everything a peer ever puts on the shared message channel, in program order. */
  function Script(p: Peer): seq<string> {
    [Arrived(p)] + Speech(p) + [HasLeft(p)]
  }

  function Texts(ms: seq<Message>): seq<string> {
    seq(|ms|, i requires 0 <= i < |ms| => ms[i].text)
  }

  /** The texts a given connection contributed to a stretch of the log. */
  function Own(ms: seq<Message>, c: Conn): seq<string> {
    if ms == [] then []
    else Own(ms[..|ms| - 1], c) + (if ms[|ms| - 1].from == c then [ms[|ms| - 1].text] else [])
  }

  /// Steps

  function Init(cfg: Config): State {
    State(seq(|cfg|, _ => Link(Dialing, Unborn, [], 0, 0)), Idle, {}, {}, [], false)
  }

  /** The handler is blocked sending on the shared message channel. */
  predicate HasMessage(h: Handler) {
    h.Announce? || h.Saying? || h.Farewell?
  }

  function Outgoing(p: Peer, h: Handler): string
    requires HasMessage(h) && (h.Saying? ==> h.k < |p.lines|)
  {
    match h
    case Announce => Arrived(p)
    case Saying(k) => Said(p, k)
    case _ => HasLeft(p)
  }

  function AfterMessage(h: Handler): Handler
    requires HasMessage(h)
  {
    match h
    case Announce => Enter
    case Saying(k) => Reading(k + 1)
    case _ => Hangup
  }

  /** A send on a client channel proceeds when the writer receives, and panics when the channel is closed. */
  predicate CanSend(s: State, c: Conn)
    requires c < |s.links|
  {
    c in s.closed || s.links[c].writer == Ready
  }

  predicate Enabled(cfg: Config, s: State, a: Action) {
    && |s.links| == |cfg|
    && !s.panicked
    && match a
       case Accept(c) => c < |cfg| && s.links[c].handler == Dialing
       case SendGreeting(c) => c < |cfg| && s.links[c].handler == Greet && CanSend(s, c)
       case SendMessage(c) =>
         && c < |cfg| && HasMessage(s.links[c].handler) && s.broadcaster == Idle
         && (s.links[c].handler.Saying? ==> s.links[c].handler.k < |cfg[c].lines|)
       case SendEnter(c) => c < |cfg| && s.links[c].handler == Enter && s.broadcaster == Idle
       case ScanLine(c) => c < |cfg| && s.links[c].handler.Reading? && s.links[c].handler.k < |cfg[c].lines|
       case ScanEnd(c) => c < |cfg| && s.links[c].handler.Reading? && s.links[c].handler.k >= |cfg[c].lines|
       case SendLeave(c) => c < |cfg| && s.links[c].handler == Leave && s.broadcaster == Idle
       case CloseConn(c) => c < |cfg| && s.links[c].handler == Hangup
       case DeliverTo(c) => c < |cfg| && s.broadcaster.Delivering? && c in s.broadcaster.todo && CanSend(s, c)
       case EndRange => s.broadcaster.Delivering? && s.broadcaster.todo == {}
       case CloseChannel => s.broadcaster.Removing? && s.broadcaster.conn < |cfg|
       case FinishWrite(c) => c < |cfg| && s.links[c].writer.Writing?
       case WriterExit(c) => c < |cfg| && s.links[c].writer == Ready && c in s.closed
  }

  function WithLink(s: State, c: Conn, l: Link): State
    requires c < |s.links|
  {
    s.(links := s.links[c := l])
  }

  /** A text goes over the channel of c: the writer takes it, or the sender panics on a closed channel. */
  function Transfer(s: State, c: Conn, text: string): State
    requires c < |s.links|
  {
    if c in s.closed then s.(panicked := true)
    else WithLink(s, c, s.links[c].(writer := Writing(text), received := s.links[c].received + [text]))
  }

  function Apply(cfg: Config, s: State, a: Action): (s': State)
    requires Enabled(cfg, s, a)
    ensures |s'.links| == |s.links|
  {
    match a
    case Accept(c) => WithLink(s, c, s.links[c].(handler := Greet, writer := Ready))
    case SendGreeting(c) =>
      var s1 := Transfer(s, c, Greeting(cfg[c]));
      WithLink(s1, c, s1.links[c].(handler := Announce))
    case SendMessage(c) =>
      var m := Message(c, Outgoing(cfg[c], s.links[c].handler));
      WithLink(s, c, s.links[c].(handler := AfterMessage(s.links[c].handler)))
      .(log := s.log + [m], broadcaster := Delivering(m, s.clients))
    case SendEnter(c) =>
      WithLink(s, c, s.links[c].(handler := Reading(0), joined := |s.log|)).(clients := s.clients + {c})
    case ScanLine(c) => WithLink(s, c, s.links[c].(handler := Saying(s.links[c].handler.k)))
    case ScanEnd(c) => WithLink(s, c, s.links[c].(handler := Leave))
    case SendLeave(c) =>
      WithLink(s, c, s.links[c].(handler := Farewell, parted := |s.log|))
      .(clients := s.clients - {c}, broadcaster := Removing(c))
    case CloseConn(c) => WithLink(s, c, s.links[c].(handler := Done))
    case DeliverTo(c) =>
      Transfer(s, c, s.broadcaster.msg.text)
      .(broadcaster := s.broadcaster.(todo := s.broadcaster.todo - {c}))
    case EndRange => s.(broadcaster := Idle)
    case CloseChannel =>
      // Closing twice panics, and so does closing under a sender blocked on the channel.
      var c := s.broadcaster.conn;
      if c in s.closed || s.links[c].handler == Greet then s.(panicked := true)
      else s.(broadcaster := Idle, closed := s.closed + {c})
    case FinishWrite(c) => WithLink(s, c, s.links[c].(writer := Ready))
    case WriterExit(c) => WithLink(s, c, s.links[c].(writer := Exited))
  }

  /// Runs

  predicate IsRun(cfg: Config, s: State, acts: seq<Action>)
    decreases |acts|
  {
    acts == [] || (Enabled(cfg, s, acts[0]) && IsRun(cfg, Apply(cfg, s, acts[0]), acts[1..]))
  }

  function After(cfg: Config, s: State, acts: seq<Action>): (s': State)
    requires IsRun(cfg, s, acts)
    ensures |s'.links| == |s.links|
    decreases |acts|
  {
    if acts == [] then s else After(cfg, Apply(cfg, s, acts[0]), acts[1..])
  }

  /** Some run from the initial state ends in s. */
  ghost predicate Reachable(cfg: Config, s: State) {
    exists acts :: IsRun(cfg, Init(cfg), acts) && After(cfg, Init(cfg), acts) == s
  }
}
