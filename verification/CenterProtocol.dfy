/** Any number of sessions with the game server.  In each, a client and a worker goroutine share one
    unbuffered channel for requests and responses; the workers share the server under a readers-writer lock;
    and every player's bounded queue is drained by a consumer that takes no lock.  A run is any sequence of
    enabled actions. */
module CenterProtocol {
  import opened CenterSpec
  import opened Collections

  const CLOSE: string := "CLOSE"

  /** The requests each session will make, one caller per session; then it closes. */
  datatype Config = Config(codec: Codec, scripts: seq<seq<Request>>)

  /** `Calling(k)` is about to send request k, or the closing word after the last one; `Waiting(k)` is
      receiving on the same channel. */
  datatype Client = Calling(k: nat) | Waiting(k: nat) | Closed

  /** A worker between receiving a request and sending its response.  A writer wants the lock, holds it, has
      loaded the list of players, may have a message still to queue for `todo`, and releases; a reader has the
      lock for reading, has seen a list that is not empty, and releases. */
  datatype Worker =
    | Receiving
    | Wanting(op: Op)
    | Holding(op: Op)
    | Loaded(op: Op, snapshot: seq<PlayerId>)
    | Pushing(m: Message, todo: seq<PlayerId>)
    | Releasing(response: Response)
    | Reading
    | Listing
    | ReadReleasing(response: Response)
    | Replying(text: string)
    | Ended

  /** `results` is what Call returned to the client so far. */
  datatype Session = Session(client: Client, worker: Worker, results: seq<Decoded<Response>>)

  /** The lock is held by `writer` or shared by `readers`.  `history` records the operations in the order in
      which they acquired the lock; a request refused without the lock is recorded when it is refused. */
  datatype State = State(sessions: seq<Session>, writer: Option<nat>, readers: set<nat>,
                         roster: seq<PlayerId>, profiles: seq<Profile>,
                         queues: seq<seq<Message>>, consumed: seq<seq<Message>>, history: seq<Event>)

  datatype Action =
    | Call(i: nat) | Close(i: nat) | Return(i: nat)
    | Refuse(i: nat)
    | Lock(i: nat) | Load(i: nat) | Store(i: nat) | Push(i: nat) | PushDone(i: nat) | Unlock(i: nat)
    | RLock(i: nat) | TestLength(i: nat) | Marshal(i: nat) | RUnlock(i: nat)
    | Consume(p: PlayerId)

  function Init(cfg: Config): State {
    State(seq(|cfg.scripts|, _ => Session(Calling(0), Receiving, [])), None, {}, [], [], [], [], [])
  }

  predicate Writes(op: Op) { op.Add? || op.Remove? || op.Send? }

  /** What a worker does with a text off the channel.  A text that is no request is handled as the empty one. */
  function OnText(c: Codec, text: string): Worker {
    if text == CLOSE then Ended
    else Wanting(Dispatch(c, match c.decodeRequest(text) case Decoded(r) => r case Malformed(_) => Request("", "")))
  }

  /** Only the closing word ends a session, and an unreadable text is answered as an unknown command. */
  lemma TextHandled(c: Codec, text: string)
    ensures OnText(c, text).Ended? <==> text == "CLOSE"
    ensures text != "CLOSE" && c.decodeRequest(text).Malformed? ==>
              OnText(c, text) == Wanting(Reject(Response("404", ":")))
  {
    assert "" + ":" + "" == ":";
  }

  /** Every player in the list exists. */
  predicate Known(players: seq<PlayerId>, s: State) {
    forall j :: 0 <= j < |players| ==> players[j] < |s.profiles|
  }

  predicate StoreOk(s: State) {
    |s.queues| == |s.consumed| == |s.profiles| && Known(s.roster, s)
  }

  predicate Enabled(cfg: Config, s: State, a: Action) {
    && |s.sessions| == |cfg.scripts|
    && StoreOk(s)
    && (!a.Consume? ==> a.i < |s.sessions|)
    && match a
       case Call(i) =>
         s.sessions[i].client.Calling? && s.sessions[i].client.k < |cfg.scripts[i]| && s.sessions[i].worker == Receiving
       case Close(i) =>
         s.sessions[i].client.Calling? && s.sessions[i].client.k >= |cfg.scripts[i]| && s.sessions[i].worker == Receiving
       case Return(i) => s.sessions[i].worker.Replying? && s.sessions[i].client.Waiting?
       case Refuse(i) => s.sessions[i].worker.Wanting? && s.sessions[i].worker.op.Reject?
       case Lock(i) =>
         s.sessions[i].worker.Wanting? && Writes(s.sessions[i].worker.op) && s.writer == None && s.readers == {}
       case Load(i) => s.sessions[i].worker.Holding?
       case Store(i) => s.sessions[i].worker.Loaded? && Known(s.sessions[i].worker.snapshot, s)
       case Push(i) =>
         s.sessions[i].worker.Pushing? && s.sessions[i].worker.todo != []
         && s.sessions[i].worker.todo[0] < |s.queues| && |s.queues[s.sessions[i].worker.todo[0]]| < CAPACITY
       case PushDone(i) => s.sessions[i].worker.Pushing? && s.sessions[i].worker.todo == []
       case Unlock(i) => s.sessions[i].worker.Releasing?
       case RLock(i) => s.sessions[i].worker == Wanting(List) && s.writer == None
       case TestLength(i) => s.sessions[i].worker == Reading
       case Marshal(i) => s.sessions[i].worker == Listing
       case RUnlock(i) => s.sessions[i].worker.ReadReleasing?
       case Consume(p) => p < |s.queues| && s.queues[p] != []
  }

  function WithWorker(s: State, i: nat, w: Worker): (s': State)
    requires i < |s.sessions|
    ensures s' == s.(sessions := s'.sessions) && |s'.sessions| == |s.sessions|
  {
    s.(sessions := s.sessions[i := s.sessions[i].(worker := w)])
  }

  /** A writer's assignment to the list, computed from the list it loaded.  A broadcast assigns nothing and
      reads the list once more to range over it. */
  function Stored(s: State, i: nat, op: Op, snapshot: seq<PlayerId>): State
    requires i < |s.sessions| && Known(snapshot, s)
  {
    match op
    case Add(p) =>
      WithWorker(s, i, Releasing(OK))
      .(roster := snapshot + [|s.profiles|], profiles := s.profiles + [p],
        queues := s.queues + [[]], consumed := s.consumed + [[]])
    case Remove(name) =>
      (match FirstNamed(Online(snapshot, s.profiles), name)
       case None => WithWorker(s, i, Releasing(UNKNOWN))
       case Some(j) => WithWorker(s, i, Releasing(OK)).(roster := Removed(snapshot, j)))
    case Send(m) => WithWorker(s, i, if snapshot == [] then Releasing(NOBODY) else Pushing(m, s.roster))
    case _ => s
  }

  function Apply(cfg: Config, s: State, a: Action): (s': State)
    requires Enabled(cfg, s, a)
    ensures |s'.sessions| == |s.sessions|
  {
    var c := cfg.codec;
    match a
    case Call(i) =>
      var k := s.sessions[i].client.k;
      var w := OnText(c, c.encodeRequest(cfg.scripts[i][k]));
      s.(sessions := s.sessions[i := s.sessions[i].(client := Waiting(k), worker := w)])
    case Close(i) => s.(sessions := s.sessions[i := s.sessions[i].(client := Closed, worker := OnText(c, CLOSE))])
    case Return(i) =>
      s.(sessions := s.sessions[i := Session(Calling(s.sessions[i].client.k + 1), Receiving,
                                             s.sessions[i].results + [c.decodeResponse(s.sessions[i].worker.text)])])
    case Refuse(i) =>
      var op := s.sessions[i].worker.op;
      WithWorker(s, i, Replying(c.encodeResponse(op.response))).(history := s.history + [Event(i, op)])
    case Lock(i) =>
      var op := s.sessions[i].worker.op;
      WithWorker(s, i, Holding(op)).(writer := Some(i), history := s.history + [Event(i, op)])
    case Load(i) => WithWorker(s, i, Loaded(s.sessions[i].worker.op, s.roster))
    case Store(i) => Stored(s, i, s.sessions[i].worker.op, s.sessions[i].worker.snapshot)
    case Push(i) =>
      var w := s.sessions[i].worker;
      WithWorker(s, i, Pushing(w.m, w.todo[1..])).(queues := s.queues[w.todo[0] := s.queues[w.todo[0]] + [w.m]])
    case PushDone(i) => WithWorker(s, i, Releasing(OK))
    case Unlock(i) => WithWorker(s, i, Replying(c.encodeResponse(s.sessions[i].worker.response))).(writer := None)
    case RLock(i) => WithWorker(s, i, Reading).(readers := s.readers + {i}, history := s.history + [Event(i, List)])
    case TestLength(i) => WithWorker(s, i, if |s.roster| > 0 then Listing else ReadReleasing(NOBODY))
    case Marshal(i) => WithWorker(s, i, ReadReleasing(Response("200", c.listing(Online(s.roster, s.profiles)))))
    case RUnlock(i) =>
      WithWorker(s, i, Replying(c.encodeResponse(s.sessions[i].worker.response))).(readers := s.readers - {i})
    case Consume(p) =>
      s.(queues := s.queues[p := s.queues[p][1..]], consumed := s.consumed[p := s.consumed[p] + [s.queues[p][0]]])
  }

  predicate IsRun(cfg: Config, s: State, acts: seq<Action>)
    decreases |acts|
  {
    acts == [] || (Enabled(cfg, s, acts[0]) && IsRun(cfg, Apply(cfg, s, acts[0]), acts[1..]))
  }

  function After(cfg: Config, s: State, acts: seq<Action>): State
    requires IsRun(cfg, s, acts)
    decreases |acts|
  {
    if acts == [] then s else After(cfg, Apply(cfg, s, acts[0]), acts[1..])
  }

  ghost predicate Reachable(cfg: Config, s: State) {
    exists acts :: IsRun(cfg, Init(cfg), acts) && After(cfg, Init(cfg), acts) == s
  }

  /** JSON decodes what it encoded, and no encoded request reads as the closing word. */
  ghost predicate Exact(c: Codec) {
    && (forall r :: c.decodeRequest(c.encodeRequest(r)) == Decoded(r) && c.encodeRequest(r) != CLOSE)
    && (forall r :: c.decodeResponse(c.encodeResponse(r)) == Decoded(r))
  }
}
