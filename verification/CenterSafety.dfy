/** What every reachable state of the game server protocol satisfies: strict alternation on each channel,
    mutual exclusion, and agreement with a sequential run of the operations in the order they got the lock. */
module CenterSafety {
  import opened CenterCommands
  import opened CenterSpec
  import opened Collections
  import opened CenterProtocol

  /// The two-way channel and the lock

  predicate Busy(w: Worker) { !w.Receiving? && !w.Ended? }

  predicate WriteLocked(w: Worker) { w.Holding? || w.Loaded? || w.Pushing? || w.Releasing? }

  predicate ReadLocked(w: Worker) { w.Reading? || w.Listing? || w.ReadReleasing? }

  /** Client and worker never both send or both receive. */
  predicate SessionOk(script: seq<Request>, x: Session) {
    match x.client
    case Calling(k) => k <= |script| && k == |x.results| && x.worker.Receiving?
    case Waiting(k) => k < |script| && k == |x.results| && Busy(x.worker)
    case Closed => |x.results| == |script| && x.worker.Ended?
  }

  predicate LockOk(s: State, i: nat)
    requires i < |s.sessions|
  {
    && (WriteLocked(s.sessions[i].worker) <==> s.writer == Some(i))
    && (ReadLocked(s.sessions[i].worker) <==> i in s.readers)
    && (s.sessions[i].worker.Holding? || s.sessions[i].worker.Loaded? ==> Writes(s.sessions[i].worker.op))
  }

  predicate Discipline(cfg: Config, s: State) {
    && |s.sessions| == |cfg.scripts|
    && (s.writer.Some? ==> s.writer.value < |s.sessions| && s.readers == {})
    && (forall i :: i in s.readers ==> i < |s.sessions|)
    && forall i :: 0 <= i < |s.sessions| ==> SessionOk(cfg.scripts[i], s.sessions[i]) && LockOk(s, i)
  }

  /** A step is invisible to the sessions it is not about. */
  lemma BystanderKeepsDiscipline(cfg: Config, s: State, a: Action, j: nat)
    requires Discipline(cfg, s) && Enabled(cfg, s, a) && j < |s.sessions| && (a.Consume? || a.i != j)
    ensures SessionOk(cfg.scripts[j], Apply(cfg, s, a).sessions[j]) && LockOk(Apply(cfg, s, a), j)
  {
    assert SessionOk(cfg.scripts[j], s.sessions[j]) && LockOk(s, j);
    if !a.Consume? { assert LockOk(s, a.i); }
  }

  lemma ActorKeepsSession(cfg: Config, s: State, a: Action)
    requires Exact(cfg.codec) && Enabled(cfg, s, a) && !a.Consume? && SessionOk(cfg.scripts[a.i], s.sessions[a.i])
    ensures SessionOk(cfg.scripts[a.i], Apply(cfg, s, a).sessions[a.i])
  {
  }

  lemma ActorKeepsLock(cfg: Config, s: State, a: Action)
    requires Enabled(cfg, s, a) && !a.Consume? && LockOk(s, a.i)
    ensures LockOk(Apply(cfg, s, a), a.i)
  {
  }

  lemma DisciplineStep(cfg: Config, s: State, a: Action)
    requires Exact(cfg.codec) && Discipline(cfg, s) && Enabled(cfg, s, a)
    ensures Discipline(cfg, Apply(cfg, s, a))
  {
    var s' := Apply(cfg, s, a);
    forall j | 0 <= j < |s.sessions| ensures SessionOk(cfg.scripts[j], s'.sessions[j]) && LockOk(s', j) {
      if a.Consume? || a.i != j {
        BystanderKeepsDiscipline(cfg, s, a, j);
      } else {
        assert SessionOk(cfg.scripts[j], s.sessions[j]) && LockOk(s, j);
        ActorKeepsSession(cfg, s, a);
        ActorKeepsLock(cfg, s, a);
      }
    }
    if !a.Consume? { assert LockOk(s, a.i); }
    LockHolderExists(cfg, s, a);
  }

  lemma LockHolderExists(cfg: Config, s: State, a: Action)
    requires Discipline(cfg, s) && Enabled(cfg, s, a) && (!a.Consume? ==> LockOk(s, a.i))
    ensures var s' := Apply(cfg, s, a);
            && (s'.writer.Some? ==> s'.writer.value < |s'.sessions| && s'.readers == {})
            && (forall i :: i in s'.readers ==> i < |s'.sessions|)
  {
  }

  /// The store

  /** The operation of the writer that has the lock and has not yet stored. */
  function Unapplied(s: State): Option<Op> {
    if s.writer.Some? && s.writer.value < |s.sessions| then
      match s.sessions[s.writer.value].worker
      case Holding(op) => Some(op)
      case Loaded(op, _) => Some(op)
      case _ => None
    else None
  }

  /** The sequential server the store has to agree with: after every operation that got the lock, except one
      that has yet to store. */
  function Basis(s: State): (b: Lobby)
    ensures WellFormed(b)
  {
    if Unapplied(s).Some? then Before(s.history) else Final(s.history)
  }

  /** The last operation to get the lock may be unapplied, and nothing has changed the list it loaded. */
  predicate WriterOk(s: State) {
    && (Unapplied(s).Some? ==> Final(s.history) == Step(Basis(s), Unapplied(s).value))
    && (s.writer.Some? && s.writer.value < |s.sessions| && s.sessions[s.writer.value].worker.Loaded?
        ==> s.sessions[s.writer.value].worker.snapshot == s.roster)
  }

  /** A broadcast is at its pushes. */
  predicate InBroadcast(s: State) {
    s.writer.Some? && s.writer.value < |s.sessions| && s.sessions[s.writer.value].worker.Pushing?
  }

  /** What the broadcast in progress still owes player p. */
  function Owed(s: State, p: PlayerId): seq<Message> {
    if InBroadcast(s) then
      var w := s.sessions[s.writer.value].worker;
      Copies(w.m, Count<PlayerId>(w.todo, p))
    else []
  }

  /** Messages taken by the player, waiting in its queue, and still owed are together what the sequential
      server has sent it. */
  predicate PlayerOk(s: State, p: PlayerId)
    requires StoreOk(s) && p < |s.profiles| && p < |Basis(s).inboxes|
  {
    && |s.queues[p]| <= CAPACITY
    && s.consumed[p] + s.queues[p] + Owed(s, p) == Basis(s).inboxes[p]
  }

  predicate IsTail(xs: seq<PlayerId>, ys: seq<PlayerId>) {
    |xs| <= |ys| && xs == ys[|ys| - |xs|..]
  }

  predicate StoreAgrees(s: State) {
    && StoreOk(s)
    && s.roster == Basis(s).roster
    && s.profiles == Basis(s).profiles
    && (InBroadcast(s) ==> IsTail(s.sessions[s.writer.value].worker.todo, s.roster))
    && forall p: PlayerId :: p < |s.profiles| ==> PlayerOk(s, p)
  }

  /** What a step on a session must not be able to disturb. */
  predicate Actor(cfg: Config, s: State, a: Action) {
    Enabled(cfg, s, a) && !a.Consume? && LockOk(s, a.i) && (s.writer.Some? ==> s.writer.value < |s.sessions|)
  }

  /** Only the writer itself moves the writer. */
  lemma WriterUndisturbed(cfg: Config, s: State, a: Action)
    requires Actor(cfg, s, a) && s.writer.Some? && s.writer.value != a.i
    ensures var s' := Apply(cfg, s, a);
            s'.writer == s.writer && s'.sessions[s.writer.value] == s.sessions[s.writer.value] && !a.Store?
  {
  }

  /** Getting the lock, or being refused without it, extends the history and not the basis. */
  lemma EntryKeepsBasis(cfg: Config, s: State, a: Action)
    requires Actor(cfg, s, a) && (a.Lock? || a.RLock? || a.Refuse?)
    ensures Basis(Apply(cfg, s, a)) == Basis(s)
  {
    ExtendBefore(s.history, Event(a.i, s.sessions[a.i].worker.op));
    if s.writer.Some? { WriterUndisturbed(cfg, s, a); }
  }

  /** No step but a store moves the basis. */
  lemma BasisStays(cfg: Config, s: State, a: Action)
    requires Actor(cfg, s, a) && !a.Store?
    ensures Basis(Apply(cfg, s, a)) == Basis(s)
  {
    if a.Lock? || a.RLock? || a.Refuse? {
      EntryKeepsBasis(cfg, s, a);
    } else {
      assert Apply(cfg, s, a).history == s.history;
      if s.writer.Some? && s.writer.value != a.i { WriterUndisturbed(cfg, s, a); }
    }
  }

  lemma WriterOkStep(cfg: Config, s: State, a: Action)
    requires Actor(cfg, s, a) && WriterOk(s) && !a.Store?
    ensures WriterOk(Apply(cfg, s, a))
  {
    BasisStays(cfg, s, a);
    if a.Lock? || a.RLock? || a.Refuse? {
      ExtendBefore(s.history, Event(a.i, s.sessions[a.i].worker.op));
    }
    if s.writer.Some? && s.writer.value != a.i { WriterUndisturbed(cfg, s, a); }
  }

  /** A store applies the writer's operation to the basis: it computes from the list it loaded, which is still
      the list. */
  lemma StoreApplies(cfg: Config, s: State, i: nat)
    requires Actor(cfg, s, Store(i)) && WriterOk(s)
    ensures var s', w := Apply(cfg, s, Store(i)), s.sessions[i].worker;
            && s.writer == s'.writer == Some(i) && w.snapshot == s.roster && WriterOk(s')
            && Unapplied(s) == Some(w.op) && Unapplied(s').None? && Basis(s') == Step(Basis(s), w.op)
  {
    assert s.sessions[i].worker.Loaded?;
    assert Apply(cfg, s, Store(i)).history == s.history;
  }

  lemma StoreAddAgrees(cfg: Config, s: State, i: nat)
    requires Actor(cfg, s, Store(i)) && WriterOk(s) && StoreAgrees(s) && s.sessions[i].worker.op.Add?
    ensures StoreAgrees(Apply(cfg, s, Store(i)))
  {
    var s' := Apply(cfg, s, Store(i));
    StoreApplies(cfg, s, i);
    forall p: PlayerId | p < |s'.profiles| ensures PlayerOk(s', p) {
      if p < |s.profiles| { assert PlayerOk(s, p); }
    }
  }

  lemma StoreRemoveAgrees(cfg: Config, s: State, i: nat)
    requires Actor(cfg, s, Store(i)) && WriterOk(s) && StoreAgrees(s) && s.sessions[i].worker.op.Remove?
    ensures StoreAgrees(Apply(cfg, s, Store(i)))
  {
    var s' := Apply(cfg, s, Store(i));
    StoreApplies(cfg, s, i);
    forall p: PlayerId | p < |s'.profiles| ensures PlayerOk(s', p) { assert PlayerOk(s, p); }
  }

  lemma StoreSendAgrees(cfg: Config, s: State, i: nat)
    requires Actor(cfg, s, Store(i)) && WriterOk(s) && StoreAgrees(s) && s.sessions[i].worker.op.Send?
    ensures StoreAgrees(Apply(cfg, s, Store(i)))
  {
    var s' := Apply(cfg, s, Store(i));
    StoreApplies(cfg, s, i);
    forall p: PlayerId | p < |s'.profiles| ensures PlayerOk(s', p) { assert PlayerOk(s, p); }
  }

  /** A push pays one copy of what is owed. */
  lemma PushPays(cfg: Config, s: State, i: nat, p: PlayerId)
    requires Enabled(cfg, s, Push(i)) && s.writer == Some(i)
    ensures var w := s.sessions[i].worker;
            Owed(s, p) == (if p == w.todo[0] then [w.m] else []) + Owed(Apply(cfg, s, Push(i)), p)
  {
    var w, s' := s.sessions[i].worker, Apply(cfg, s, Push(i));
    assert Owed(s, p) == Copies(w.m, Count<PlayerId>(w.todo, p));
    assert Owed(s', p) == Copies(w.m, Count<PlayerId>(w.todo[1..], p));
  }

  lemma PushKeepsPlayer(cfg: Config, s: State, i: nat, p: PlayerId)
    requires Enabled(cfg, s, Push(i)) && s.writer == Some(i)
    requires p < |s.profiles| && p < |Basis(s).inboxes| && PlayerOk(s, p)
    ensures Basis(Apply(cfg, s, Push(i))) == Basis(s) && PlayerOk(Apply(cfg, s, Push(i)), p)
  {
    var w, s' := s.sessions[i].worker, Apply(cfg, s, Push(i));
    PushPays(cfg, s, i, p);
    var paid := if p == w.todo[0] then [w.m] else [];
    assert s'.queues[p] == s.queues[p] + paid && s'.consumed == s.consumed && s'.history == s.history;
    Regroup(s.consumed[p], s.queues[p], paid, Owed(s', p));
  }

  lemma Regroup(xs: seq<Message>, ys: seq<Message>, zs: seq<Message>, ws: seq<Message>)
    ensures xs + (ys + zs) + ws == xs + ys + (zs + ws)
  {
  }

  lemma PushAgrees(cfg: Config, s: State, i: nat)
    requires Actor(cfg, s, Push(i)) && StoreAgrees(s)
    ensures StoreAgrees(Apply(cfg, s, Push(i)))
  {
    var s', w := Apply(cfg, s, Push(i)), s.sessions[i].worker;
    BasisStays(cfg, s, Push(i));
    assert s'.sessions[i].worker == Pushing(w.m, w.todo[1..]) && s'.writer == Some(i);
    forall p: PlayerId | p < |s'.profiles| ensures PlayerOk(s', p) {
      assert PlayerOk(s, p);
      PushKeepsPlayer(cfg, s, i, p);
    }
  }

  lemma ConsumeAgrees(cfg: Config, s: State, q: PlayerId)
    requires StoreAgrees(s) && Enabled(cfg, s, Consume(q))
    ensures StoreAgrees(Apply(cfg, s, Consume(q)))
  {
    var s' := Apply(cfg, s, Consume(q));
    forall p: PlayerId | p < |s'.profiles| ensures PlayerOk(s', p) {
      assert PlayerOk(s, p);
      if p == q { assert s'.consumed[p] + s'.queues[p] == s.consumed[p] + s.queues[p]; }
    }
  }

  /** What a step must leave alone for the store to go on agreeing. */
  predicate SameStore(s: State, s': State) {
    && s'.roster == s.roster && s'.profiles == s.profiles && s'.queues == s.queues && s'.consumed == s.consumed
    && Basis(s') == Basis(s)
    && InBroadcast(s') == InBroadcast(s)
    && (InBroadcast(s) ==> s'.sessions[s'.writer.value].worker == s.sessions[s.writer.value].worker)
  }

  lemma SameStoreAgrees(s: State, s': State)
    requires StoreAgrees(s) && SameStore(s, s')
    ensures StoreAgrees(s')
  {
    forall p: PlayerId | p < |s'.profiles| ensures PlayerOk(s', p) {
      assert PlayerOk(s, p);
      assert Owed(s', p) == Owed(s, p);
    }
  }

  /** A broadcast ends only once nothing is owed. */
  lemma PushDoneAgrees(cfg: Config, s: State, i: nat)
    requires Actor(cfg, s, PushDone(i)) && StoreAgrees(s)
    ensures StoreAgrees(Apply(cfg, s, PushDone(i)))
  {
    var s' := Apply(cfg, s, PushDone(i));
    BasisStays(cfg, s, PushDone(i));
    forall p: PlayerId | p < |s'.profiles| ensures PlayerOk(s', p) {
      assert PlayerOk(s, p) && Owed(s, p) == [] == Owed(s', p);
    }
  }

  lemma OthersKeepStore(cfg: Config, s: State, a: Action)
    requires Actor(cfg, s, a) && !a.Store? && !a.Push? && !a.PushDone?
    ensures SameStore(s, Apply(cfg, s, a))
  {
    BasisStays(cfg, s, a);
    var s' := Apply(cfg, s, a);
    assert !s.sessions[a.i].worker.Pushing? && !s'.sessions[a.i].worker.Pushing?;
    if s.writer.Some? && s.writer.value != a.i { WriterUndisturbed(cfg, s, a); }
  }

  lemma StoreStep(cfg: Config, s: State, a: Action)
    requires Discipline(cfg, s) && WriterOk(s) && StoreAgrees(s) && Enabled(cfg, s, a)
    ensures WriterOk(Apply(cfg, s, a)) && StoreAgrees(Apply(cfg, s, a))
  {
    if !a.Consume? {
      assert LockOk(s, a.i);
      if a.Store? { StoreApplies(cfg, s, a.i); } else { WriterOkStep(cfg, s, a); }
    }
    match a
    case Store(i) =>
      var op := s.sessions[i].worker.op;
      if op.Add? { StoreAddAgrees(cfg, s, i); }
      else if op.Remove? { StoreRemoveAgrees(cfg, s, i); }
      else { StoreSendAgrees(cfg, s, i); }
    case Push(i) => PushAgrees(cfg, s, i);
    case PushDone(i) => PushDoneAgrees(cfg, s, i);
    case Consume(p) => ConsumeAgrees(cfg, s, p);
    case _ =>
      OthersKeepStore(cfg, s, a);
      SameStoreAgrees(s, Apply(cfg, s, a));
  }

  /// Results

  /** The operation is in the history but its answer is not back yet. */
  predicate InReply(w: Worker) { WriteLocked(w) || ReadLocked(w) || w.Replying? }

  /** What the worker has found out so far leads to this answer. */
  predicate Carries(c: Codec, s: State, w: Worker, answer: Response)
    requires StoreOk(s)
  {
    match w
    case Holding(op) => answer == Answer(c, Online(s.roster, s.profiles), op)
    case Loaded(op, _) => answer == Answer(c, Online(s.roster, s.profiles), op)
    case Reading => answer == Answer(c, Online(s.roster, s.profiles), List)
    case Listing => s.roster != [] && answer == Answer(c, Online(s.roster, s.profiles), List)
    case Pushing(_, _) => answer == OK
    case Releasing(r) => answer == r
    case ReadReleasing(r) => answer == r
    case Replying(text) => text == c.encodeResponse(answer)
    case _ => true
  }

  /** A session's operations are those of its first requests in order; what came back, and what its worker is
      about to answer, is what the sequential server answers. */
  predicate ResultsOk(cfg: Config, s: State, i: nat)
    requires i < |s.sessions| && i < |cfg.scripts| && StoreOk(s)
  {
    var c, script, x := cfg.codec, cfg.scripts[i], s.sessions[i];
    var ops, answers, n := OpsOf(s.history, i), AnswersTo(c, s.history, i), |x.results|;
    && |ops| == n + (if InReply(x.worker) then 1 else 0)
    && (Busy(x.worker) ==> n < |script|)
    && |ops| <= |script|
    && (forall k :: 0 <= k < |ops| ==> ops[k] == Dispatch(c, script[k]))
    && (forall k :: 0 <= k < n ==> x.results[k] == Decoded(answers[k]))
    && (x.worker.Wanting? ==> x.worker.op == Dispatch(c, script[n]))
    && (InReply(x.worker) ==> Carries(c, s, x.worker, answers[n]))
  }

  lemma ChannelKeepsResults(cfg: Config, s: State, a: Action)
    requires Exact(cfg.codec) && Enabled(cfg, s, a) && (a.Call? || a.Close? || a.Return?)
    requires SessionOk(cfg.scripts[a.i], s.sessions[a.i]) && ResultsOk(cfg, s, a.i)
    ensures ResultsOk(cfg, Apply(cfg, s, a), a.i)
  {
  }

  /** Inside the critical section a worker goes on to the same answer: with the lock, what it read still holds. */
  lemma WorkCarries(cfg: Config, s: State, a: Action, answer: Response)
    requires Actor(cfg, s, a) && WriterOk(s) && InReply(s.sessions[a.i].worker) && !a.Return?
    requires Carries(cfg.codec, s, s.sessions[a.i].worker, answer) && StoreOk(Apply(cfg, s, a))
    ensures var s' := Apply(cfg, s, a);
            && s'.history == s.history && s'.sessions[a.i].results == s.sessions[a.i].results
            && InReply(s'.sessions[a.i].worker) && Carries(cfg.codec, s', s'.sessions[a.i].worker, answer)
  {
    if a.Store? { StoreApplies(cfg, s, a.i); }
  }

  /** Entering the history with a worker on its way to the sequential answer. */
  lemma EntryKeepsResults(cfg: Config, s: State, s': State, i: nat, op: Op)
    requires |s.sessions| == |s'.sessions| == |cfg.scripts| && i < |s.sessions| && StoreOk(s) && StoreOk(s')
    requires ResultsOk(cfg, s, i) && s.sessions[i].worker == Wanting(op)
    requires s'.history == s.history + [Event(i, op)] && s'.sessions[i].results == s.sessions[i].results
    requires var before := Final(s.history);
             InReply(s'.sessions[i].worker)
             && Carries(cfg.codec, s', s'.sessions[i].worker, Answer(cfg.codec, Online(before.roster, before.profiles), op))
    ensures ResultsOk(cfg, s', i)
  {
    ExtendHistory(cfg.codec, s.history, Event(i, op), i);
  }

  /** A worker gets the lock, or refuses without it: the answer is settled here. */
  lemma EntryCarries(cfg: Config, s: State, a: Action)
    requires Enabled(cfg, s, a) && StoreAgrees(s) && (a.Lock? || a.RLock? || a.Refuse?)
    requires a.Lock? || a.RLock? ==> s.writer == None
    ensures var s', op, before := Apply(cfg, s, a), s.sessions[a.i].worker.op, Final(s.history);
            && s'.history == s.history + [Event(a.i, op)] && s'.sessions[a.i].results == s.sessions[a.i].results
            && StoreOk(s') && InReply(s'.sessions[a.i].worker)
            && Carries(cfg.codec, s', s'.sessions[a.i].worker, Answer(cfg.codec, Online(before.roster, before.profiles), op))
  {
  }

  lemma ResultsAt(cfg: Config, s: State, a: Action)
    requires Exact(cfg.codec) && Actor(cfg, s, a) && WriterOk(s) && StoreAgrees(s)
    requires SessionOk(cfg.scripts[a.i], s.sessions[a.i]) && ResultsOk(cfg, s, a.i) && StoreOk(Apply(cfg, s, a))
    ensures ResultsOk(cfg, Apply(cfg, s, a), a.i)
  {
    if a.Call? || a.Close? || a.Return? {
      ChannelKeepsResults(cfg, s, a);
    } else if a.Lock? || a.RLock? || a.Refuse? {
      EntryCarries(cfg, s, a);
      EntryKeepsResults(cfg, s, Apply(cfg, s, a), a.i, s.sessions[a.i].worker.op);
    } else {
      WorkCarries(cfg, s, a, AnswersTo(cfg.codec, s.history, a.i)[|s.sessions[a.i].results|]);
    }
  }

  /** While a worker has the lock, no step of another session changes the list. */
  lemma LockKeepsList(cfg: Config, s: State, a: Action, j: nat)
    requires Discipline(cfg, s) && Enabled(cfg, s, a) && j < |s.sessions| && (a.Consume? || a.i != j)
    requires WriteLocked(s.sessions[j].worker) || ReadLocked(s.sessions[j].worker)
    ensures Apply(cfg, s, a).roster == s.roster && Apply(cfg, s, a).profiles == s.profiles
  {
    assert LockOk(s, j);
    if !a.Consume? { assert LockOk(s, a.i); }
  }

  lemma BystanderKeepsOps(cfg: Config, s: State, a: Action, j: nat)
    requires Enabled(cfg, s, a) && (a.Consume? || a.i != j)
    ensures OpsOf(Apply(cfg, s, a).history, j) == OpsOf(s.history, j)
    ensures AnswersTo(cfg.codec, Apply(cfg, s, a).history, j) == AnswersTo(cfg.codec, s.history, j)
  {
    if a.Lock? || a.RLock? || a.Refuse? {
      ExtendHistory(cfg.codec, s.history, Event(a.i, s.sessions[a.i].worker.op), j);
    }
  }

  lemma SameResults(cfg: Config, s: State, s': State, j: nat)
    requires j < |s.sessions| && j < |s'.sessions| && j < |cfg.scripts| && StoreOk(s) && StoreOk(s')
    requires s'.sessions[j] == s.sessions[j] && OpsOf(s'.history, j) == OpsOf(s.history, j)
    requires AnswersTo(cfg.codec, s'.history, j) == AnswersTo(cfg.codec, s.history, j)
    requires WriteLocked(s.sessions[j].worker) || ReadLocked(s.sessions[j].worker)
             ==> s'.roster == s.roster && s'.profiles == s.profiles
    requires ResultsOk(cfg, s, j)
    ensures ResultsOk(cfg, s', j)
  {
  }

  lemma BystanderKeepsResults(cfg: Config, s: State, a: Action, j: nat)
    requires Discipline(cfg, s) && Enabled(cfg, s, a) && j < |s.sessions| && (a.Consume? || a.i != j)
    requires ResultsOk(cfg, s, j) && StoreOk(Apply(cfg, s, a))
    ensures ResultsOk(cfg, Apply(cfg, s, a), j)
  {
    BystanderKeepsOps(cfg, s, a, j);
    if WriteLocked(s.sessions[j].worker) || ReadLocked(s.sessions[j].worker) { LockKeepsList(cfg, s, a, j); }
    SameResults(cfg, s, Apply(cfg, s, a), j);
  }

  /// Every run

  predicate Safe(cfg: Config, s: State) {
    && Discipline(cfg, s) && WriterOk(s) && StoreAgrees(s)
    && forall i :: 0 <= i < |s.sessions| ==> ResultsOk(cfg, s, i)
  }

  lemma InitSafe(cfg: Config)
    ensures Safe(cfg, Init(cfg))
  {
    assert Init(cfg).history == [];
  }

  lemma SafeStep(cfg: Config, s: State, a: Action)
    requires Exact(cfg.codec) && Safe(cfg, s) && Enabled(cfg, s, a)
    ensures Safe(cfg, Apply(cfg, s, a))
  {
    DisciplineStep(cfg, s, a);
    StoreStep(cfg, s, a);
    forall j | 0 <= j < |s.sessions| ensures ResultsOk(cfg, Apply(cfg, s, a), j) {
      if a.Consume? || a.i != j {
        BystanderKeepsResults(cfg, s, a, j);
      } else {
        assert SessionOk(cfg.scripts[j], s.sessions[j]) && LockOk(s, j);
        ResultsAt(cfg, s, a);
      }
    }
  }

  lemma {:induction false} SafeRun(cfg: Config, s: State, acts: seq<Action>)
    requires Exact(cfg.codec) && Safe(cfg, s) && IsRun(cfg, s, acts)
    ensures Safe(cfg, After(cfg, s, acts))
    decreases |acts|
  {
    if acts != [] {
      SafeStep(cfg, s, acts[0]);
      SafeRun(cfg, Apply(cfg, s, acts[0]), acts[1..]);
    }
  }

  lemma ReachableSafe(cfg: Config, s: State)
    requires Exact(cfg.codec) && Reachable(cfg, s)
    ensures Safe(cfg, s)
  {
    var acts :| IsRun(cfg, Init(cfg), acts) && After(cfg, Init(cfg), acts) == s;
    InitSafe(cfg);
    SafeRun(cfg, Init(cfg), acts);
  }

  /// Main results

  /** On every channel sends and receives strictly alternate: while the client waits, the worker is busy with
      its request, and otherwise the worker is waiting for the next one. */
  lemma StrictAlternation(cfg: Config, s: State, i: nat)
    requires Exact(cfg.codec) && Reachable(cfg, s) && i < |cfg.scripts|
    ensures |s.sessions| == |cfg.scripts|
    ensures s.sessions[i].client.Calling? <==> s.sessions[i].worker.Receiving?
    ensures s.sessions[i].client.Waiting? <==> Busy(s.sessions[i].worker)
    ensures s.sessions[i].client.Closed? <==> s.sessions[i].worker.Ended?
  {
    ReachableSafe(cfg, s);
    assert SessionOk(cfg.scripts[i], s.sessions[i]);
  }

  /** The k-th call of a session returns the sequential server's answer to the k-th request, the operations
      of all sessions taken in the one order in which they got the lock. */
  lemma Linearizable(cfg: Config, s: State, i: nat, k: nat)
    requires Exact(cfg.codec) && Reachable(cfg, s) && i < |cfg.scripts| == |s.sessions|
    requires k < |s.sessions[i].results|
    ensures k < |OpsOf(s.history, i)| && k < |cfg.scripts[i]|
    ensures OpsOf(s.history, i)[k] == Dispatch(cfg.codec, cfg.scripts[i][k])
    ensures s.sessions[i].results[k] == Decoded(AnswersTo(cfg.codec, s.history, i)[k])
  {
    ReachableSafe(cfg, s);
    assert ResultsOk(cfg, s, i);
  }

  /** What a call is told: where its operation stands in the history, its command word's statement holds of the
      sequential server before it, after it, and of the answer the call returned. */
  lemma CallObeys(cfg: Config, s: State, i: nat, k: nat)
    requires Exact(cfg.codec) && Reachable(cfg, s) && i < |cfg.scripts| == |s.sessions|
    requires k < |s.sessions[i].results|
    ensures k < |OpsOf(s.history, i)| && k < |cfg.scripts[i]|
    ensures s.sessions[i].results[k].Decoded?
    ensures var x, request, r := EventIndex(s.history, i, k), cfg.scripts[i][k], s.sessions[i].results[k].value;
            Obeys(cfg.codec, request.name, request.params, Final(s.history[..x]), Final(s.history[..x + 1]), r)
  {
    Linearizable(cfg, s, i, k);
    AnswerAt(cfg.codec, s.history, i, k);
    FinalNext(s.history, EventIndex(s.history, i, k));
    var request := cfg.scripts[i][k];
    StepObeys(cfg.codec, Final(s.history[..EventIndex(s.history, i, k)]), request.name, request.params);
  }

  /** An operation enters the history between its call and its return: all returned ones are there, and at
      most the one being waited for besides. */
  lemma EffectBetweenCallAndReturn(cfg: Config, s: State, i: nat)
    requires Exact(cfg.codec) && Reachable(cfg, s) && i < |cfg.scripts| == |s.sessions|
    ensures var n := |s.sessions[i].results|;
            |OpsOf(s.history, i)| == n || (|OpsOf(s.history, i)| == n + 1 && s.sessions[i].client == Waiting(n))
  {
    ReachableSafe(cfg, s);
    assert ResultsOk(cfg, s, i) && SessionOk(cfg.scripts[i], s.sessions[i]);
  }

  /** Writers exclude each other and all readers. */
  lemma MutualExclusion(cfg: Config, s: State, i: nat, j: nat)
    requires Exact(cfg.codec) && Reachable(cfg, s) && i < |cfg.scripts| == |s.sessions| && j < |s.sessions| && i != j
    ensures WriteLocked(s.sessions[i].worker) ==> !WriteLocked(s.sessions[j].worker) && !ReadLocked(s.sessions[j].worker)
  {
    ReachableSafe(cfg, s);
    assert LockOk(s, i) && LockOk(s, j);
  }

  /** What a writer loaded is the list for as long as it has the lock, and what a reader found not empty stays so. */
  lemma SnapshotIsCurrent(cfg: Config, s: State, i: nat)
    requires Exact(cfg.codec) && Reachable(cfg, s) && i < |cfg.scripts| == |s.sessions|
    ensures s.sessions[i].worker.Loaded? ==> s.sessions[i].worker.snapshot == s.roster
    ensures s.sessions[i].worker.Listing? ==> s.roster != []
  {
    ReachableSafe(cfg, s);
    assert LockOk(s, i) && ResultsOk(cfg, s, i);
  }

  /** The server's list and every player's messages are those of the sequential run of the history, but for
      its last operation while the writer has the lock and has not stored, and short of what the broadcast in
      progress still owes; no queue ever exceeds its capacity. */
  lemma PlayersFollowHistory(cfg: Config, s: State, p: PlayerId)
    requires Exact(cfg.codec) && Reachable(cfg, s) && p < |s.profiles|
    ensures Final(s.history) == match Unapplied(s) case None => Basis(s) case Some(op) => Step(Basis(s), op)
    ensures s.roster == Basis(s).roster && s.profiles == Basis(s).profiles
    ensures |s.queues| == |s.consumed| == |s.profiles| && |s.queues[p]| <= 1024
    ensures s.consumed[p] + s.queues[p] + Owed(s, p) == Basis(s).inboxes[p]
  {
    ReachableSafe(cfg, s);
    assert PlayerOk(s, p);
  }

  /** A broadcast has the lock. */
  predicate Broadcasting(s: State) {
    InBroadcast(s) || (Unapplied(s).Some? && Unapplied(s).value.Send?)
  }

  /** In a run whose removals are the intended ones, what a player has taken or queued is a stretch of the
      broadcast log from its join point; for a player in the list it is the rest of the log, or short of the
      one broadcast that has the lock. */
  lemma PlayerHasSuffixOfLog(cfg: Config, s: State, p: PlayerId)
    requires Exact(cfg.codec) && Reachable(cfg, s) && RemovalsAtHead(s.history) && p < |s.profiles|
    ensures |s.queues| == |s.consumed| == |s.profiles| <= |Final(s.history).joined|
    ensures var taken, sent, from := s.consumed[p] + s.queues[p], Final(s.history).sent, Final(s.history).joined[p];
            && from <= |sent| && taken <= sent[from..]
            && (p in s.roster ==>
                  taken == sent[from..] || (Broadcasting(s) && |sent| > from && taken == sent[from..|sent| - 1]))
  {
    assert UpToDate(Basis(s)) by {
      HeadRemovalsUpToDate(s.history);
      HeadRemovalsBefore(s.history);
    }
    TakenOfBasis(cfg, s, p);
    assert Final(s.history) == match Unapplied(s) case None => Basis(s) case Some(op) => Step(Basis(s), op) by {
      PlayersFollowHistory(cfg, s, p);
    }
    if Unapplied(s).Some? { StepExtendsLog(Basis(s), Unapplied(s).value, p, s.consumed[p] + s.queues[p]); }
  }

  lemma TakenOfBasis(cfg: Config, s: State, p: PlayerId)
    requires Exact(cfg.codec) && Reachable(cfg, s) && UpToDate(Basis(s)) && p < |s.profiles|
    ensures |s.queues| == |s.consumed| == |s.profiles| == |Basis(s).joined|
    ensures var taken, sent, from := s.consumed[p] + s.queues[p], Basis(s).sent, Basis(s).joined[p];
            && from <= |sent| && taken <= sent[from..]
            && (p in s.roster ==>
                  taken == sent[from..] || (InBroadcast(s) && |sent| > from && taken == sent[from..|sent| - 1]))
  {
    PlayersFollowHistory(cfg, s, p);
    var taken, inbox := s.consumed[p] + s.queues[p], Basis(s).inboxes[p];
    if InBroadcast(s) { OwedAtMostOnce(cfg, s, p); }
    assert taken == inbox || (InBroadcast(s) && inbox != [] && taken == inbox[..|inbox| - 1]);
  }

  lemma OwedAtMostOnce(cfg: Config, s: State, p: PlayerId)
    requires Exact(cfg.codec) && Reachable(cfg, s) && InBroadcast(s) && UpToDate(Basis(s))
    ensures Owed(s, p) == [] || Owed(s, p) == [s.sessions[s.writer.value].worker.m]
  {
    ReachableSafe(cfg, s);
    var todo, m := s.sessions[s.writer.value].worker.todo, s.sessions[s.writer.value].worker.m;
    CountUpTo(todo, p, |s.profiles| - |todo|);
    assert Copies(m, 1) == [m] + Copies(m, 0) == [m];
  }

  /** An operation that is not applied yet can only have added its own message to the log. */
  lemma StepExtendsLog(b: Lobby, op: Op, p: PlayerId, taken: seq<Message>)
    requires WellFormed(b) && p < |b.profiles| && b.joined[p] <= |b.sent| && taken <= b.sent[b.joined[p]..]
    ensures var b' := Step(b, op);
            && p < |b'.joined| && b'.joined[p] <= |b'.sent| && taken <= b'.sent[b'.joined[p]..]
            && (taken == b.sent[b.joined[p]..] ==>
                  || taken == b'.sent[b'.joined[p]..]
                  || (op.Send? && |b'.sent| > b'.joined[p] && taken == b'.sent[b'.joined[p]..|b'.sent| - 1]))
  {
    var b' := Step(b, op);
    assert b'.joined[p] == b.joined[p];
    if b'.sent != b.sent { assert b'.sent == b.sent + [op.message]; }
  }

  /// The history as an order in time

  lemma {:induction false} HistoryGrows(cfg: Config, s: State, acts: seq<Action>)
    requires IsRun(cfg, s, acts)
    ensures s.history <= After(cfg, s, acts).history
    decreases |acts|
  {
    if acts != [] {
      assert s.history <= Apply(cfg, s, acts[0]).history;
      HistoryGrows(cfg, Apply(cfg, s, acts[0]), acts[1..]);
    }
  }

  predicate NotYetMade(x: Session, l: nat) {
    match x.client
    case Calling(m) => m <= l
    case Waiting(m) => m < l
    case Closed => false
  }

  lemma NotYetRecorded(cfg: Config, s: State, j: nat, l: nat)
    requires Exact(cfg.codec) && Reachable(cfg, s) && j < |s.sessions| && NotYetMade(s.sessions[j], l)
    ensures |OpsOf(s.history, j)| <= l
  {
    ReachableSafe(cfg, s);
    assert ResultsOk(cfg, s, j) && SessionOk(cfg.scripts[j], s.sessions[j]);
  }

  lemma OldBeforeNew(history: seq<Event>, later: seq<Event>, i: nat, k: nat, j: nat, l: nat)
    requires history <= later && k < |OpsOf(history, i)| && |OpsOf(history, j)| <= l < |OpsOf(later, j)|
    ensures k < |OpsOf(later, i)| && EventIndex(later, i, k) < EventIndex(later, j, l)
  {
    var more := later[|history|..];
    assert later == history + more;
    OpsGrow(history, more, i);
    EventIndexExtends(history, more, i, k);
    EventIndexExtends(history, more, j, l);
  }

  /** The history respects real time: when one call has returned before another is made, its operation comes
      first in the history of every later state. */
  lemma {:induction false} RealTimeOrder(cfg: Config, s: State, acts: seq<Action>, i: nat, k: nat, j: nat, l: nat)
    requires Exact(cfg.codec) && Reachable(cfg, s) && IsRun(cfg, s, acts)
    requires i < |s.sessions| && k < |s.sessions[i].results|
    requires j < |s.sessions| && NotYetMade(s.sessions[j], l)
    requires l < |OpsOf(After(cfg, s, acts).history, j)|
    ensures var h := After(cfg, s, acts).history;
            k < |OpsOf(h, i)| && EventIndex(h, i, k) < EventIndex(h, j, l)
  {
    assert |s.sessions| == |cfg.scripts| by { ReachableSafe(cfg, s); }
    HistoryGrows(cfg, s, acts);
    Linearizable(cfg, s, i, k);
    NotYetRecorded(cfg, s, j, l);
    OldBeforeNew(s.history, After(cfg, s, acts).history, i, k, j, l);
  }
}
