/** The game server protocol never deadlocks, a broadcast held up by a full queue is always released, and
    every run ends with all sessions closed, all requests answered and all messages taken. */
module CenterProgress {
  import opened CenterSpec
  import opened Collections
  import opened CenterProtocol
  import opened CenterSafety

  /// No deadlock

  predicate WantsToWrite(x: Session) { x.worker.Wanting? && Writes(x.worker.op) }

  /** Enabled under a lock that holds back new readers while a writer waits. */
  predicate EnabledWithWriterPreference(cfg: Config, s: State, a: Action) {
    Enabled(cfg, s, a) && (a.RLock? ==> forall j :: 0 <= j < |s.sessions| ==> !WantsToWrite(s.sessions[j]))
  }

  predicate Finished(s: State) {
    && (forall i :: 0 <= i < |s.sessions| ==> s.sessions[i].client.Closed?)
    && (forall p :: 0 <= p < |s.queues| ==> s.queues[p] == [])
  }

  lemma HolderCanStep(cfg: Config, s: State, i: nat) returns (a: Action)
    requires Discipline(cfg, s) && WriterOk(s) && StoreAgrees(s) && i < |s.sessions|
    requires forall p :: 0 <= p < |s.queues| ==> s.queues[p] == []
    requires WriteLocked(s.sessions[i].worker) || ReadLocked(s.sessions[i].worker)
    ensures Enabled(cfg, s, a) && !a.RLock?
  {
    assert LockOk(s, i);
    match s.sessions[i].worker
    case Holding(_) => a := Load(i);
    case Loaded(_, _) => a := Store(i);
    case Pushing(_, todo) =>
      if todo == [] { return PushDone(i); }
      assert todo[0] == s.roster[|s.roster| - |todo|];
      a := Push(i);
    case Releasing(_) => a := Unlock(i);
    case Reading => a := TestLength(i);
    case Listing => a := Marshal(i);
    case _ => a := RUnlock(i);
  }

  lemma SessionCanStep(cfg: Config, s: State, i: nat) returns (a: Action)
    requires Discipline(cfg, s) && StoreOk(s) && i < |s.sessions| && !s.sessions[i].client.Closed?
    requires s.writer == None && s.readers == {}
    requires s.sessions[i].worker.Wanting? && !Writes(s.sessions[i].worker.op)
             ==> forall j :: 0 <= j < |s.sessions| ==> !WantsToWrite(s.sessions[j])
    ensures EnabledWithWriterPreference(cfg, s, a)
  {
    assert SessionOk(cfg.scripts[i], s.sessions[i]) && LockOk(s, i);
    match s.sessions[i].client
    case Calling(k) => a := if k < |cfg.scripts[i]| then Call(i) else Close(i);
    case Waiting(_) =>
      match s.sessions[i].worker
      case Wanting(op) => a := if Writes(op) then Lock(i) else if op == List then RLock(i) else Refuse(i);
      case _ => a := Return(i);
  }

  lemma SomeStep(cfg: Config, s: State) returns (a: Action)
    requires Discipline(cfg, s) && WriterOk(s) && StoreAgrees(s) && !Finished(s)
    ensures EnabledWithWriterPreference(cfg, s, a)
  {
    if p :| 0 <= p < |s.queues| && s.queues[p] != [] {
      a := Consume(p);
    } else if s.writer.Some? {
      assert LockOk(s, s.writer.value);
      a := HolderCanStep(cfg, s, s.writer.value);
    } else if s.readers != {} {
      var i :| i in s.readers;
      assert LockOk(s, i);
      a := HolderCanStep(cfg, s, i);
    } else if i :| 0 <= i < |s.sessions| && WantsToWrite(s.sessions[i]) {
      assert SessionOk(cfg.scripts[i], s.sessions[i]);
      a := SessionCanStep(cfg, s, i);
    } else {
      var i :| 0 <= i < |s.sessions| && !s.sessions[i].client.Closed?;
      a := SessionCanStep(cfg, s, i);
    }
  }

  lemma FinishedBlocks(cfg: Config, s: State, a: Action)
    requires Discipline(cfg, s) && Finished(s)
    ensures !Enabled(cfg, s, a)
  {
    if !a.Consume? && a.i < |s.sessions| { assert SessionOk(cfg.scripts[a.i], s.sessions[a.i]); }
  }

  /** A reachable state can step exactly when it is not finished, whichever way the lock treats waiting writers. */
  lemma NoDeadlock(cfg: Config, s: State)
    requires Exact(cfg.codec) && Reachable(cfg, s)
    ensures (exists a :: Enabled(cfg, s, a)) <==> !Finished(s)
    ensures (exists a :: EnabledWithWriterPreference(cfg, s, a)) <==> !Finished(s)
  {
    ReachableSafe(cfg, s);
    if Finished(s) {
      forall a ensures !Enabled(cfg, s, a) { FinishedBlocks(cfg, s, a); }
    } else {
      var a := SomeStep(cfg, s);
      assert EnabledWithWriterPreference(cfg, s, a) && Enabled(cfg, s, a);
    }
  }

  /// A broadcast held up by a full queue

  /** The consumer of the full queue takes no lock: it can step at once, and the push can follow it. */
  lemma FullQueueDrains(cfg: Config, s: State, i: nat)
    requires Exact(cfg.codec) && Reachable(cfg, s) && i < |s.sessions|
    requires s.sessions[i].worker.Pushing? && s.sessions[i].worker.todo != [] && !Enabled(cfg, s, Push(i))
    ensures var p := s.sessions[i].worker.todo[0];
            && Enabled(cfg, s, Consume(p)) && |s.queues[p]| == 1024
            && Enabled(cfg, Apply(cfg, s, Consume(p)), Push(i))
  {
    ReachableSafe(cfg, s);
    var todo := s.sessions[i].worker.todo;
    assert LockOk(s, i) && todo[0] == s.roster[|s.roster| - |todo|];
    assert PlayerOk(s, todo[0]);
  }

  /** Nobody else moves a broadcasting worker, and nobody else fills a queue. */
  lemma PushUndisturbed(cfg: Config, s: State, i: nat, a: Action)
    requires Discipline(cfg, s) && StoreOk(s) && Enabled(cfg, s, a) && a != Push(i)
    requires i < |s.sessions| && s.sessions[i].worker.Pushing? && s.sessions[i].worker.todo != []
    ensures Apply(cfg, s, a).sessions[i].worker == s.sessions[i].worker
    ensures Enabled(cfg, s, Push(i)) && StoreOk(Apply(cfg, s, a)) ==> Enabled(cfg, Apply(cfg, s, a), Push(i))
  {
    assert LockOk(s, i) && SessionOk(cfg.scripts[i], s.sessions[i]);
    if !a.Consume? { assert LockOk(s, a.i); }
  }

  lemma {:induction false} ReleasedAlong(cfg: Config, s: State, i: nat, acts: seq<Action>)
    requires Exact(cfg.codec) && Safe(cfg, s) && IsRun(cfg, s, acts) && Push(i) !in acts
    requires i < |s.sessions| && s.sessions[i].worker.Pushing? && s.sessions[i].worker.todo != []
    requires Enabled(cfg, s, Push(i)) || Consume(s.sessions[i].worker.todo[0]) in acts
    ensures Enabled(cfg, After(cfg, s, acts), Push(i))
    decreases |acts|
  {
    if acts != [] {
      var p := s.sessions[i].worker.todo[0];
      SafeStep(cfg, s, acts[0]);
      PushUndisturbed(cfg, s, i, acts[0]);
      if acts[0] == Consume(p) { assert PlayerOk(s, p); }
      ReleasedAlong(cfg, Apply(cfg, s, acts[0]), i, acts[1..]);
    }
  }

  /** However the run goes on, once the consumer has taken a message the send is possible, and it stays
      possible until it is made. */
  lemma {:induction false} BroadcastReleased(cfg: Config, s: State, i: nat, acts: seq<Action>)
    requires Exact(cfg.codec) && Reachable(cfg, s) && IsRun(cfg, s, acts) && Push(i) !in acts
    requires i < |s.sessions| && s.sessions[i].worker.Pushing? && s.sessions[i].worker.todo != []
    requires Consume(s.sessions[i].worker.todo[0]) in acts
    ensures Enabled(cfg, After(cfg, s, acts), Push(i))
  {
    ReachableSafe(cfg, s);
    ReleasedAlong(cfg, s, i, acts);
  }

  /// Termination

  /** Stages an operation still has to pass inside its worker. */
  function StagesLeft(w: Worker): nat {
    match w
    case Wanting(_) => 7
    case Holding(_) => 6
    case Loaded(_, _) => 5
    case Reading => 5
    case Listing => 4
    case Pushing(_, _) => 4
    case Releasing(_) => 3
    case ReadReleasing(_) => 3
    case Replying(_) => 2
    case _ => 0
  }

  function SessionRank(script: seq<Request>, x: Session): int {
    match x.client
    case Calling(k) => 8 * (|script| - k) + 1
    case Waiting(k) => 8 * (|script| - k - 1) + 1 + StagesLeft(x.worker)
    case Closed => 0
  }

  function SessionsRank(cfg: Config, xs: seq<Session>, n: nat): int
    requires n <= |xs| && n <= |cfg.scripts|
  {
    if n == 0 then 0 else SessionsRank(cfg, xs, n - 1) + SessionRank(cfg.scripts[n - 1], xs[n - 1])
  }

  function TodoLeft(s: State): nat {
    if InBroadcast(s) then |s.sessions[s.writer.value].worker.todo| else 0
  }

  function Queued(qs: seq<seq<Message>>): nat {
    if qs == [] then 0 else Queued(qs[..|qs| - 1]) + |qs[|qs| - 1]|
  }

  lemma {:induction false} SessionsRankUpdate(cfg: Config, xs: seq<Session>, i: nat, x: Session, n: nat)
    requires n <= |xs| && n <= |cfg.scripts| && i < |xs| && i < |cfg.scripts|
    ensures SessionsRank(cfg, xs[i := x], n)
            == SessionsRank(cfg, xs, n)
               + if i < n then SessionRank(cfg.scripts[i], x) - SessionRank(cfg.scripts[i], xs[i]) else 0
  {
    if n > 0 { SessionsRankUpdate(cfg, xs, i, x, n - 1); }
  }

  lemma {:induction false} SessionsRankNonnegative(cfg: Config, s: State, n: nat)
    requires Discipline(cfg, s) && n <= |s.sessions|
    ensures SessionsRank(cfg, s.sessions, n) >= 0
  {
    if n > 0 {
      SessionsRankNonnegative(cfg, s, n - 1);
      assert SessionOk(cfg.scripts[n - 1], s.sessions[n - 1]);
    }
  }

  lemma {:induction false} QueuedUpdate(qs: seq<seq<Message>>, p: nat, q: seq<Message>)
    requires p < |qs|
    ensures Queued(qs[p := q]) == Queued(qs) + |q| - |qs[p]|
  {
    var n := |qs| - 1;
    if p == n {
      assert qs[p := q][..n] == qs[..n];
    } else {
      assert qs[p := q][..n] == qs[..n][p := q];
      QueuedUpdate(qs[..n], p, q);
    }
  }

  function Rank(cfg: Config, s: State): int
    requires |s.sessions| == |cfg.scripts|
  {
    SessionsRank(cfg, s.sessions, |s.sessions|)
  }

  lemma ActorRankFalls(cfg: Config, s: State, a: Action)
    requires Exact(cfg.codec) && Enabled(cfg, s, a) && !a.Consume? && !a.Push?
    requires SessionOk(cfg.scripts[a.i], s.sessions[a.i]) && LockOk(s, a.i)
    ensures SessionRank(cfg.scripts[a.i], Apply(cfg, s, a).sessions[a.i]) < SessionRank(cfg.scripts[a.i], s.sessions[a.i])
    ensures Apply(cfg, s, a).sessions == s.sessions[a.i := Apply(cfg, s, a).sessions[a.i]]
  {
  }

  lemma SessionStepLowers(cfg: Config, s: State, a: Action)
    requires Discipline(cfg, s) && Enabled(cfg, s, a) && !a.Consume? && !a.Push? && Exact(cfg.codec)
    ensures Rank(cfg, Apply(cfg, s, a)) < Rank(cfg, s)
  {
    assert SessionOk(cfg.scripts[a.i], s.sessions[a.i]) && LockOk(s, a.i);
    ActorRankFalls(cfg, s, a);
    SessionsRankUpdate(cfg, s.sessions, a.i, Apply(cfg, s, a).sessions[a.i], |s.sessions|);
  }

  /** Such a step starts at most one broadcast to the list as it stands, and at most doubles the list: the
      slices of a removal can make it longer. */
  lemma SessionStepGrowth(cfg: Config, s: State, a: Action)
    requires Actor(cfg, s, a) && WriterOk(s) && !a.Push?
    ensures var s' := Apply(cfg, s, a);
            && |s'.roster| <= 2 * |s.roster| + 1
            && TodoLeft(s') <= TodoLeft(s) + |s.roster|
            && (s'.queues == s.queues || s'.queues == s.queues + [[]])
  {
    if s.writer.Some? && s.writer.value != a.i { WriterUndisturbed(cfg, s, a); }
  }

  /** The steps left when the sessions have `stages` to go and the list has `listed` players: each stage may
      start a broadcast, whose every message is pushed and later taken, and may double the list. */
  function StepBound(stages: nat, listed: nat): nat {
    if stages == 0 then 0 else 1 + 2 * listed + StepBound(stages - 1, 2 * listed + 1)
  }

  lemma {:induction false} StepBoundMonotone(stages: nat, listed: nat, stages': nat, listed': nat)
    requires stages <= stages' && listed <= listed'
    ensures StepBound(stages, listed) <= StepBound(stages', listed')
  {
    if stages > 0 { StepBoundMonotone(stages - 1, 2 * listed + 1, stages' - 1, 2 * listed' + 1); }
  }

  lemma {:induction false} StageShortens(stages: nat, listed: nat, todo: nat, stages': nat, listed': nat, todo': nat)
    requires stages' < stages && listed' <= 2 * listed + 1 && todo' <= todo + listed
    ensures StepBound(stages', listed') + 2 * todo' < StepBound(stages, listed) + 2 * todo
  {
    StepBoundMonotone(stages', listed', stages - 1, 2 * listed + 1);
  }

  function PowerOfTwo(n: nat): nat {
    if n == 0 then 1 else 2 * PowerOfTwo(n - 1)
  }

  lemma {:induction false} StepBoundIs(stages: nat, listed: nat)
    ensures StepBound(stages, listed) + stages == (listed + 1) * (PowerOfTwo(stages + 1) - 2)
  {
    if stages > 0 {
      StepBoundIs(stages - 1, 2 * listed + 1);
      var x := PowerOfTwo(stages);
      assert 2 * (listed + 1) + (2 * listed + 2) * (x - 2) == (listed + 1) * (2 * x - 2);
    }
  }

  lemma StepBoundFromEmpty(stages: nat)
    ensures StepBound(stages, 0) == PowerOfTwo(stages + 1) - stages - 2
  {
    StepBoundIs(stages, 0);
  }

  function StepsLeft(cfg: Config, s: State): int
    requires Discipline(cfg, s)
  {
    SessionsRankNonnegative(cfg, s, |s.sessions|);
    StepBound(Rank(cfg, s), |s.roster|) + 2 * TodoLeft(s) + Queued(s.queues)
  }

  lemma SessionStepShortens(cfg: Config, s: State, a: Action)
    requires Exact(cfg.codec) && Discipline(cfg, s) && WriterOk(s) && Enabled(cfg, s, a) && !a.Consume? && !a.Push?
    requires Discipline(cfg, Apply(cfg, s, a))
    ensures StepsLeft(cfg, Apply(cfg, s, a)) < StepsLeft(cfg, s)
  {
    var s' := Apply(cfg, s, a);
    assert LockOk(s, a.i);
    SessionStepLowers(cfg, s, a);
    SessionStepGrowth(cfg, s, a);
    assert Queued(s'.queues) == Queued(s.queues) by { assert (s.queues + [[]])[..|s.queues|] == s.queues; }
    SessionsRankNonnegative(cfg, s', |s'.sessions|);
    StageShortens(Rank(cfg, s), |s.roster|, TodoLeft(s), Rank(cfg, s'), |s'.roster|, TodoLeft(s'));
  }

  lemma PushShortens(cfg: Config, s: State, i: nat)
    requires Discipline(cfg, s) && Enabled(cfg, s, Push(i)) && Discipline(cfg, Apply(cfg, s, Push(i)))
    ensures StepsLeft(cfg, Apply(cfg, s, Push(i))) < StepsLeft(cfg, s)
  {
    var s', w := Apply(cfg, s, Push(i)), s.sessions[i].worker;
    assert LockOk(s, i);
    SessionsRankUpdate(cfg, s.sessions, i, s'.sessions[i], |s.sessions|);
    assert s'.sessions == s.sessions[i := s'.sessions[i]];
    QueuedUpdate(s.queues, w.todo[0], s.queues[w.todo[0]] + [w.m]);
  }

  /** Every step uses up at least one of the steps left. */
  lemma StepShortens(cfg: Config, s: State, a: Action)
    requires Exact(cfg.codec) && Safe(cfg, s) && Enabled(cfg, s, a) && Discipline(cfg, Apply(cfg, s, a))
    ensures StepsLeft(cfg, Apply(cfg, s, a)) < StepsLeft(cfg, s)
  {
    match a
    case Consume(p) => QueuedUpdate(s.queues, p, s.queues[p][1..]);
    case Push(i) => PushShortens(cfg, s, i);
    case _ => SessionStepShortens(cfg, s, a);
  }

  lemma {:induction false} RunLength(cfg: Config, s: State, acts: seq<Action>)
    requires Exact(cfg.codec) && Safe(cfg, s) && IsRun(cfg, s, acts)
    ensures |acts| <= StepsLeft(cfg, s)
    decreases |acts|
  {
    if acts != [] {
      SafeStep(cfg, s, acts[0]);
      StepShortens(cfg, s, acts[0]);
      RunLength(cfg, Apply(cfg, s, acts[0]), acts[1..]);
    }
  }

  /** Stages of all sessions: eight a request, and the closing word. */
  function Stages(scripts: seq<seq<Request>>): nat {
    if scripts == [] then 0 else Stages(scripts[..|scripts| - 1]) + 8 * |scripts[|scripts| - 1]| + 1
  }

  lemma {:induction false} InitRank(cfg: Config, n: nat)
    requires n <= |cfg.scripts|
    ensures SessionsRank(cfg, Init(cfg).sessions, n) == Stages(cfg.scripts[..n])
  {
    if n > 0 {
      assert cfg.scripts[..n][..n - 1] == cfg.scripts[..n - 1];
      InitRank(cfg, n - 1);
    }
  }

  lemma InitStepsLeft(cfg: Config)
    ensures Discipline(cfg, Init(cfg)) && StepsLeft(cfg, Init(cfg)) == StepBound(Stages(cfg.scripts), 0)
  {
    InitSafe(cfg);
    assert cfg.scripts[..|cfg.scripts|] == cfg.scripts;
    InitRank(cfg, |cfg.scripts|);
  }

  lemma {:induction false} InitRunLength(cfg: Config, acts: seq<Action>)
    requires Exact(cfg.codec) && IsRun(cfg, Init(cfg), acts)
    ensures |acts| <= StepBound(Stages(cfg.scripts), 0)
  {
    InitStepsLeft(cfg);
    InitSafe(cfg);
    RunLength(cfg, Init(cfg), acts);
  }

  /** Every run ends, within this many steps. */
  lemma {:induction false} EveryRunEnds(cfg: Config, acts: seq<Action>)
    requires Exact(cfg.codec) && IsRun(cfg, Init(cfg), acts)
    ensures |acts| <= PowerOfTwo(Stages(cfg.scripts) + 1) - Stages(cfg.scripts) - 2
  {
    InitRunLength(cfg, acts);
    StepBoundFromEmpty(Stages(cfg.scripts));
  }

  /** A run that cannot be extended has answered every request of every session, in agreement with the
      sequential server, and every player has taken everything it was sent. */
  lemma FinishedRun(cfg: Config, s: State)
    requires Exact(cfg.codec) && Reachable(cfg, s) && !(exists a :: Enabled(cfg, s, a))
    ensures |s.sessions| == |cfg.scripts|
    ensures s.roster == Final(s.history).roster && s.profiles == Final(s.history).profiles
    ensures |s.consumed| == |s.profiles| == |Final(s.history).inboxes|
    ensures forall p :: 0 <= p < |s.profiles| ==> s.consumed[p] == Final(s.history).inboxes[p]
    ensures forall i :: 0 <= i < |s.sessions| ==>
              && |s.sessions[i].results| == |cfg.scripts[i]| == |OpsOf(s.history, i)|
              && forall k :: 0 <= k < |cfg.scripts[i]| ==>
                   s.sessions[i].results[k] == Decoded(AnswersTo(cfg.codec, s.history, i)[k])
  {
    NoDeadlock(cfg, s);
    ReachableSafe(cfg, s);
    forall i | 0 <= i < |s.sessions|
      ensures |s.sessions[i].results| == |cfg.scripts[i]| == |OpsOf(s.history, i)|
      ensures forall k :: 0 <= k < |cfg.scripts[i]| ==>
                s.sessions[i].results[k] == Decoded(AnswersTo(cfg.codec, s.history, i)[k])
    {
      assert SessionOk(cfg.scripts[i], s.sessions[i]) && ResultsOk(cfg, s, i);
    }
    HolderIsWaitedFor(cfg, s);
    assert !InBroadcast(s);
    forall p: PlayerId | p < |s.profiles| ensures s.consumed[p] == Final(s.history).inboxes[p] {
      assert PlayerOk(s, p);
    }
  }

  lemma HolderIsWaitedFor(cfg: Config, s: State)
    requires Discipline(cfg, s)
    ensures s.writer.Some? ==> s.sessions[s.writer.value].client.Waiting?
  {
    if s.writer.Some? {
      assert SessionOk(cfg.scripts[s.writer.value], s.sessions[s.writer.value]) && LockOk(s, s.writer.value);
    }
  }
}
