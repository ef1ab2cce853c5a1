/** The game server's operations on values: what one request does to the list of players and what it answers.
    The server object and the concurrent protocol are both related to these functions. */
module CenterSpec {
  import opened Collections

  /** What json.Unmarshal makes of a text. */
  datatype Decoded<+T> = Decoded(value: T) | Malformed(error: string)

  datatype Profile = Profile(name: string, level: int, exp: int, room: int)

  datatype Message = Message(from: string, to: string, content: string)

  datatype Request = Request(name: string, params: string)

  datatype Response = Response(code: string, body: string)

  /** JSON, as functions on texts. */
  datatype Codec = Codec(
    player: string -> Decoded<Profile>,
    message: string -> Decoded<Message>,
    listing: seq<Profile> -> string,
    encodeRequest: Request -> string,
    decodeRequest: string -> Decoded<Request>,
    encodeResponse: Response -> string,
    decodeResponse: string -> Decoded<Response>)

  /** A request after dispatch on its name and decoding of its parameters. */
  datatype Op = Add(profile: Profile) | Remove(name: string) | List | Send(message: Message) | Reject(response: Response)

  /** Slots in a player's queue. */
  const CAPACITY: nat := 1024

  const OK := Response("200", "")
  const NOBODY := Response("No player online.", "")
  const UNKNOWN := Response("Player not found.", "")

  function Dispatch(c: Codec, r: Request): Op {
    if r.name == "addplayer" then
      (match c.player(r.params)
       case Decoded(p) => Add(p)
       case Malformed(e) => Reject(Response(e, "")))
    else if r.name == "removeplayer" then Remove(r.params)
    else if r.name == "listplayer" then List
    else if r.name == "broadcast" then
      (match c.message(r.params)
       case Decoded(m) => Send(m)
       case Malformed(e) => Reject(Response(e, "")))
    else Reject(Response("404", r.name + ":" + r.params))
  }

  /** The first player of that name. */
  function FirstNamed(online: seq<Profile>, name: string): (i: Option<nat>)
    ensures i.Some? ==> i.value < |online| && online[i.value].name == name
                        && forall j :: 0 <= j < i.value ==> online[j].name != name
    ensures i.None? ==> forall j :: 0 <= j < |online| ==> online[j].name != name
  {
    if online == [] then None
    else if online[0].name == name then Some(0)
    else
      assert online == [online[0]] + online[1..];
      match FirstNamed(online[1..], name)
      case None => None
      case Some(j) => Some(j + 1)
  }

  /** The answer to an operation, given the profiles of the players in list order. */
  function Answer(c: Codec, online: seq<Profile>, op: Op): Response {
    match op
    case Add(_) => OK
    case Remove(name) => if FirstNamed(online, name).None? then UNKNOWN else OK
    case List => if online == [] then NOBODY else Response("200", c.listing(online))
    case Send(_) => if online == [] then NOBODY else OK
    case Reject(r) => r
  }

  /** removePlayer's slices, for the player found at index i. */
  function Removed<P>(players: seq<P>, i: nat): seq<P>
    requires i < |players|
  {
    if |players| == 1 then []
    else if i == |players| - 1 then players[..i - 1]
    else if i == 0 then players[1..]
    else players[..i - 1] + players[..i + 1]
  }

  /** The removal that was meant. */
  function Without<P>(players: seq<P>, i: nat): seq<P>
    requires i < |players|
  {
    players[..i] + players[i + 1..]
  }

  /** When the slices amount to the removal that was meant: at the head of the list; and otherwise only in the
      exact middle of a list that repeats its second to middle players after the middle, and its first player
      just before it. */
  predicate SlicesRemove<P(==)>(players: seq<P>, i: nat)
    requires i < |players|
  {
    || i == 0
    || (2 * i == |players| - 1 && players[0] == players[i - 1]
        && forall k :: 1 <= k <= i ==> players[k] == players[i + k])
  }

  /** The two results side by side, when they are equally long. */
  lemma InTheMiddle<P>(players: seq<P>, i: nat, x: nat)
    requires 0 < i && 2 * i == |players| - 1 && x < 2 * i
    ensures |Removed(players, i)| == |Without(players, i)| == 2 * i
    ensures Removed(players, i)[x] == if x < i - 1 then players[x] else players[x - i + 1]
    ensures Without(players, i)[x] == if x < i then players[x] else players[x + 1]
  {
    assert Removed(players, i) == players[..i - 1] + players[..i + 1];
  }

  lemma MiddleRemoved<P(!new)>(players: seq<P>, i: nat)
    requires 0 < i && 2 * i == |players| - 1 && SlicesRemove(players, i)
    ensures Removed(players, i) == Without(players, i)
  {
    InTheMiddle(players, i, 0);
    forall x | 0 <= x < 2 * i ensures Removed(players, i)[x] == Without(players, i)[x] {
      InTheMiddle(players, i, x);
      if x >= i { assert players[x - i + 1] == players[i + (x - i + 1)]; }
    }
  }

  lemma RemovedMeansMiddle<P(!new)>(players: seq<P>, i: nat)
    requires 0 < i < |players| && Removed(players, i) == Without(players, i)
    ensures SlicesRemove(players, i)
  {
    InTheMiddle(players, i, i - 1);
    forall k | 1 <= k <= i ensures players[k] == players[i + k] { InTheMiddle(players, i, i - 1 + k); }
  }

  /** removePlayer drops exactly the player it found in these cases and in no others, whatever the list. */
  lemma RemovalRightIff<P(!new)>(players: seq<P>, i: nat)
    requires i < |players|
    ensures Removed(players, i) == Without(players, i) <==> SlicesRemove(players, i)
  {
    if 0 < i {
      if SlicesRemove(players, i) { MiddleRemoved(players, i); }
      if Removed(players, i) == Without(players, i) { RemovedMeansMiddle(players, i); }
    }
  }

  /** In a list without repeats only the player at the head is removed rightly. */
  lemma RemovalRightIffFirst<P(!new)>(players: seq<P>, i: nat)
    requires i < |players| && forall j, k :: 0 <= j < k < |players| ==> players[j] != players[k]
    ensures Removed(players, i) == Without(players, i) <==> i == 0
  {
    RemovalRightIff(players, i);
    if 0 < i && 2 * i == |players| - 1 { assert players[1] != players[i + 1]; }
  }

  /// The sequential server

  type PlayerId = nat

  /** Players are numbered in the order they were added.  `roster` is the list on the server, `sent` the
      messages broadcast so far, `joined[p]` how many had been broadcast when p was added. */
  datatype Lobby = Lobby(roster: seq<PlayerId>, profiles: seq<Profile>, inboxes: seq<seq<Message>>,
                         sent: seq<Message>, joined: seq<nat>)

  const EMPTY := Lobby([], [], [], [], [])

  predicate WellFormed(s: Lobby) {
    && |s.profiles| == |s.inboxes| == |s.joined|
    && forall j :: 0 <= j < |s.roster| ==> s.roster[j] < |s.profiles|
  }

  function Online(roster: seq<PlayerId>, profiles: seq<Profile>): seq<Profile>
    requires forall j :: 0 <= j < |roster| ==> roster[j] < |profiles|
  {
    seq(|roster|, j requires 0 <= j < |roster| => profiles[roster[j]])
  }

  function Count<P(==)>(players: seq<P>, p: P): nat {
    if players == [] then 0 else (if players[0] == p then 1 else 0) + Count(players[1..], p)
  }

  function Copies(m: Message, n: nat): seq<Message> {
    if n == 0 then [] else [m] + Copies(m, n - 1)
  }

  function Step(s: Lobby, op: Op): (s': Lobby)
    requires WellFormed(s)
    ensures WellFormed(s')
  {
    match op
    case Add(p) =>
      s.(roster := s.roster + [|s.profiles|], profiles := s.profiles + [p], inboxes := s.inboxes + [[]],
         joined := s.joined + [|s.sent|])
    case Remove(name) =>
      (match FirstNamed(Online(s.roster, s.profiles), name)
       case None => s
       case Some(i) => s.(roster := Removed(s.roster, i)))
    case Send(m) =>
      if s.roster == [] then s
      else s.(inboxes := seq(|s.inboxes|, p requires 0 <= p < |s.inboxes| =>
                               s.inboxes[p] + Copies(m, Count<PlayerId>(s.roster, p))),
              sent := s.sent + [m])
    case List => s
    case Reject(_) => s
  }

  /** One operation of a run, and the session it came from. */
  datatype Event = Event(session: nat, op: Op)

  /** The server after executing a history one operation at a time. */
  function Final(history: seq<Event>): (s: Lobby)
    ensures WellFormed(s)
  {
    if history == [] then EMPTY else Step(Final(history[..|history| - 1]), history[|history| - 1].op)
  }

  /** The server before the last operation that was not refused. */
  function Before(history: seq<Event>): (s: Lobby)
    ensures WellFormed(s)
  {
    if history == [] then EMPTY
    else
      var rest := history[..|history| - 1];
      if history[|history| - 1].op.Reject? then Before(rest) else Final(rest)
  }

  lemma ExtendBefore(history: seq<Event>, e: Event)
    ensures Final(history + [e]) == Step(Final(history), e.op)
    ensures Before(history + [e]) == if e.op.Reject? then Before(history) else Final(history)
  {
    assert (history + [e])[..|history|] == history;
  }

  /** The operations of one session in a history. */
  function OpsOf(history: seq<Event>, i: nat): seq<Op> {
    if history == [] then []
    else
      var last := history[|history| - 1];
      OpsOf(history[..|history| - 1], i) + if last.session == i then [last.op] else []
  }

  /** What the sequential server answers to that session. */
  function AnswersTo(c: Codec, history: seq<Event>, i: nat): (r: seq<Response>)
    ensures |r| == |OpsOf(history, i)|
  {
    if history == [] then []
    else
      var before, last := Final(history[..|history| - 1]), history[|history| - 1];
      AnswersTo(c, history[..|history| - 1], i)
      + if last.session == i then [Answer(c, Online(before.roster, before.profiles), last.op)] else []
  }

  lemma ExtendHistory(c: Codec, history: seq<Event>, e: Event, i: nat)
    ensures var h := history + [e];
            && Final(h) == Step(Final(history), e.op)
            && OpsOf(h, i) == OpsOf(history, i) + (if e.session == i then [e.op] else [])
            && AnswersTo(c, h, i) == AnswersTo(c, history, i)
               + (if e.session == i then [Answer(c, Online(Final(history).roster, Final(history).profiles), e.op)] else [])
  {
    assert (history + [e])[..|history|] == history;
  }

  /** Where the k-th operation of a session stands in a history. */
  function EventIndex(history: seq<Event>, i: nat, k: nat): (x: nat)
    requires k < |OpsOf(history, i)|
    ensures x < |history| && history[x].session == i && history[x].op == OpsOf(history, i)[k]
    ensures |OpsOf(history[..x], i)| == k
  {
    var rest := history[..|history| - 1];
    if k == |OpsOf(rest, i)| then |history| - 1
    else
      assert forall x :: 0 <= x <= |rest| ==> rest[..x] == history[..x];
      EventIndex(rest, i, k)
  }

  lemma FinalNext(history: seq<Event>, x: nat)
    requires x < |history|
    ensures Final(history[..x + 1]) == Step(Final(history[..x]), history[x].op)
  {
    assert history[..x + 1][..x] == history[..x];
  }

  /** The k-th answer to a session is the one given where its k-th operation stands. */
  lemma {:induction false} AnswerAt(c: Codec, history: seq<Event>, i: nat, k: nat)
    requires k < |OpsOf(history, i)|
    ensures var x := EventIndex(history, i, k);
            var before := Final(history[..x]);
            AnswersTo(c, history, i)[k] == Answer(c, Online(before.roster, before.profiles), history[x].op)
  {
    var rest := history[..|history| - 1];
    if k < |OpsOf(rest, i)| {
      AnswerAt(c, rest, i, k);
      var x := EventIndex(rest, i, k);
      assert rest[..x] == history[..x];
      assert AnswersTo(c, history, i)[k] == AnswersTo(c, rest, i)[k];
    }
  }

  /** Extending a history keeps the places of the operations in it, and the new ones stand behind them. */
  lemma {:induction false} EventIndexExtends(history: seq<Event>, more: seq<Event>, i: nat, k: nat)
    requires k < |OpsOf(history + more, i)|
    ensures if k < |OpsOf(history, i)| then EventIndex(history + more, i, k) == EventIndex(history, i, k)
            else EventIndex(history + more, i, k) >= |history|
  {
    if more == [] {
      assert history + more == history;
    } else {
      var rest := more[..|more| - 1];
      assert (history + more)[..|history + more| - 1] == history + rest;
      OpsGrow(history, rest, i);
      if k < |OpsOf(history + rest, i)| { EventIndexExtends(history, rest, i, k); }
    }
  }

  lemma {:induction false} OpsGrow(history: seq<Event>, more: seq<Event>, i: nat)
    ensures OpsOf(history, i) <= OpsOf(history + more, i)
  {
    if more == [] {
      assert history + more == history;
    } else {
      assert (history + more)[..|history + more| - 1] == history + more[..|more| - 1];
      OpsGrow(history, more[..|more| - 1], i);
    }
  }

  /// Histories with removals

  /** A server that drops exactly the player it finds. */
  function IntendedStep(s: Lobby, op: Op): (s': Lobby)
    requires WellFormed(s)
    ensures WellFormed(s')
  {
    if op.Remove? then
      match FirstNamed(Online(s.roster, s.profiles), op.name)
      case None => s
      case Some(i) => s.(roster := Without(s.roster, i))
    else Step(s, op)
  }

  function Intended(history: seq<Event>): (s: Lobby)
    ensures WellFormed(s)
  {
    if history == [] then EMPTY else IntendedStep(Intended(history[..|history| - 1]), history[|history| - 1].op)
  }

  predicate NoRepeats(players: seq<PlayerId>) {
    forall j, k :: 0 <= j < k < |players| ==> players[j] != players[k]
  }

  lemma {:induction false} IntendedNoRepeats(history: seq<Event>)
    ensures NoRepeats(Intended(history).roster)
  {
    if history != [] { IntendedNoRepeats(history[..|history| - 1]); }
  }

  /** A removal that finds a player finds it at the head of the list. */
  predicate AtHead(s: Lobby, op: Op)
    requires WellFormed(s)
  {
    op.Remove? ==> FirstNamed(Online(s.roster, s.profiles), op.name) in {None, Some(0)}
  }

  lemma StepIntendedIff(s: Lobby, op: Op)
    requires WellFormed(s) && NoRepeats(s.roster)
    ensures Step(s, op) == IntendedStep(s, op) <==> AtHead(s, op)
  {
    if op.Remove? {
      match FirstNamed(Online(s.roster, s.profiles), op.name)
      case None =>
      case Some(i) => RemovalRightIffFirst(s.roster, i);
    }
  }

  /** The server has been the intended one after every operation. */
  predicate AsIntended(history: seq<Event>) {
    Final(history) == Intended(history) && (history == [] || AsIntended(history[..|history| - 1]))
  }

  predicate RemovalsAtHead(history: seq<Event>) {
    history == []
    || (var last := |history| - 1; RemovalsAtHead(history[..last]) && AtHead(Final(history[..last]), history[last].op))
  }

  /** That is so if and only if every removal that found a player found it at the head of the list. */
  lemma {:induction false} IntendedIffAtHead(history: seq<Event>)
    ensures AsIntended(history) <==> RemovalsAtHead(history)
  {
    if history != [] {
      var last := |history| - 1;
      var rest := history[..last];
      IntendedIffAtHead(rest);
      if Final(rest) == Intended(rest) {
        IntendedNoRepeats(rest);
        StepIntendedIff(Final(rest), history[last].op);
      }
    }
  }

  /// What players are sent

  lemma {:induction false} CountUpTo(roster: seq<PlayerId>, p: PlayerId, from: nat)
    requires forall j :: 0 <= j < |roster| ==> roster[j] == from + j
    ensures Count(roster, p) == if from <= p < from + |roster| then 1 else 0
  {
    if roster != [] { CountUpTo(roster[1..], p, from + 1); }
  }

  /** The list is the newest players in the order they were added.  Each of them has been sent exactly the
      broadcasts since it joined, and the players removed before them the first few of those. */
  predicate UpToDate(s: Lobby)
    requires WellFormed(s)
  {
    var gone := |s.profiles| - |s.roster|;
    && gone >= 0
    && (forall j :: 0 <= j < |s.roster| ==> s.roster[j] == gone + j)
    && forall p: PlayerId :: p < |s.profiles| ==>
         && s.joined[p] <= |s.sent|
         && s.inboxes[p] <= s.sent[s.joined[p]..]
         && (p >= gone ==> s.inboxes[p] == s.sent[s.joined[p]..])
  }

  lemma SendKeepsUpToDate(s: Lobby, m: Message)
    requires WellFormed(s) && UpToDate(s)
    ensures UpToDate(Step(s, Send(m)))
  {
    if s.roster != [] {
      var s' := Step(s, Send(m));
      forall p: PlayerId | p < |s.profiles|
        ensures s'.sent[s.joined[p]..] == s.sent[s.joined[p]..] + [m]
        ensures s'.inboxes[p] == s.inboxes[p] + if p >= |s.profiles| - |s.roster| then [m] else []
      {
        CountUpTo(s.roster, p, |s.profiles| - |s.roster|);
        assert Copies(m, 1) == [m] + Copies(m, 0) == [m];
      }
    }
  }

  lemma StepKeepsUpToDate(s: Lobby, op: Op)
    requires WellFormed(s) && UpToDate(s) && AtHead(s, op)
    ensures UpToDate(Step(s, op))
  {
    if op.Send? { SendKeepsUpToDate(s, op.message); }
  }

  lemma {:induction false} HeadRemovalsUpToDate(history: seq<Event>)
    requires RemovalsAtHead(history)
    ensures UpToDate(Final(history))
  {
    if history != [] {
      var last := |history| - 1;
      HeadRemovalsUpToDate(history[..last]);
      StepKeepsUpToDate(Final(history[..last]), history[last].op);
    }
  }

  lemma {:induction false} HeadRemovalsBefore(history: seq<Event>)
    requires RemovalsAtHead(history)
    ensures UpToDate(Before(history))
  {
    if history != [] {
      var rest := history[..|history| - 1];
      if history[|history| - 1].op.Reject? { HeadRemovalsBefore(rest); } else { HeadRemovalsUpToDate(rest); }
    }
  }

  predicate NoRemoval(history: seq<Event>) {
    forall e :: e in history ==> !e.op.Remove?
  }

  /** Without removals everybody is in the list, and each player's messages are the broadcasts since it joined. */
  lemma {:induction false} NoRemovalAllPresent(history: seq<Event>)
    requires NoRemoval(history)
    ensures RemovalsAtHead(history) && UpToDate(Final(history))
    ensures |Final(history).roster| == |Final(history).profiles|
  {
    if history != [] {
      var last := |history| - 1;
      assert history[last] in history;
      NoRemovalAllPresent(history[..last]);
      StepKeepsUpToDate(Final(history[..last]), history[last].op);
    }
  }

  /// A removal that goes wrong

  lemma TwoPlayers(session: nat, p: Profile, q: Profile)
    ensures Final([Event(session, Add(p)), Event(session, Add(q))]) == Lobby([0, 1], [p, q], [[], []], [], [0, 0])
  {
    var one, two := [Event(session, Add(p))], [Event(session, Add(p)), Event(session, Add(q))];
    assert one[..0] == [];
    assert Final(one) == Lobby([0], [p], [[]], [], [0]);
    assert two[..1] == one;
  }

  /** Two players join and the second leaves: nobody is left in the list. */
  lemma RemovingSecondOfTwoEmptiesList(session: nat, p: Profile, q: Profile)
    requires p.name != q.name
    ensures var joined := [Event(session, Add(p)), Event(session, Add(q))];
            Final(joined).roster == [0, 1] && Final(joined + [Event(session, Remove(q.name))]).roster == []
  {
    TwoPlayers(session, p, q);
    var two := Final([Event(session, Add(p)), Event(session, Add(q))]);
    ExtendBefore([Event(session, Add(p)), Event(session, Add(q))], Event(session, Remove(q.name)));
    assert Online(two.roster, two.profiles) == [p, q];
    SecondNamed(p, q);
  }

  lemma SecondNamed(p: Profile, q: Profile)
    requires p.name != q.name
    ensures FirstNamed([p, q], q.name) == Some(1)
  {
    assert [p, q][0] == p && [p, q][1] == q;
  }
}
