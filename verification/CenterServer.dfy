/** The server object: the list of players its methods replace, and the players' bounded message queues.
    One caller at a time is inside a method, as the server's lock ensures; what concurrent callers see is the
    subject of CenterProtocol. */
module CenterServer {
  import opened CenterCommands
  import opened CenterSpec
  import opened Collections

  class Player {
    var profile: Profile
    var mq: seq<Message>
    var consumed: seq<Message>

    predicate Valid()
      reads this
    {
      |mq| <= CAPACITY
    }

    /** Everything ever sent to the player, in order. */
    function History(): seq<Message>
      reads this
    {
      consumed + mq
    }

    constructor ()
      ensures Valid() && profile == Profile("", 0, 0, 0) && History() == []
    {
      profile, mq, consumed := Profile("", 0, 0, 0), [], [];
    }

    /** One round of the consumer goroutine. */
    method Consume()
      requires mq != []
      modifies this`mq, this`consumed
      ensures consumed == old(consumed) + [old(mq)[0]] && mq == old(mq)[1..]
      ensures History() == old(History())
    {
      consumed, mq := consumed + [mq[0]], mq[1..];
    }

    /** A send on the queue.  It waits while the queue is full; meanwhile, and at any other time, the consumer
        may take any number of messages. */
    method Push(m: Message)
      requires Valid()
      modifies this`mq, this`consumed
      ensures Valid() && |mq| <= 1024 && History() == old(History()) + [m]
    {
      var left: nat :| left <= |mq| && left < CAPACITY;
      while |mq| > left
        invariant left <= |mq| && Valid() && History() == old(History())
        decreases |mq|
      {
        Consume();
      }
      mq := mq + [m];
    }
  }

  lemma {:induction false} CountAppend<P>(ps: seq<P>, q: P, p: P)
    ensures Count(ps + [q], p) == Count(ps, p) + if q == p then 1 else 0
  {
    if ps != [] {
      assert (ps + [q])[1..] == ps[1..] + [q];
      CountAppend(ps[1..], q, p);
    }
  }

  lemma {:induction false} CopiesAppend(m: Message, n: nat)
    ensures Copies(m, n) + [m] == Copies(m, n + 1)
  {
    if n > 0 {
      CopiesAppend(m, n - 1);
      assert Copies(m, n) + [m] == [m] + (Copies(m, n - 1) + [m]);
    }
  }

  /** The list by the players' numbers. */
  predicate Numbers<P(==)>(players: seq<P>, numbers: seq<PlayerId>, everyone: seq<P>) {
    && |players| == |numbers|
    && forall j :: 0 <= j < |numbers| ==> numbers[j] < |everyone| && players[j] == everyone[numbers[j]]
  }

  lemma RemovedNumbers<P>(players: seq<P>, numbers: seq<PlayerId>, everyone: seq<P>, i: nat)
    requires Numbers(players, numbers, everyone) && i < |players|
    ensures Numbers(Removed(players, i), Removed(numbers, i), everyone)
  {
  }

  /** Players in a list are counted alike by themselves and by their numbers. */
  lemma {:induction false} CountByNumber<P>(players: seq<P>, numbers: seq<PlayerId>, everyone: seq<P>, p: PlayerId)
    requires Numbers(players, numbers, everyone) && p < |everyone|
    requires forall j, k :: 0 <= j < k < |everyone| ==> everyone[j] != everyone[k]
    ensures Count(players, everyone[p]) == Count(numbers, p)
  {
    if players != [] { CountByNumber(players[1..], numbers[1..], everyone, p); }
  }

  /** The ghost fields number the players in the order they were added and remember what was broadcast: they
      say which sequential server the object stands for. */
  class Server {
    const codec: Codec
    var players: seq<Player>
    ghost var everyone: seq<Player>
    ghost var roster: seq<PlayerId>
    ghost var sent: seq<Message>
    ghost var joined: seq<nat>

    ghost predicate Valid()
      reads this, everyone
    {
      && |joined| == |everyone| && Numbers(players, roster, everyone)
      && (forall j, k :: 0 <= j < k < |everyone| ==> everyone[j] != everyone[k])
      && forall p :: p in everyone ==> p.Valid()
    }

    /** The sequential server the object stands for. */
    ghost function Abstract(): (s: Lobby)
      requires Valid()
      reads this, everyone
      ensures WellFormed(s)
    {
      Lobby(roster,
            seq(|everyone|, j requires 0 <= j < |everyone| reads this, everyone => everyone[j].profile),
            seq(|everyone|, j requires 0 <= j < |everyone| reads this, everyone => everyone[j].History()),
            sent, joined)
    }

    function Profiles(): (r: seq<Profile>)
      reads this, players
      ensures |r| == |players| && forall j :: 0 <= j < |r| ==> r[j] == players[j].profile
    {
      seq(|players|, j requires 0 <= j < |players| reads this, players => players[j].profile)
    }

    lemma ProfilesAreOnline()
      requires Valid()
      ensures Profiles() == Online(Abstract().roster, Abstract().profiles)
    {
    }

    constructor (c: Codec)
      ensures codec == c && players == [] && everyone == [] && Valid() && Abstract() == EMPTY
    {
      codec, players, everyone, roster, sent, joined := c, [], [], [], [], [];
    }

    /** The append under the lock. */
    method Append(player: Player)
      requires Valid() && player !in everyone && player.Valid() && player.History() == []
      modifies this
      ensures Valid() && players == old(players) + [player] && everyone == old(everyone) + [player]
      ensures Abstract() == Step(old(Abstract()), Add(player.profile))
    {
      players := players + [player];
      roster, everyone, joined := roster + [|everyone|], everyone + [player], joined + [|sent|];
      assert Abstract().profiles == old(Abstract()).profiles + [player.profile];
      assert Abstract().inboxes == old(Abstract()).inboxes + [[]];
    }

    method AddPlayer(params: string) returns (err: Option<string>)
      requires Valid()
      modifies this
      ensures Valid()
      ensures match codec.player(params)
              case Malformed(e) =>
                err == Some(e) && players == old(players) && everyone == old(everyone) && Abstract() == old(Abstract())
              case Decoded(profile) =>
                && err == None && Abstract() == Step(old(Abstract()), Add(profile))
                && |players| == |old(players)| + 1
                && var p := players[|old(players)|];
                   fresh(p) && players == old(players) + [p] && everyone == old(everyone) + [p]
    {
      var player := new Player();
      match codec.player(params)
      case Malformed(e) => err := Some(e);
      case Decoded(profile) =>
        player.profile := profile;
        assert Valid() && Abstract() == old(Abstract());
        Append(player);
        err := None;
    }

    /** The slices for the player found at index i. */
    method RemoveAt(i: nat)
      requires Valid() && i < |players|
      modifies this`players, this`roster
      ensures Valid() && players == Removed(old(players), i) && Leaves(old(players), i, players)
      ensures Abstract() == old(Abstract()).(roster := Removed(old(Abstract()).roster, i))
    {
      RemovedNumbers(players, roster, everyone, i);
      RemovedLeaves(players, i);
      roster := Removed(roster, i);
      if |players| == 1 {
        players := [];
      } else if i == |players| - 1 {
        players := players[..i - 1];
      } else if i == 0 {
        players := players[1..];
      } else {
        players := players[..i - 1] + players[..i + 1];
      }
    }

    method RemovePlayer(params: string) returns (err: Option<string>)
      requires Valid()
      modifies this`players, this`roster
      ensures Valid() && Abstract() == Step(old(Abstract()), Remove(params))
      ensures match FirstNamed(old(Profiles()), params)
              case None => err == Some("Player not found.") && players == old(players)
              case Some(i) => err == None && Leaves(old(players), i, players)
    {
      ProfilesAreOnline();
      for i := 0 to |players|
        invariant players == old(players) && roster == old(roster)
        invariant forall j :: 0 <= j < i ==> Profiles()[j].name != params
      {
        if players[i].profile.name == params {
          assert Profiles()[i].name == params;
          assert FirstNamed(Profiles(), params) == Some(i);
          RemoveAt(i);
          return None;
        }
      }
      err := Some(UNKNOWN.code);
    }

    method ListPlayer() returns (text: string, err: Option<string>)
      requires Valid()
      ensures (if err.Some? then Response(err.value, "") else Response("200", text))
              == Answer(codec, Online(Abstract().roster, Abstract().profiles), List)
    {
      ProfilesAreOnline();
      if |players| > 0 {
        text, err := codec.listing(Profiles()), None;
      } else {
        text, err := "", Some(NOBODY.code);
      }
    }

    /** The range loop over the players: everybody gets the message once for each time it is in the list. */
    method PushToAll(m: Message)
      requires Valid()
      modifies players
      ensures Valid()
      ensures forall p :: p in everyone ==>
                p.profile == old(p.profile) && p.History() == old(p.History()) + Copies(m, Count(players, p))
    {
      for i := 0 to |players|
        invariant forall p :: p in everyone ==> p.Valid() && p.profile == old(p.profile)
        invariant forall p :: p in everyone ==> p.History() == old(p.History()) + Copies(m, Count(players[..i], p))
      {
        forall p | p in everyone
          ensures Copies(m, Count(players[..i + 1], p))
                  == Copies(m, Count(players[..i], p)) + if p == players[i] then [m] else []
        {
          assert players[..i + 1] == players[..i] + [players[i]];
          CountAppend(players[..i], players[i], p);
          CopiesAppend(m, Count(players[..i], p));
        }
        assert players[i] == everyone[roster[i]];
        players[i].Push(m);
      }
      assert players[..|players|] == players;
    }

    method Broadcast(params: string) returns (err: Option<string>)
      requires Valid()
      modifies this`sent, players
      ensures Valid()
      ensures match codec.message(params)
              case Malformed(e) => err == Some(e) && Abstract() == old(Abstract())
              case Decoded(m) =>
                && err == (if players == [] then Some("No player online.") else None)
                && Abstract() == Step(old(Abstract()), Send(m))
    {
      match codec.message(params)
      case Malformed(e) => err := Some(e);
      case Decoded(m) =>
        if |players| > 0 {
          PushToAll(m);
          sent := sent + [m];
          forall p: PlayerId | p < |everyone| ensures Count(players, everyone[p]) == Count(roster, p) {
            CountByNumber(players, roster, everyone, p);
          }
          assert Abstract().profiles == old(Abstract()).profiles;
          assert Abstract().inboxes == Step(old(Abstract()), Send(m)).inboxes;
          err := None;
        } else {
          err := Some(NOBODY.code);
        }
    }

    /** A call is one step of the sequential server and returns its answer; no player is ever replaced. */
    method Handle(name: string, params: string) returns (r: Response)
      requires Valid()
      modifies this, players
      ensures Valid()
      ensures var before, op := old(Abstract()), Dispatch(codec, Request(name, params));
              Abstract() == Step(before, op) && r == Answer(codec, Online(before.roster, before.profiles), op)
      ensures Obeys(codec, name, params, old(Abstract()), Abstract(), r)
      ensures old(everyone) <= everyone && forall p :: p in everyone[|old(everyone)|..] ==> fresh(p)
    {
      ProfilesAreOnline();
      StepObeys(codec, Abstract(), name, params);
      var err: Option<string>;
      if name == "addplayer" {
        err := AddPlayer(params);
      } else if name == "removeplayer" {
        err := RemovePlayer(params);
      } else if name == "listplayer" {
        var text;
        text, err := ListPlayer();
        return if err.Some? then Response(err.value, "") else Response("200", text);
      } else if name == "broadcast" {
        err := Broadcast(params);
      } else {
        return Response("404", name + ":" + params);
      }
      r := if err.Some? then Response(err.value, "") else Response("200", "");
    }
  }
}
