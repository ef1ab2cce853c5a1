/** The broadcaster goroutine's own state: the client map it updates in place and the channels it sends on
    and closes.  Each arm of its select is a method.  Whatever the order of the arms and of the map
    iteration, `Valid` says that every channel ever entered holds what it held before entering, followed by
    the contiguous stretch of the log between its entering and its leaving. */
module ChatBroadcaster {
  import Protocol = ChatProtocol
  import Safety = ChatSafety

  class ClientChannel {
    var sent: seq<string>
    var closed: bool

    constructor ()
      ensures sent == [] && !closed
    {
      sent, closed := [], false;
    }

    /** Sending on a closed channel panics, so callers must exclude it. */
    method Send(msg: string)
      requires !closed
      modifies this
      ensures sent == old(sent) + [msg] && !closed
    {
      sent := sent + [msg];
    }

    /** So does closing twice. */
    method Close()
      requires !closed
      modifies this
      ensures closed && sent == old(sent)
    {
      closed := true;
    }
  }

  class Broadcaster {
    var clients: set<ClientChannel>
    ghost var log: seq<string>
    ghost var before: map<ClientChannel, seq<string>>
    ghost var joined: map<ClientChannel, nat>
    ghost var parted: map<ClientChannel, nat>

    /** Where c's stretch of the log stops. */
    ghost function End(c: ClientChannel): nat
      reads this
    {
      if c in parted then parted[c] else |log|
    }

    ghost predicate Entered(c: ClientChannel)
      reads this, c
    {
      && c in joined && c in before
      && joined[c] <= End(c) <= |log|
      && c.sent == before[c] + log[joined[c]..End(c)]
      && (c.closed <==> c in parted)
    }

    ghost predicate Valid()
      reads this, joined.Keys
    {
      && before.Keys == joined.Keys
      && parted.Keys == joined.Keys - clients
      && clients <= joined.Keys
      && forall c :: c in joined.Keys ==> Entered(c)
    }

    constructor ()
      ensures Valid() && clients == {} && log == [] && joined == map[]
    {
      clients, log, before, joined, parted := {}, [], map[], map[], map[];
    }

    /** The range loop over the client map, in any order. */
    method SendToAll(msg: string)
      requires forall c :: c in clients ==> !c.closed
      modifies clients
      ensures forall c :: c in clients ==> c.sent == old(c.sent) + [msg] && !c.closed
    {
      var todo := clients;
      while todo != {}
        invariant todo <= clients
        invariant forall c :: c in todo ==> c.sent == old(c.sent) && !c.closed
        invariant forall c :: c in clients - todo ==> c.sent == old(c.sent) + [msg] && !c.closed
        decreases todo
      {
        var cli :| cli in todo;
        cli.Send(msg);
        todo := todo - {cli};
      }
    }

    method OnMessage(msg: string)
      requires Valid()
      modifies this`log, clients
      ensures Valid() && log == old(log) + [msg]
      ensures forall c :: c in clients ==> c.sent == old(c.sent) + [msg]
    {
      assert forall c :: c in clients ==> Entered(c);
      SendToAll(msg);
      log := log + [msg];
      forall c | c in joined.Keys ensures Entered(c) {
        assert old(Entered(c));
        if c in clients {
          assert log[joined[c]..|log|] == old(log)[joined[c]..|old(log)|] + [msg];
        } else {
          assert log[joined[c]..parted[c]] == old(log)[joined[c]..parted[c]];
        }
      }
    }

    method OnEntering(cli: ClientChannel)
      requires Valid() && cli !in joined.Keys && !cli.closed
      modifies this
      ensures Valid() && clients == old(clients) + {cli} && log == old(log)
      ensures joined == old(joined)[cli := |log|] && before == old(before)[cli := cli.sent]
    {
      clients := clients + {cli};
      before, joined := before[cli := cli.sent], joined[cli := |log|];
      assert Entered(cli) by { assert log[|log|..|log|] == []; }
      forall c | c in joined.Keys - {cli} ensures Entered(c) {
        assert old(Entered(c)) && End(c) == old(End(c)) && joined[c] == old(joined[c]) && before[c] == old(before[c]);
      }
    }

    method OnLeaving(cli: ClientChannel)
      requires Valid() && cli in clients
      modifies this, cli
      ensures Valid() && clients == old(clients) - {cli} && log == old(log) && joined == old(joined)
      ensures cli.closed && cli.sent == old(cli.sent)
      ensures parted == old(parted)[cli := |log|] && before == old(before)
    {
      assert old(Entered(cli));
      clients := clients - {cli};
      parted := parted[cli := |log|];
      cli.Close();
      forall c | c in joined.Keys ensures Entered(c) {
        assert old(Entered(c));
      }
    }
  }

  /** The channel stands for connection c: it held the greeting when it entered, and it entered and left at
      the same log lengths. */
  ghost predicate StandsFor(b: Broadcaster, cli: ClientChannel, p: Protocol.Peer, l: Protocol.Link)
    reads b
  {
    && cli in b.joined && cli in b.before
    && b.before[cli] == [Protocol.Greeting(p)] && b.joined[cli] == l.joined
    && (Safety.InRoom(l.handler) ==> cli !in b.parted)
    && (Safety.Gone(l.handler) ==> cli in b.parted && b.parted[cli] == l.parted)
  }

  /** Object and protocol agree: between two rounds of the select loop, with the same log and the same
      entering and leaving points, a channel was sent exactly what its writer received. */
  lemma SentIsReceived(b: Broadcaster, cli: ClientChannel, cfg: Protocol.Config, s: Protocol.State, c: Protocol.Conn)
    requires b.Valid() && Protocol.Reachable(cfg, s) && s.broadcaster == Protocol.Idle
    requires c < |cfg| == |s.links| && (Safety.InRoom(s.links[c].handler) || Safety.Gone(s.links[c].handler))
    requires b.log == Protocol.Texts(s.log) && StandsFor(b, cli, cfg[c], s.links[c])
    ensures cli.sent == s.links[c].received && (cli.closed <==> c in s.closed)
  {
    Safety.ReceivedWhenIdle(cfg, s, c);
    assert b.Entered(cli) && b.End(cli) == Safety.StretchEnd(s, c);
  }
}
