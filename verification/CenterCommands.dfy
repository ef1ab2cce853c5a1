/** The commands of the game server, stated once in full: for each command word what becomes of the players
    and what is answered.  The sequential server, the server object and every call of the concurrent protocol
    meet this statement, and it leaves no choice. */
module CenterCommands {
  import opened CenterSpec
  import opened Collections

  /** The profiles in list order. */
  predicate Listed(s: Lobby, online: seq<Profile>)
    requires WellFormed(s)
  {
    |online| == |s.roster| && forall j :: 0 <= j < |online| ==> online[j] == s.profiles[s.roster[j]]
  }

  predicate HasName(s: Lobby, j: nat, name: string)
    requires WellFormed(s) && j < |s.roster|
  {
    s.profiles[s.roster[j]].name == name
  }

  /** Player i is the first of that name. */
  predicate FirstOfName(s: Lobby, i: nat, name: string)
    requires WellFormed(s)
  {
    i < |s.roster| && HasName(s, i, name) && forall j :: 0 <= j < i ==> !HasName(s, j, name)
  }

  /** A new player comes last, with the given profile and nothing sent to it yet. */
  predicate AddsLast(before: Lobby, after: Lobby, profile: Profile) {
    && after.roster == before.roster + [|before.profiles|]
    && after.profiles == before.profiles + [profile]
    && after.inboxes == before.inboxes + [[]]
    && after.joined == before.joined + [|before.sent|]
    && after.sent == before.sent
  }

  /** What the slices leave of the list: of the player at the head, all the others; of the last one, all but
      the last two; of one in between, everybody up to two before it, and then the list again up to it. */
  predicate Leaves<P(==)>(players: seq<P>, i: nat, left: seq<P>)
    requires i < |players|
  {
    var n := |players|;
    if i == 0 then
      |left| == n - 1 && forall x :: 0 <= x < n - 1 ==> left[x] == players[x + 1]
    else if i == n - 1 then
      |left| == n - 2 && forall x :: 0 <= x < n - 2 ==> left[x] == players[x]
    else
      && |left| == 2 * i
      && (forall x :: 0 <= x < i - 1 ==> left[x] == players[x])
      && (forall x :: i - 1 <= x < 2 * i ==> left[x] == players[x - i + 1])
  }

  lemma RemovedLeaves<P>(players: seq<P>, i: nat)
    requires i < |players|
    ensures Leaves(players, i, Removed(players, i))
  {
  }

  /** The first player of that name is taken out of the list, as the slices do it. */
  ghost predicate RemovesFirst(before: Lobby, after: Lobby, name: string)
    requires WellFormed(before)
  {
    && after == before.(roster := after.roster)
    && exists i: nat :: FirstOfName(before, i, name) && Leaves(before.roster, i, after.roster)
  }

  /** The same queue with n copies of a message behind it. */
  predicate Gets(old': seq<Message>, new': seq<Message>, m: Message, n: nat) {
    old' <= new' && |new'| == |old'| + n && forall x :: |old'| <= x < |new'| ==> new'[x] == m
  }

  /** Every player gets the message once for each time it is in the list. */
  predicate Spreads(before: Lobby, after: Lobby, m: Message) {
    && after == before.(inboxes := after.inboxes, sent := after.sent)
    && after.sent == before.sent + [m]
    && |after.inboxes| == |before.inboxes|
    && forall p: PlayerId :: p < |before.inboxes| ==>
         Gets(before.inboxes[p], after.inboxes[p], m, multiset(before.roster)[p])
  }

  ghost predicate Obeys(c: Codec, name: string, params: string, before: Lobby, after: Lobby, r: Response)
    requires WellFormed(before)
  {
    if name == "addplayer" then
      (match c.player(params)
       case Malformed(e) => r == Response(e, "") && after == before
       case Decoded(profile) => r == Response("200", "") && AddsLast(before, after, profile))
    else if name == "removeplayer" then
      if exists j :: 0 <= j < |before.roster| && HasName(before, j, params) then
        r == Response("200", "") && RemovesFirst(before, after, params)
      else
        r == Response("Player not found.", "") && after == before
    else if name == "listplayer" then
      && after == before
      && if before.roster == [] then r == Response("No player online.", "")
         else exists online :: Listed(before, online) && r == Response("200", c.listing(online))
    else if name == "broadcast" then
      (match c.message(params)
       case Malformed(e) => r == Response(e, "") && after == before
       case Decoded(m) =>
         if before.roster == [] then r == Response("No player online.", "") && after == before
         else r == Response("200", "") && Spreads(before, after, m))
    else
      r == Response("404", name + ":" + params) && after == before
  }

  /// The statement leaves no choice

  lemma ListedUnique(s: Lobby, a: seq<Profile>, b: seq<Profile>)
    requires WellFormed(s) && Listed(s, a) && Listed(s, b)
    ensures a == b
  {
  }

  lemma LeavesUnique<P>(players: seq<P>, i: nat, a: seq<P>, b: seq<P>)
    requires i < |players| && Leaves(players, i, a) && Leaves(players, i, b)
    ensures a == b
  {
    forall x | 0 <= x < |a| ensures a[x] == b[x] {}
  }

  lemma SpreadsUnique(before: Lobby, a: Lobby, b: Lobby, m: Message)
    requires Spreads(before, a, m) && Spreads(before, b, m)
    ensures a == b
  {
    forall p: PlayerId | p < |before.inboxes| ensures a.inboxes[p] == b.inboxes[p] {
      assert Gets(before.inboxes[p], a.inboxes[p], m, multiset(before.roster)[p]);
      assert Gets(before.inboxes[p], b.inboxes[p], m, multiset(before.roster)[p]);
    }
  }

  /** State and request determine the next state and the answer. */
  lemma ObeysUnique(c: Codec, name: string, params: string, before: Lobby,
                    a: Lobby, ra: Response, b: Lobby, rb: Response)
    requires WellFormed(before) && Obeys(c, name, params, before, a, ra) && Obeys(c, name, params, before, b, rb)
    ensures a == b && ra == rb
  {
    if name == "removeplayer" {
      if exists j :: 0 <= j < |before.roster| && HasName(before, j, params) { RemovalUnique(before, a, b, params); }
    } else if name == "listplayer" && before.roster != [] {
      var x :| Listed(before, x) && ra == Response("200", c.listing(x));
      var y :| Listed(before, y) && rb == Response("200", c.listing(y));
      ListedUnique(before, x, y);
    } else if name == "broadcast" && c.message(params).Decoded? && before.roster != [] {
      SpreadsUnique(before, a, b, c.message(params).value);
    }
  }

  lemma RemovalUnique(before: Lobby, a: Lobby, b: Lobby, name: string)
    requires WellFormed(before) && RemovesFirst(before, a, name) && RemovesFirst(before, b, name)
    ensures a == b
  {
    var i: nat :| FirstOfName(before, i, name) && Leaves(before.roster, i, a.roster);
    var k: nat :| FirstOfName(before, k, name) && Leaves(before.roster, k, b.roster);
    assert HasName(before, i, name) && HasName(before, k, name);
    LeavesUnique(before.roster, i, a.roster, b.roster);
  }

  /// The sequential server obeys

  lemma {:induction false} CountIsMultiset<P>(players: seq<P>, p: P)
    ensures Count(players, p) == multiset(players)[p]
  {
    if players != [] {
      assert players == [players[0]] + players[1..];
      CountIsMultiset(players[1..], p);
    }
  }

  lemma {:induction false} CopiesAre(m: Message, n: nat)
    ensures |Copies(m, n)| == n && forall x :: 0 <= x < n ==> Copies(m, n)[x] == m
  {
    if n > 0 { CopiesAre(m, n - 1); }
  }

  lemma SendSpreads(s: Lobby, m: Message)
    requires WellFormed(s) && s.roster != []
    ensures Spreads(s, Step(s, Send(m)), m)
  {
    var s' := Step(s, Send(m));
    forall p: PlayerId | p < |s.inboxes| ensures Gets(s.inboxes[p], s'.inboxes[p], m, multiset(s.roster)[p]) {
      CountIsMultiset(s.roster, p);
      CopiesAre(m, Count(s.roster, p));
    }
  }

  lemma RemoveObeys(c: Codec, s: Lobby, params: string)
    requires WellFormed(s)
    ensures var op := Remove(params);
            Obeys(c, "removeplayer", params, s, Step(s, op), Answer(c, Online(s.roster, s.profiles), op))
  {
    var online := Online(s.roster, s.profiles);
    match FirstNamed(online, params)
    case None =>
      forall j | 0 <= j < |s.roster| ensures !HasName(s, j, params) { assert online[j].name != params; }
    case Some(i) =>
      forall j | 0 <= j < i ensures !HasName(s, j, params) { assert online[j].name != params; }
      assert FirstOfName(s, i, params);
      RemovedLeaves(s.roster, i);
  }

  /** Dispatching a request, taking the step and answering is what the command word says. */
  lemma StepObeys(c: Codec, s: Lobby, name: string, params: string)
    requires WellFormed(s)
    ensures var op := Dispatch(c, Request(name, params));
            Obeys(c, name, params, s, Step(s, op), Answer(c, Online(s.roster, s.profiles), op))
  {
    if name == "removeplayer" {
      RemoveObeys(c, s, params);
    } else if name == "listplayer" {
      assert Listed(s, Online(s.roster, s.profiles));
    } else if name == "broadcast" && c.message(params).Decoded? && s.roster != [] {
      SendSpreads(s, c.message(params).value);
    }
  }
}
