/**
 * What the server's handlers promise, stated over the transitions of module
 * `Server`: who joins and who is host, who receives a publish, the order in
 * which turns are handed on, how a round is settled, which frames are
 * ignored, and the invariants every message keeps.
 */
module ServerLaws {
  import opened Wrappers
  import opened Cards
  import opened Deck
  import opened ServerCard
  import opened Hand
  import opened Rules
  import opened Protocol
  import opened Server
  import Registry

  // ---- Registration and connection ----

  /** The first client to register is the host, and only the first; the new id is then accepted. */
  lemma RegisterHost(s: ServerState, id: string, userName: string)
    ensures var (s1, isHost) := Register(s, id, userName);
      && (isHost <==> s.clients == [])
      && Accepts(s1, id)
      && |s1.clients| == |s.clients| + 1
      && s1.dealer == s.dealer && s1.outbox == s.outbox
  {
    var s1 := Register(s, id, userName).0;
    assert s1.clients[|s.clients|].id == id;
  }

  /** Unregistering a freshly registered id restores the table. */
  lemma RegisterThenUnregister(s: ServerState, id: string, userName: string)
    requires !Accepts(s, id)
    ensures Unregister(Register(s, id, userName).0, id) == s
  {
    Registry.RegisterThenRetain(s.clients, id, userName);
  }

  /** After `unregister` the id is refused and every other id is accepted exactly as before. */
  lemma UnregisterRefuses(s: ServerState, id: string, other: string)
    ensures !Accepts(Unregister(s, id), id)
    ensures other != id ==> (Accepts(Unregister(s, id), other) <==> Accepts(s, other))
  {
    Registry.RetainMembers(s.clients, id);
    var r := Unregister(s, id).clients;
    forall i | 0 <= i < |r| ensures r[i].id != id {
      assert r[i] in r;
    }
    if other != id {
      if Accepts(s, other) {
        var i :| 0 <= i < |s.clients| && s.clients[i].id == other;
        assert s.clients[i] in r;
      }
      if Accepts(Unregister(s, id), other) {
        var i :| 0 <= i < |r| && r[i].id == other;
        assert r[i] in r;
        assert r[i] in s.clients;
      }
    }
  }

  /**
   * A connection succeeds exactly for an accepted id; its snapshot is the
   * first client with the id, now holding the channel, and afterwards every
   * publish to all reaches that channel.
   */
  lemma ConnectSpec(s: ServerState, id: string, sender: Sender, t: Trigger)
    ensures Connect(s, id, sender).Some? <==> Accepts(s, id)
    ensures Connect(s, id, sender).Some? ==>
      var (s1, snap) := Connect(s, id, sender).value;
      var i := Registry.FindById(s.clients, id).value;
      && i < |s.clients|
      && snap == s.clients[i].(sender := Some(sender))
      && s1.clients[i] == snap
      && |s1.clients| == |s.clients|
      && (forall k :: 0 <= k < |s.clients| && k != i ==> s1.clients[k] == s.clients[k])
      && Envelope(sender, t) in Publish(s1, t, None).outbox[|s.outbox|..]
  {
    Registry.FindByIdSpec(s.clients, id);
    var cs := Registry.Attach(s.clients, id, sender);
    Registry.AttachSpec(s.clients, id, sender);
    Registry.SameIdsSameFind(cs, s.clients, id);
    if Accepts(s, id) {
      Registry.AttachAdmits(s.clients, id, sender, t);
      var s1 := s.(clients := cs);
      assert Publish(s1, t, None).outbox[|s.outbox|..] == Registry.Fanout(cs, t, None);
    }
  }

  /** `publish` appends one message per admitted client and keeps everything sent before. */
  lemma PublishSpec(s: ServerState, t: Trigger, filter: Option<string>)
    ensures var s1 := Publish(s, t, filter);
      && s1.outbox[..|s.outbox|] == s.outbox
      && |s1.outbox| == |s.outbox| + Registry.AdmittedCount(s.clients, filter)
      && s1.clients == s.clients && s1.dealer == s.dealer
  {
    Registry.FanoutLength(s.clients, t, filter);
    assert Publish(s, t, filter).outbox[..|s.outbox|] == s.outbox;
  }

  // ---- Starting a round, betting and drawing ----

  /**
   * `start_turn` gives the dealer the top two cards of a freshly shuffled
   * deck, two different cards, and announces the caller with the first of
   * them; nothing else changes.
   */
  lemma StartRoundSpec(s: ServerState, sh: Shuffler, caller: Client)
    requires ValidShuffler(sh)
    ensures FullDecks(sh)
    ensures var (s1, t) := StartRound(s, sh, caller);
      && s1.dealer.hand == [sh(s.decksUsed)[51], sh(s.decksUsed)[50]]
      && Distinct(s1.dealer.hand)
      && s1.dealer.handValue == Score(s1.dealer.hand)
      && s1.dealer.chips == s.dealer.chips && s1.dealer.userName == s.dealer.userName
      && s1.decksUsed == s.decksUsed + 1
      && s1.clients == s.clients && s1.outbox == s.outbox
      && t == StartTurn(caller.id, caller.player.userName, Some(sh(s.decksUsed)[51]))
  {
    ValidShufflerFull(sh);
    FreshDrawDistinct(2, sh, s.decksUsed);
    DealFromStock(sh(s.decksUsed), 2, sh, s.decksUsed + 1);
  }

  /** A bet from an unknown id panics and changes nothing; otherwise only that client's bet changes. */
  lemma BetSpec(s: ServerState, sh: Shuffler, client: Client, amount: U32)
    requires FullDecks(sh)
    ensures var r := Dispatch(s, sh, client, Command.Bet(amount));
      && (r.panicked <==> !Accepts(s, client.id))
      && (r.panicked ==> r.state == s)
      && (!r.panicked ==>
            var i := Registry.FindById(s.clients, client.id).value;
            && r.state == s.(clients := s.clients[i := s.clients[i].(player := s.clients[i].player.(currentBet := amount))]))
  {
    Registry.SetBetSpec(s.clients, client.id, amount);
  }

  /**
   * `draw_cards_for_publish`: for an accepted id, the caller's hand grows by
   * exactly the `n` cards announced, dealt from a fresh deck (two decks past
   * 52 cards); an unknown id panics before anything is drawn.
   */
  lemma DrawForSpec(s: ServerState, sh: Shuffler, id: string, n: nat)
    requires FullDecks(sh)
    ensures DrawFor(s, sh, id, n).Some? <==> Accepts(s, id)
    ensures DrawFor(s, sh, id, n).Some? ==>
      var (s1, t) := DrawFor(s, sh, id, n).value;
      var i := Registry.FindById(s.clients, id).value;
      && t.CardsDrawn? && |t.cards| == n
      && (n <= 52 ==> s1.decksUsed == s.decksUsed + 1 && forall k :: 0 <= k < n ==> t.cards[k] == sh(s.decksUsed)[51 - k])
      && s1.clients[i].player.hand == s.clients[i].player.hand + t.cards
      && s1.clients[i].player.handValue == Score(s1.clients[i].player.hand)
      && (forall k :: 0 <= k < |s.clients| && k != i ==> s1.clients[k] == s.clients[k])
      && s1.dealer == s.dealer && s1.outbox == s.outbox
  {
    Registry.FindByIdSpec(s.clients, id);
    Registry.DrawIntoSpec(s.clients, id, FreshDeal(n, sh, s.decksUsed).cards);
    if n <= 52 {
      DealFromStock(sh(s.decksUsed), n, sh, s.decksUsed + 1);
    }
  }

  /** `Hit` is handled exactly like a request to draw one card. */
  lemma HitIsDrawOne(s: ServerState, sh: Shuffler, client: Client)
    requires FullDecks(sh)
    ensures Dispatch(s, sh, client, Hit) == Dispatch(s, sh, client, Command.DrawCards(1))
  {
  }

  // ---- Messages the server ignores ----

  /**
   * Non-text frames, pings, undecodable text and callers whose snapshot has
   * no channel leave the table exactly as it was and do not panic.
   */
  lemma IgnoredMessages(s: ServerState, sh: Shuffler, client: Client, frame: Frame, decode: Decoder)
    requires FullDecks(sh)
    requires || frame.NonText?
             || frame.text == "ping" || frame.text == "ping\n"
             || decode(frame.text).None?
             || client.sender.None?
    ensures HandleClientMsg(s, sh, client, frame, decode) == Step(s, false)
  {
  }

  // ---- Ending a turn ----

  /**
   * When some client holds the position after the caller's, `end_turn` names
   * the first such client in the registry and shows the dealer's first card;
   * the table is unchanged, in particular the submitted player is kept only
   * in the caller's own copy. Positions need not be dense: after a departure
   * the successor is whoever is first at `position + 1`.
   */
  lemma EndTurnHandsOn(s: ServerState, sh: Shuffler, caller: Client, player: Player)
    requires FullDecks(sh)
    requires Registry.FindByPosition(s.clients, caller.position + 1).Some?
    requires s.dealer.hand != []
    ensures var e, next := Server.EndTurn(s, sh, caller, player),
                           s.clients[Registry.FindByPosition(s.clients, caller.position + 1).value];
      && next.position == caller.position + 1
      && e.state == s
      && e.caller == caller.(player := player)
      && e.trigger == Some(StartTurn(next.id, next.player.userName, Some(s.dealer.hand[0])))
      && e.keepPlaying
  {
  }

  /** While positions are dense, the client after the caller is the next one in the registry. */
  lemma NextPositionIsNextIndex(cs: seq<Client>, position: nat)
    requires Registry.DensePositions(cs)
    requires position + 1 < |cs|
    ensures Registry.FindByPosition(cs, position + 1) == Some(position + 1)
  {
    Registry.FindByPositionSpec(cs, position + 1);
    assert cs[position + 1].position == position + 1;
  }

  /** While positions are dense, behind the last position the turn goes to the dealer. */
  lemma LastPositionHasNoSuccessor(cs: seq<Client>, position: nat)
    requires Registry.DensePositions(cs)
    requires position + 1 >= |cs|
    ensures Registry.FindByPosition(cs, position + 1).None?
  {
    Registry.FindByPositionSpec(cs, position + 1);
  }

  /**
   * When no client holds the position after the caller's and no payout
   * panics, the dealer plays to 17 or more, then every client in registry
   * order is paid on its end state against the dealer's value and has its
   * hand cleared; the results start with the dealer's own as a push, hold
   * one entry per client, and the game goes on exactly when some client has
   * chips left. After a departure this ends the round early, before seats
   * beyond the gap have played.
   */
  lemma EndTurnSettlesRound(s: ServerState, sh: Shuffler, caller: Client, player: Player)
    requires FullDecks(sh)
    requires Registry.FindByPosition(s.clients, caller.position + 1).None?
    requires Registry.Payable(s.clients, TakeDealersTurn(s, sh).dealer.handValue)
    ensures var e, d := Server.EndTurn(s, sh, caller, player), TakeDealersTurn(s, sh).dealer;
      && DealerStood(s.dealer.hand, d.hand)
      && d.handValue == Score(d.hand)
      && e.trigger.Some? && e.trigger.value.RoundFinished?
      && var results := e.trigger.value.results;
      && |results| == 1 + |s.clients|
      && results[0] == TurnResult(d, Push)
      && |e.state.clients| == |s.clients|
      && (forall i :: 0 <= i < |s.clients| ==>
            var c, c1, end := s.clients[i], e.state.clients[i], CalculateEndState(s.clients[i].player, d.handValue);
            && results[i + 1] == TurnResult(c1.player, end)
            && c1.player.chips == c.player.chips + PayoutFactor(end) * c.player.currentBet
            && c1 == c.(player := c.player.(chips := c1.player.chips, hand := [], handValue := 0)))
      && (e.keepPlaying <==> exists i :: 0 <= i < |e.state.clients| && e.state.clients[i].player.chips > 0)
      && e.state.dealer == d && e.state.outbox == s.outbox
      && e.caller == caller.(player := player)
  {
    DealerDrawsStood(s.dealer.hand, sh, s.decksUsed);
    var played := TakeDealersTurn(s, sh);
    Registry.SettleAllPays(played.clients, played.dealer.handValue);
  }

  /**
   * Naming the next client panics when the dealer has no cards yet, a turn
   * ended before any round was started, whenever some client holds the next
   * position.
   */
  lemma EndTurnBeforeStartPanics(s: ServerState, sh: Shuffler, caller: Client, player: Player)
    requires FullDecks(sh)
    requires Registry.FindByPosition(s.clients, caller.position + 1).Some?
    requires s.dealer.hand == []
    ensures Dispatch(s, sh, caller, Command.EndTurn(player)) == Step(s, true)
  {
  }

  /**
   * The messages of a settled round, whenever no client holds the next
   * position: the results go to every connected client, followed by
   * `GameFinished` exactly when nobody has chips left.
   */
  lemma RoundEndMessages(s: ServerState, sh: Shuffler, caller: Client, player: Player)
    requires FullDecks(sh)
    requires Registry.FindByPosition(s.clients, caller.position + 1).None?
    requires Registry.Payable(s.clients, TakeDealersTurn(s, sh).dealer.handValue)
    ensures var e, r := Server.EndTurn(s, sh, caller, player), Dispatch(s, sh, caller, Command.EndTurn(player));
      var cs := e.state.clients;
      && !r.panicked
      && r.state.clients == cs
      && r.state.outbox ==
           s.outbox + Registry.Fanout(cs, e.trigger.value, None)
           + (if exists i :: 0 <= i < |cs| && cs[i].player.chips > 0 then [] else Registry.Fanout(cs, GameFinished, None))
  {
    EndTurnSettlesRound(s, sh, caller, player);
  }

  // ---- Invariants of message handling ----

  lemma PublishKeepsFresh(s: ServerState, t: Trigger, filter: Option<string>)
    requires FreshValues(s)
    ensures FreshValues(Publish(s, t, filter))
  {
  }

  lemma EndTurnKeepsFresh(s: ServerState, sh: Shuffler, caller: Client, player: Player)
    requires FullDecks(sh) && FreshValues(s)
    ensures FreshValues(Server.EndTurn(s, sh, caller, player).state)
  {
    TakeDealersTurnKeepsFresh(s, sh);
    var played := TakeDealersTurn(s, sh);
    Registry.SettleAllKeepsFresh(played.clients, played.dealer.handValue);
  }

  /** Every cached hand value stays the score of its hand whatever message arrives. */
  lemma HandleClientMsgKeepsFresh(s: ServerState, sh: Shuffler, client: Client, frame: Frame, decode: Decoder)
    requires FullDecks(sh) && FreshValues(s)
    ensures FreshValues(HandleClientMsg(s, sh, client, frame, decode).state)
  {
    if frame.Text? && decode(frame.text).Some? {
      match decode(frame.text).value
      case Start =>
        StartRoundKeepsFresh(s, sh, client);
      case Bet(amount) =>
        PlaceBetKeepsFresh(s, client.id, amount);
      case EndTurn(player) =>
        EndTurnKeepsFresh(s, sh, client, player);
      case DrawCards(n) =>
        DrawForKeepsFresh(s, sh, client.id, n);
      case Hit =>
        DrawForKeepsFresh(s, sh, client.id, 1);
    }
  }

  /** Ids and positions of the clients that stay registered. */
  predicate SameSeats(a: seq<Client>, b: seq<Client>)
  {
    |a| == |b| && forall i :: 0 <= i < |a| ==> a[i].id == b[i].id && a[i].position == b[i].position
  }

  lemma EndTurnKeepsSeats(s: ServerState, sh: Shuffler, caller: Client, player: Player)
    requires FullDecks(sh)
    ensures SameSeats(s.clients, Server.EndTurn(s, sh, caller, player).state.clients)
  {
    Registry.SettleAllKeepsChannels(s.clients, TakeDealersTurn(s, sh).dealer.handValue);
  }

  /**
   * No message renumbers or removes a client: ids and positions change only
   * by registering and unregistering, so dense positions stay dense.
   */
  lemma HandleClientMsgKeepsSeats(s: ServerState, sh: Shuffler, client: Client, frame: Frame, decode: Decoder)
    requires FullDecks(sh)
    ensures SameSeats(s.clients, HandleClientMsg(s, sh, client, frame, decode).state.clients)
  {
    if frame.Text? && decode(frame.text).Some? {
      match decode(frame.text).value
      case Start =>
      case Bet(amount) =>
        Registry.SetBetSpec(s.clients, client.id, amount);
      case EndTurn(player) =>
        EndTurnKeepsSeats(s, sh, client, player);
      case DrawCards(n) =>
        Registry.DrawIntoSpec(s.clients, client.id, FreshDeal(n, sh, s.decksUsed).cards);
      case Hit =>
        Registry.DrawIntoSpec(s.clients, client.id, FreshDeal(1, sh, s.decksUsed).cards);
    }
  }

  lemma SameSeatsKeepDense(a: seq<Client>, b: seq<Client>)
    requires Registry.DensePositions(a) && SameSeats(a, b)
    ensures Registry.DensePositions(b)
  {
  }

  // ---- A three-player table ----

  /** Three registrations on a fresh server: the first is host, seats 0, 1 and 2 in join order. */
  function ThreeJoin(a: string, b: string, c: string, na: string, nb: string, nc: string): (r: (ServerState, bool, bool, bool))
  {
    var (s1, h1) := Register(Initial(), a, na);
    var (s2, h2) := Register(s1, b, nb);
    var (s3, h3) := Register(s2, c, nc);
    (s3, h1, h2, h3)
  }

  lemma ThreeJoinSpec(a: string, b: string, c: string, na: string, nb: string, nc: string)
    ensures var (s, h1, h2, h3) := ThreeJoin(a, b, c, na, nb, nc);
      && h1 && !h2 && !h3
      && s == ServerState([Registry.NewClient(a, na, 0), Registry.NewClient(b, nb, 1), Registry.NewClient(c, nc, 2)],
                          InitialDealer(), [], 0)
  {
  }

  /**
   * Players A, B and C, seated in that order as they join; A starts the
   * round. A's end of turn hands the turn to B, B's to C, and C's settles
   * the round with four results, the dealer's first; since everyone still
   * holds 500 chips the game goes on.
   */
  lemma ThreePlayerRound(s: ServerState, sh: Shuffler, a: string, b: string, c: string, na: string, nb: string, nc: string, p: Player)
    requires ValidShuffler(sh)
    requires a != b && b != c && a != c
    requires s.clients == [Registry.NewClient(a, na, 0), Registry.NewClient(b, nb, 1), Registry.NewClient(c, nc, 2)]
    ensures FullDecks(sh)
    ensures Registry.UniqueIds(s.clients)
    ensures var started := StartRound(s, sh, s.clients[0]).0;
      var e0, e1, e2 := Server.EndTurn(started, sh, s.clients[0], p), Server.EndTurn(started, sh, s.clients[1], p),
                        Server.EndTurn(started, sh, s.clients[2], p);
      && e0.trigger == Some(StartTurn(b, nb, Some(started.dealer.hand[0])))
      && e1.trigger == Some(StartTurn(c, nc, Some(started.dealer.hand[0])))
      && e2.trigger.Some? && |e2.trigger.value.results| == 4
      && e2.keepPlaying
  {
    ValidShufflerFull(sh);
    var started := StartRound(s, sh, s.clients[0]).0;
    assert started.clients == s.clients && started.dealer.hand != [];
    ThreeSeatsEndTurns(started, sh, a, b, c, na, nb, nc, p);
  }

  /** The three ends of turn of that round, on any table seated so with a dealt dealer. */
  lemma ThreeSeatsEndTurns(s: ServerState, sh: Shuffler, a: string, b: string, c: string, na: string, nb: string, nc: string, p: Player)
    requires FullDecks(sh)
    requires s.clients == [Registry.NewClient(a, na, 0), Registry.NewClient(b, nb, 1), Registry.NewClient(c, nc, 2)]
    requires s.dealer.hand != []
    ensures var e0, e1, e2 := Server.EndTurn(s, sh, s.clients[0], p), Server.EndTurn(s, sh, s.clients[1], p),
                              Server.EndTurn(s, sh, s.clients[2], p);
      && e0.trigger == Some(StartTurn(b, nb, Some(s.dealer.hand[0])))
      && e1.trigger == Some(StartTurn(c, nc, Some(s.dealer.hand[0])))
      && e2.trigger.Some? && |e2.trigger.value.results| == 4
      && e2.keepPlaying
  {
    assert Registry.DensePositions(s.clients);
    NextPositionIsNextIndex(s.clients, 0);
    NextPositionIsNextIndex(s.clients, 1);
    EndTurnHandsOn(s, sh, s.clients[0], p);
    EndTurnHandsOn(s, sh, s.clients[1], p);
    EndTurnSettled(s, sh, s.clients[2], p);
  }

  /** The last seat's end of turn in the three-player round, all stakes zero. */
  lemma EndTurnSettled(s: ServerState, sh: Shuffler, caller: Client, p: Player)
    requires FullDecks(sh)
    requires |s.clients| == 3 && Registry.DensePositions(s.clients) && caller.position == 2
    requires forall i :: 0 <= i < 3 ==> s.clients[i].player.currentBet == 0 && s.clients[i].player.chips == 500
    ensures var e := Server.EndTurn(s, sh, caller, p);
      e.trigger.Some? && |e.trigger.value.results| == 4 && e.keepPlaying
  {
    LastPositionHasNoSuccessor(s.clients, caller.position);
    Registry.SafeStakesPayable(s.clients, TakeDealersTurn(s, sh).dealer.handValue);
    EndTurnSettlesRound(s, sh, caller, p);
    var e := Server.EndTurn(s, sh, caller, p);
    assert e.state.clients[0].player.chips == 500;
  }

  // ---- A departure leaves a gap ----

  /** When the middle of three seated players leaves, seats 0 and 2 remain: positions are not renumbered. */
  lemma MiddleLeaves(a: string, b: string, c: string, na: string, nb: string, nc: string)
    requires a != b && c != b
    ensures Unregister(ThreeJoin(a, b, c, na, nb, nc).0, b).clients ==
            [Registry.NewClient(a, na, 0), Registry.NewClient(c, nc, 2)]
  {
    var ab := [Registry.NewClient(a, na, 0), Registry.NewClient(b, nb, 1)];
    Registry.RetainSnoc([Registry.NewClient(a, na, 0)], Registry.NewClient(b, nb, 1), b);
    Registry.RetainSnoc(ab, Registry.NewClient(c, nc, 2), b);
    assert [Registry.NewClient(a, na, 0)] == [] + [Registry.NewClient(a, na, 0)];
    Registry.RetainSnoc([], Registry.NewClient(a, na, 0), b);
    assert ab == [Registry.NewClient(a, na, 0)] + [Registry.NewClient(b, nb, 1)];
  }

  /**
   * On seats 0 and 2, the player at seat 0 ending a turn finds nobody at
   * seat 1, so the dealer plays and the round is settled at once: three
   * results, and the player at seat 2 never gets a turn.
   */
  lemma GapEndsRound(s: ServerState, sh: Shuffler, a: string, c: string, na: string, nc: string, p: Player)
    requires FullDecks(sh)
    requires s.clients == [Registry.NewClient(a, na, 0), Registry.NewClient(c, nc, 2)]
    ensures var e := Server.EndTurn(s, sh, s.clients[0], p);
      && e.trigger.Some? && e.trigger.value.RoundFinished?
      && |e.trigger.value.results| == 3
      && e.keepPlaying
  {
    Registry.FindByPositionSpec(s.clients, 1);
    Registry.SafeStakesPayable(s.clients, TakeDealersTurn(s, sh).dealer.handValue);
    EndTurnSettlesRound(s, sh, s.clients[0], p);
    var e := Server.EndTurn(s, sh, s.clients[0], p);
    assert e.state.clients[0].player.chips == 500;
  }
}
