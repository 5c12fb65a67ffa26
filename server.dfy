/**
 * The server's table as a value: the registry, the dealer, the messages
 * handed to client channels, and the handlers of server/src/handlers.rs and
 * server/src/game.rs as transitions of that value. The class `Tables.Table`
 * implements each transition in place.
 */
module Server {
  import opened Wrappers
  import opened Cards
  import opened Deck
  import opened ServerCard
  import opened Hand
  import opened Rules
  import opened Protocol
  import Registry

  /**
   * The registry `Clients`, the `Dealer` player, every message handed to a
   * channel so far, and how many decks `create_playing_deck` has shuffled.
   */
  datatype ServerState = ServerState(clients: seq<Client>, dealer: Player, outbox: seq<Envelope>, decksUsed: nat)

  /** The dealer the server starts with. */
  function InitialDealer(): Player
  {
    Player("Dealer", Dealer, [], 0, 0, 0)
  }

  function Initial(): ServerState
  {
    ServerState([], InitialDealer(), [], 0)
  }

  /** A handler's final state, and whether its task panicked before finishing. */
  datatype Step = Step(state: ServerState, panicked: bool)

  /** `register_handler`: the new state and `is_host`. */
  function Register(s: ServerState, id: string, userName: string): (ServerState, bool)
  {
    (s.(clients := Registry.Register(s.clients, id, userName)), |s.clients| == 0)
  }

  /** `unregister_handler`, and the removal when a connection closes. */
  function Unregister(s: ServerState, id: string): ServerState
  {
    s.(clients := Registry.Retain(s.clients, id))
  }

  /** `ws_handler` upgrades only a registered id. */
  predicate Accepts(s: ServerState, id: string)
  {
    Registry.IsRegistered(s.clients, id)
  }

  /**
   * `client_connection` up to its message loop: attach the channel, then take
   * the snapshot of the client that every later message is handled with.
   * `None` is the panic of `unwrap` when the id has gone.
   */
  function Connect(s: ServerState, id: string, sender: Sender): Option<(ServerState, Client)>
  {
    var cs := Registry.Attach(s.clients, id, sender);
    match Registry.FindById(cs, id)
    case None => None
    case Some(i) => Some((s.(clients := cs), cs[i]))
  }

  /** `publish`: hand the trigger to every admitted client. */
  function Publish(s: ServerState, t: Trigger, filter: Option<string>): ServerState
  {
    s.(outbox := s.outbox + Registry.Fanout(s.clients, t, filter))
  }

  /** `start_turn`: deal the dealer two fresh cards and name the caller as the active client. */
  function StartRound(s: ServerState, sh: Shuffler, caller: Client): (ServerState, Trigger)
    requires FullDecks(sh)
  {
    var d := FreshDeal(2, sh, s.decksUsed);
    var dealer := s.dealer.(hand := d.cards, handValue := Score(d.cards));
    (s.(dealer := dealer, decksUsed := d.next),
     StartTurn(caller.id, caller.player.userName, Some(d.cards[0])))
  }

  /** `bet`; `None` is the panic on an unknown id, which leaves the state as it was. */
  function PlaceBet(s: ServerState, id: string, amount: U32): Option<ServerState>
  {
    match Registry.SetBet(s.clients, id, amount)
    case None => None
    case Some(cs) => Some(s.(clients := cs))
  }

  /**
   * `draw_cards_for_publish`: draw `n` cards into the caller's hand and
   * return the CardsDrawn trigger; `None` is the panic on an unknown id,
   * raised before anything is drawn.
   */
  function DrawFor(s: ServerState, sh: Shuffler, id: string, n: nat): Option<(ServerState, Trigger)>
    requires FullDecks(sh)
  {
    var d := FreshDeal(n, sh, s.decksUsed);
    match Registry.DrawInto(s.clients, id, d.cards)
    case None => None
    case Some(cs) => Some((s.(clients := cs, decksUsed := d.next), CardsDrawn(d.cards)))
  }

  lemma FreshDrawOne(sh: Shuffler, next: nat)
    requires FullDecks(sh)
    ensures FreshDeal(1, sh, next).cards == [sh(next)[51]]
    ensures FreshDeal(1, sh, next).next == next + 1
  {
    DealFromStock(sh(next), 1, sh, next + 1);
  }

  /** The top cards of `m` fresh decks in a row, starting at oracle index `next`. */
  function TopCards(sh: Shuffler, next: nat, m: nat): seq<Card>
    requires FullDecks(sh)
    decreases m
  {
    if m == 0 then [] else [sh(next)[51]] + TopCards(sh, next + 1, m - 1)
  }

  /**
   * The dealer's hand after `take_dealers_turn`, which draws each card from a
   * fresh deck (`draw_cards(1)`), and the oracle index after it.
   */
  function DealerDraws(hand: seq<Card>, sh: Shuffler, next: nat): (seq<Card>, nat)
    requires FullDecks(sh)
    decreases 27 - FaceSum(hand)
  {
    if Score(hand) >= 17 then (hand, next)
    else
      var card := sh(next)[51];
      BelowSeventeenBound(hand);
      FaceSumGrows(hand, card);
      DealerDraws(hand + [card], sh, next + 1)
  }

  /** The turn stops at the first hand worth 17 or more. */
  lemma {:induction false} DealerDrawsStood(hand: seq<Card>, sh: Shuffler, next: nat)
    requires FullDecks(sh)
    ensures DealerStood(hand, DealerDraws(hand, sh, next).0)
    decreases 27 - FaceSum(hand)
  {
    if Score(hand) >= 17 {
      assert hand + [] == hand;
    } else {
      var card := sh(next)[51];
      BelowSeventeenBound(hand);
      FaceSumGrows(hand, card);
      DealerDrawsStood(hand + [card], sh, next + 1);
      DealerStoodStep(hand, card, DealerDraws(hand + [card], sh, next + 1).0);
    }
  }

  /** The cards drawn are the top cards of the decks shuffled meanwhile. */
  lemma {:induction false} DealerDrawsTop(hand: seq<Card>, sh: Shuffler, next: nat)
    requires FullDecks(sh)
    ensures var r := DealerDraws(hand, sh, next);
      r.1 >= next && r.0 == hand + TopCards(sh, next, r.1 - next)
    decreases 27 - FaceSum(hand)
  {
    if Score(hand) < 17 {
      var card := sh(next)[51];
      BelowSeventeenBound(hand);
      FaceSumGrows(hand, card);
      DealerDrawsTop(hand + [card], sh, next + 1);
      var r := DealerDraws(hand + [card], sh, next + 1);
      assert TopCards(sh, next, r.1 - next) == [card] + TopCards(sh, next + 1, r.1 - (next + 1));
      assert hand + [card] + TopCards(sh, next + 1, r.1 - (next + 1)) == hand + TopCards(sh, next, r.1 - next);
    }
  }

  /** While the hand is below 17 the dealer draws the top card of the next fresh deck. */
  lemma DealerDrawsStep(hand: seq<Card>, sh: Shuffler, next: nat)
    requires FullDecks(sh) && Score(hand) < 17
    ensures DealerDraws(hand, sh, next) == DealerDraws(hand + [sh(next)[51]], sh, next + 1)
  {
  }

  /** `take_dealers_turn` on the state: the dealer's hand grows by its draws and its value is refreshed. */
  function TakeDealersTurn(s: ServerState, sh: Shuffler): ServerState
    requires FullDecks(sh)
  {
    var r := DealerDraws(s.dealer.hand, sh, s.decksUsed);
    s.(dealer := s.dealer.(hand := r.0, handValue := Score(r.0)), decksUsed := r.1)
  }

  /**
   * What `end_turn` leaves: the state, the caller's own `Client` value with the
   * submitted player written into it, the trigger to publish (`None` when the
   * task panicked), and whether the game goes on.
   */
  datatype TurnEnd = TurnEnd(state: ServerState, caller: Client, trigger: Option<Trigger>, keepPlaying: bool)

  /**
   * `end_turn`: hand the turn to the client at the next position, or, when
   * there is none, play the dealer and settle every client in registry order.
   * Naming the next player panics on an empty dealer hand; settling panics on
   * a chip overflow or underflow.
   */
  function EndTurn(s: ServerState, sh: Shuffler, caller: Client, player: Player): TurnEnd
    requires FullDecks(sh)
  {
    var local := caller.(player := player);
    match Registry.FindByPosition(s.clients, local.position + 1)
    case Some(i) =>
      if s.dealer.hand == [] then TurnEnd(s, local, None, false)
      else
        var c := s.clients[i];
        TurnEnd(s, local, Some(StartTurn(c.id, c.player.userName, Some(s.dealer.hand[0]))), true)
    case None =>
      var played := TakeDealersTurn(s, sh);
      var settled := Registry.SettleAll(played.clients, played.dealer.handValue);
      var after := played.(clients := settled.clients);
      if settled.panicked then TurnEnd(after, local, None, false)
      else
        TurnEnd(after, local,
                Some(RoundFinished([TurnResult(played.dealer, Push)] + settled.results)),
                settled.keepPlaying)
  }

  /** The command arms of `handle_client_msg`, for a caller whose snapshot holds a channel. */
  function Dispatch(s: ServerState, sh: Shuffler, client: Client, cmd: Command): Step
    requires FullDecks(sh)
  {
    match cmd
    case Start =>
      var (s1, t) := StartRound(s, sh, client);
      Step(Publish(s1, t, None), false)
    case Bet(amount) =>
      (match PlaceBet(s, client.id, amount)
       case None => Step(s, true)
       case Some(s1) => Step(s1, false))
    case EndTurn(player) =>
      var e := EndTurn(s, sh, client, player);
      if e.trigger.None? then Step(e.state, true)
      else
        var s1 := Publish(e.state, e.trigger.value, None);
        if e.keepPlaying then Step(s1, false) else Step(Publish(s1, GameFinished, None), false)
    case DrawCards(n) => DrawAndPublish(s, sh, client, n)
    case Hit => DrawAndPublish(s, sh, client, 1)
  }

  /** `draw_cards_and_publish`. */
  function DrawAndPublish(s: ServerState, sh: Shuffler, client: Client, n: nat): Step
    requires FullDecks(sh)
  {
    match DrawFor(s, sh, client.id, n)
    case None => Step(s, true)
    case Some((s1, t)) => Step(Publish(s1, t, None), false)
  }

  /**
   * `handle_client_msg`: drop non-text frames, pings and undecodable text,
   * ignore a caller whose snapshot has no channel, and dispatch the rest.
   * `client` is the snapshot `Connect` returned for the connection's id, so
   * `client.id` stands for the `id` argument (which the Bet arm looks up).
   */
  function HandleClientMsg(s: ServerState, sh: Shuffler, client: Client, frame: Frame, decode: Decoder): Step
    requires FullDecks(sh)
  {
    match frame
    case NonText => Step(s, false)
    case Text(text) =>
      if text == "ping" || text == "ping\n" then Step(s, false)
      else
        match decode(text)
        case None => Step(s, false)
        case Some(cmd) => if client.sender.None? then Step(s, false) else Dispatch(s, sh, client, cmd)
  }

  // ---- The cached hand values stay fresh ----

  /** Every cached `hand_value`, the dealer's included, is the score of its hand. */
  predicate FreshValues(s: ServerState)
  {
    && s.dealer.handValue == Score(s.dealer.hand)
    && Registry.FreshClients(s.clients)
  }

  lemma InitialFresh()
    ensures FreshValues(Initial())
  {
  }

  lemma RegisterKeepsFresh(s: ServerState, id: string, userName: string)
    requires FreshValues(s)
    ensures FreshValues(Register(s, id, userName).0)
  {
  }

  lemma UnregisterKeepsFresh(s: ServerState, id: string)
    requires FreshValues(s)
    ensures FreshValues(Unregister(s, id))
  {
    Registry.RetainMembers(s.clients, id);
    var r := Registry.Retain(s.clients, id);
    forall i | 0 <= i < |r| ensures r[i].player.handValue == Score(r[i].player.hand) {
      assert r[i] in s.clients;
    }
  }

  lemma ConnectKeepsFresh(s: ServerState, id: string, sender: Sender)
    requires FreshValues(s)
    ensures FreshValues(s.(clients := Registry.Attach(s.clients, id, sender)))
  {
    Registry.AttachSpec(s.clients, id, sender);
  }

  lemma StartRoundKeepsFresh(s: ServerState, sh: Shuffler, caller: Client)
    requires FullDecks(sh) && FreshValues(s)
    ensures FreshValues(StartRound(s, sh, caller).0)
  {
  }

  lemma PlaceBetKeepsFresh(s: ServerState, id: string, amount: U32)
    requires FreshValues(s)
    ensures PlaceBet(s, id, amount).Some? ==> FreshValues(PlaceBet(s, id, amount).value)
  {
    Registry.SetBetSpec(s.clients, id, amount);
  }

  lemma DrawForKeepsFresh(s: ServerState, sh: Shuffler, id: string, n: nat)
    requires FullDecks(sh) && FreshValues(s)
    ensures DrawFor(s, sh, id, n).Some? ==> FreshValues(DrawFor(s, sh, id, n).value.0)
  {
    Registry.DrawIntoSpec(s.clients, id, FreshDeal(n, sh, s.decksUsed).cards);
  }

  lemma TakeDealersTurnKeepsFresh(s: ServerState, sh: Shuffler)
    requires FullDecks(sh) && FreshValues(s)
    ensures FreshValues(TakeDealersTurn(s, sh))
  {
  }
}
