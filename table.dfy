/**
 * The server's shared state, `Arc<Mutex<Vec<Client>>>` and
 * `Arc<Mutex<Player>>`, as the fields of one object. Every handler runs as
 * one atomic method, and each method is proved to perform the transition of
 * the same name in module `Server`.
 */
module Tables {
  import opened Wrappers
  import opened Cards
  import opened Deck
  import opened Hand
  import opened Rules
  import opened Protocol
  import ServerCard
  import Registry
  import Server

  class Table {
    var clients: seq<Client>
    var dealer: Player
    /** Every message handed to a client channel, in order. */
    var outbox: seq<Envelope>
    /** How many decks `create_playing_deck(1)` has shuffled: the next index into `shuffler`. */
    var decksUsed: nat
    /** The shuffle: the i-th deck created is `shuffler(i)`. */
    const shuffler: Shuffler

    function State(): Server.ServerState
      reads this
    {
      Server.ServerState(clients, dealer, outbox, decksUsed)
    }

    ghost predicate Valid()
      reads this
    {
      FullDecks(shuffler) && Server.FreshValues(State())
    }

    /** The state `main` sets up: no clients and the initial dealer. */
    constructor (sh: Shuffler)
      requires FullDecks(sh)
      ensures Valid()
      ensures State() == Server.Initial() && shuffler == sh
    {
      clients := [];
      dealer := Player("Dealer", Dealer, [], 0, 0, 0);
      outbox := [];
      decksUsed := 0;
      shuffler := sh;
    }

    /** `register_handler` with `register_client`. */
    method Register(id: string, userName: string) returns (isHost: bool)
      requires Valid()
      modifies this
      ensures Valid()
      ensures (State(), isHost) == Server.Register(old(State()), id, userName)
    {
      isHost := |clients| == 0;
      var position := |clients|;
      clients := clients + [Client(id, None, position, Player(userName, Human, [], 0, 500, 0))];
      Server.RegisterKeepsFresh(old(State()), id, userName);
    }

    /** `unregister_handler`, and the cleanup after a connection's message loop ends. */
    method Unregister(id: string)
      requires Valid()
      modifies this
      ensures Valid()
      ensures State() == Server.Unregister(old(State()), id)
    {
      clients := Registry.Retain(clients, id);
      Server.UnregisterKeepsFresh(old(State()), id);
    }

    /** `client_connection` up to its message loop: attach the channel, then snapshot the client. */
    method Connect(id: string, sender: Sender) returns (snapshot: Option<Client>)
      requires Valid()
      modifies this
      ensures Valid()
      ensures snapshot.None? ==> State() == old(State()) && Server.Connect(old(State()), id, sender).None?
      ensures snapshot.Some? ==> Server.Connect(old(State()), id, sender) == Some((State(), snapshot.value))
    {
      var found := Registry.FindById(clients, id);
      if found.Some? {
        var i := found.value;
        clients := clients[i := clients[i].(sender := Some(sender))];
      }
      Server.ConnectKeepsFresh(old(State()), id, sender);
      var again := Registry.FindById(clients, id);
      if again.None? {
        snapshot := None;
      } else {
        snapshot := Some(clients[again.value]);
      }
    }

    /** `publish`: one message to each client with a channel, skipping the filtered id. */
    method Publish(t: Trigger, filter: Option<string>)
      requires Valid()
      modifies this
      ensures Valid()
      ensures State() == Server.Publish(old(State()), t, filter)
    {
      var out := outbox;
      var i := 0;
      while i < |clients|
        invariant 0 <= i <= |clients|
        invariant State() == old(State())
        invariant out == old(outbox) + Registry.Fanout(clients[..i], t, filter)
      {
        var c := clients[i];
        assert Registry.Fanout(clients[..i + 1], t, filter)
            == Registry.Fanout(clients[..i], t, filter) + (if Registry.Admits(c, filter) then [Envelope(c.sender.value, t)] else []) by {
          assert clients[..i + 1][..i] == clients[..i];
        }
        if filter.Some? && c.id == filter.value {
          // the filtered client is skipped
        } else if c.sender.Some? {
          out := out + [Envelope(c.sender.value, t)];
        }
        i := i + 1;
      }
      assert clients[..i] == clients;
      outbox := out;
    }

    /** `start_turn`: two fresh cards for the dealer, and the caller named as the active client. */
    method StartTurn(caller: Client) returns (t: Trigger)
      requires Valid()
      modifies this
      ensures Valid()
      ensures (State(), t) == Server.StartRound(old(State()), shuffler, caller)
    {
      var cards, next := ServerCard.DrawCards(2, shuffler, decksUsed);
      var value := GetHandValue(cards);
      dealer := dealer.(hand := cards, handValue := value);
      decksUsed := next;
      t := Trigger.StartTurn(caller.id, caller.player.userName, Some(dealer.hand[0]));
      Server.StartRoundKeepsFresh(old(State()), shuffler, caller);
    }

    /** `bet`: `panicked` is the `unwrap` on an unknown id. */
    method Bet(id: string, amount: U32) returns (panicked: bool)
      requires Valid()
      modifies this
      ensures Valid()
      ensures panicked <==> Server.PlaceBet(old(State()), id, amount).None?
      ensures !panicked ==> Some(State()) == Server.PlaceBet(old(State()), id, amount)
      ensures panicked ==> State() == old(State())
    {
      var found := Registry.FindById(clients, id);
      if found.None? {
        return true;
      }
      var i := found.value;
      clients := clients[i := clients[i].(player := clients[i].player.(currentBet := amount))];
      Server.PlaceBetKeepsFresh(old(State()), id, amount);
      panicked := false;
    }

    /** `draw_cards_for_publish`: `None` is the `unwrap` on an unknown id. */
    method DrawCardsFor(caller: Client, n: U16) returns (t: Option<Trigger>)
      requires Valid()
      modifies this
      ensures Valid()
      ensures t.None? ==> State() == old(State()) && Server.DrawFor(old(State()), shuffler, caller.id, n).None?
      ensures t.Some? ==> Server.DrawFor(old(State()), shuffler, caller.id, n) == Some((State(), t.value))
    {
      var found := Registry.FindById(clients, caller.id);
      if found.None? {
        return None;
      }
      var i := found.value;
      var drawn, next := ServerCard.DrawCards(n, shuffler, decksUsed);
      var p := clients[i].player;
      var hand := p.hand + drawn;
      var value := GetHandValue(hand);
      clients := clients[i := clients[i].(player := p.(hand := hand, handValue := value))];
      decksUsed := next;
      Server.DrawForKeepsFresh(old(State()), shuffler, caller.id, n);
      t := Some(CardsDrawn(drawn));
    }

    /** `take_dealers_turn`: refresh the dealer's value, then draw from fresh decks while it is below 17. */
    method TakeDealersTurn()
      requires Valid()
      modifies this
      ensures Valid()
      ensures State() == Server.TakeDealersTurn(old(State()), shuffler)
    {
      var hand, next := dealer.hand, decksUsed;
      var value := GetHandValue(hand);
      while value < 17
        invariant value == Score(hand)
        invariant State() == old(State())
        invariant Server.DealerDraws(hand, shuffler, next) == Server.DealerDraws(old(dealer.hand), shuffler, old(decksUsed))
        decreases 27 - FaceSum(hand)
      {
        var cards, after := ServerCard.DrawCards(1, shuffler, next);
        Server.FreshDrawOne(shuffler, next);
        Server.DealerDrawsStep(hand, shuffler, next);
        BelowSeventeenBound(hand);
        FaceSumGrows(hand, cards[0]);
        hand, next := hand + [cards[0]], after;
        value := GetHandValue(hand);
      }
      assert Server.DealerDraws(hand, shuffler, next) == (hand, next);
      dealer := dealer.(hand := hand, handValue := value);
      decksUsed := next;
      assert State() == Server.TakeDealersTurn(old(State()), shuffler);
      Server.TakeDealersTurnKeepsFresh(old(State()), shuffler);
    }

    /**
     * `end_turn`: `local` is the caller's own `Client` value with the
     * submitted player written into it; `t` is `None` when the task panicked.
     */
    method EndTurn(caller: Client, player: Player) returns (local: Client, t: Option<Trigger>, keepPlaying: bool)
      requires Valid()
      modifies this
      ensures Valid()
      ensures Server.TurnEnd(State(), local, t, keepPlaying) == Server.EndTurn(old(State()), shuffler, caller, player)
    {
      local := caller.(player := player);
      var next := Registry.FindByPosition(clients, local.position + 1);
      if next.Some? {
        if dealer.hand == [] {
          return local, None, false;
        }
        var c := clients[next.value];
        return local, Some(Trigger.StartTurn(c.id, c.player.userName, Some(dealer.hand[0]))), true;
      }
      TakeDealersTurn();
      var dealerResult := TurnResult(dealer, Push);
      var results, panicked;
      results, keepPlaying, panicked := SettleClients(dealer.handValue);
      if panicked {
        return local, None, false;
      }
      t := Some(RoundFinished([dealerResult] + results));
    }

    /**
     * The settlement loop of `end_turn`: resolve, pay out and reset each
     * client in registry order, stopping at the first payout that panics.
     */
    method SettleClients(dealerValue: nat) returns (results: seq<TurnResult>, keepPlaying: bool, panicked: bool)
      requires Valid()
      modifies this
      ensures Valid()
      ensures Registry.SettleAll(old(clients), dealerValue) == Registry.Settlement(clients, results, keepPlaying, panicked)
      ensures dealer == old(dealer) && outbox == old(outbox) && decksUsed == old(decksUsed)
    {
      results, keepPlaying, panicked := [], false, false;
      var cs := clients;
      var i := 0;
      while i < |cs|
        invariant 0 <= i <= |cs| == |clients|
        invariant State() == old(State())
        invariant cs[i..] == clients[i..]
        invariant Registry.SettleAll(clients[..i], dealerValue) == Registry.Settlement(cs[..i], results, keepPlaying, false)
      {
        var c := cs[i];
        assert c == clients[i] by { assert cs[i..][0] == clients[i..][0]; }
        var endState := CalculateEndState(c.player, dealerValue);
        var paid := HandleEndState(c.player, endState);
        if paid.None? {
          Registry.SettleAllStop(clients, i, dealerValue, cs[..i], results, keepPlaying);
          assert cs[..i] + clients[i..] == cs by {
            assert cs == cs[..i] + cs[i..];
          }
          Registry.SettleAllKeepsFresh(clients, dealerValue);
          clients := cs;
          panicked := true;
          return;
        }
        var settled := c.(player := paid.value.(hand := [], handValue := 0));
        Registry.SettleAllExtend(clients, i, dealerValue, cs[..i], results, keepPlaying, settled);
        ghost var prev := cs;
        cs := cs[i := settled];
        results := results + [TurnResult(settled.player, endState)];
        if settled.player.chips > 0 {
          keepPlaying := true;
        }
        assert cs[..i + 1] == prev[..i] + [settled];
        i := i + 1;
      }
      assert cs[..i] == cs && clients[..i] == clients;
      Registry.SettleAllKeepsFresh(clients, dealerValue);
      clients := cs;
    }

    /** `draw_cards_and_publish`: draw for the caller, then publish the CardsDrawn trigger to everyone. */
    method DrawCardsAndPublish(client: Client, n: U16) returns (panicked: bool)
      requires Valid()
      modifies this
      ensures Valid()
      ensures Server.Step(State(), panicked) == Server.DrawAndPublish(old(State()), shuffler, client, n)
    {
      var t := DrawCardsFor(client, n);
      if t.None? {
        return true;
      }
      Publish(t.value, None);
      panicked := false;
    }

    /**
     * `handle_client_msg` for the connection whose snapshot is `client`:
     * `panicked` says the connection's task died part way. `client` must be
     * the snapshot `Connect` returned for the connection's id, so `client.id`
     * is that id; this is why the Bet arm looks the client up by `client.id`.
     */
    method HandleClientMsg(client: Client, frame: Frame, decode: Decoder) returns (panicked: bool)
      requires Valid()
      modifies this
      ensures Valid()
      ensures Server.Step(State(), panicked) == Server.HandleClientMsg(old(State()), shuffler, client, frame, decode)
    {
      if frame.NonText? {
        return false;
      }
      var text := frame.text;
      if text == "ping" || text == "ping\n" {
        return false;
      }
      var request := decode(text);
      if request.None? {
        return false;
      }
      if client.sender.None? {
        return false;
      }
      match request.value
      case Start =>
        var t := StartTurn(client);
        Publish(t, None);
        panicked := false;
      case Bet(amount) =>
        panicked := Bet(client.id, amount);
      case EndTurn(player) =>
        var local, t, keepPlaying := EndTurn(client, player);
        if t.None? {
          return true;
        }
        Publish(t.value, None);
        if !keepPlaying {
          Publish(GameFinished, None);
        }
        panicked := false;
      case DrawCards(n) =>
        panicked := DrawCardsAndPublish(client, n);
      case Hit =>
        panicked := DrawCardsAndPublish(client, 1);
    }
  }
}
