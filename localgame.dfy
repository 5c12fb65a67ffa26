/**
 * The client's stand-alone game, client/src/game.rs: a four-deck shoe, the
 * local players and the dealer, dealt, played and settled in place. The
 * functions state each step on a `LocalState` value; the class `Game`
 * performs the steps on its fields.
 */
module LocalGame {
  import opened Wrappers
  import opened Cards
  import opened Deck
  import opened Hand
  import opened Rules

  /** What `get_player_action` returns. */
  datatype Action = Hit | Stand | Double

  /** The shoe, the players, the dealer, and how many single decks refills have shuffled. */
  datatype LocalState = LocalState(deck: seq<Card>, players: seq<Player>, dealer: Player, decksUsed: nat)

  /**
   * `start_game` before its loop: the dealer's two cards, then the one
   * player's two, popped off the shuffled shoe. The client's player record
   * has no user name; it is left empty.
   */
  function NewGame(shoe: seq<Card>, sh: Shuffler): LocalState
    requires FullDecks(sh)
  {
    var d := Deal(shoe, 2, sh, 0);
    var m := Deal(d.deck, 2, sh, d.next);
    LocalState(m.deck, [Player("", Human, m.cards, 0, 500, 0)], Player("", Dealer, d.cards, 0, 0, 0), m.next)
  }

  /** From a shuffled four-deck shoe: the dealer gets the last two cards, the player the two before. */
  lemma NewGameSpec(shoe: seq<Card>, sh: Shuffler)
    requires FullDecks(sh) && IsShuffleOf(shoe, 4)
    ensures |shoe| == 208
    ensures var g := NewGame(shoe, sh);
      && g.dealer.hand == [shoe[207], shoe[206]]
      && g.players == [Player("", Human, [shoe[205], shoe[204]], 0, 500, 0)]
      && g.deck == shoe[..204] && g.decksUsed == 0
      && SomeoneHasChips(g.players)
  {
    ShuffleContents(shoe, 4, Card(Spades, Ace));
    NewGameFromStock(shoe, sh);
  }

  /** The opening deals of `start_game` from a shoe of at least four cards. */
  lemma NewGameFromStock(shoe: seq<Card>, sh: Shuffler)
    requires FullDecks(sh) && |shoe| >= 4
    ensures var g, L := NewGame(shoe, sh), |shoe|;
      && g.dealer.hand == [shoe[L - 1], shoe[L - 2]]
      && g.players == [Player("", Human, [shoe[L - 3], shoe[L - 4]], 0, 500, 0)]
      && g.deck == shoe[..L - 4] && g.decksUsed == 0
      && SomeoneHasChips(g.players)
  {
    var L := |shoe|;
    DealFromStock(shoe, 2, sh, 0);
    DealFromStock(shoe[..L - 2], 2, sh, 0);
    var d := Deal(shoe, 2, sh, 0);
    var m := Deal(d.deck, 2, sh, d.next);
    assert d.cards == [shoe[L - 1], shoe[L - 2]];
    assert m.cards == [shoe[..L - 2][L - 3], shoe[..L - 2][L - 4]];
    assert shoe[..L - 2][..L - 4] == shoe[..L - 4];
    assert shoe[..L - 2][L - 3] == shoe[L - 3] && shoe[..L - 2][L - 4] == shoe[L - 4];
    assert NewGame(shoe, sh).players[0].chips > 0;
  }

  // ---- start_round ----

  /** The players, the deck and the oracle index after a dealing loop. */
  datatype Seated = Seated(players: seq<Player>, deck: seq<Card>, next: nat)

  /**
   * The first loop of `start_round` from seat `n` on: each player in order
   * takes its bet and a new two-card hand.
   */
  function DealHands(ps: seq<Player>, bets: seq<U32>, n: nat, deck: seq<Card>, sh: Shuffler, next: nat): (r: Seated)
    requires FullDecks(sh) && |bets| == |ps| && n <= |ps|
    ensures |r.players| == |ps|
    decreases |ps| - n
  {
    if n == |ps| then Seated(ps, deck, next)
    else
      var d := Deal(deck, 2, sh, next);
      DealHands(ps[n := ps[n].(currentBet := bets[n], hand := d.cards)], bets, n + 1, d.deck, sh, d.next)
  }

  /** Seats before `n` are left alone; each later seat keeps its chips, takes its bet and exactly two cards. */
  lemma {:induction false} DealHandsSeats(ps: seq<Player>, bets: seq<U32>, n: nat, deck: seq<Card>, sh: Shuffler, next: nat)
    requires FullDecks(sh) && |bets| == |ps| && n <= |ps|
    ensures var r := DealHands(ps, bets, n, deck, sh, next);
      && (forall i :: 0 <= i < n ==> r.players[i] == ps[i])
      && (forall i :: n <= i < |ps| ==>
            && r.players[i] == ps[i].(currentBet := bets[i], hand := r.players[i].hand)
            && |r.players[i].hand| == 2)
    decreases |ps| - n
  {
    if n < |ps| {
      var d := Deal(deck, 2, sh, next);
      var ps1 := ps[n := ps[n].(currentBet := bets[n], hand := d.cards)];
      DealHandsSeats(ps1, bets, n + 1, d.deck, sh, d.next);
    }
  }

  /** With enough cards in the shoe, dealing seats `n` on takes two cards each from the end and no refill. */
  lemma {:induction false} DealHandsStockLeft(ps: seq<Player>, bets: seq<U32>, n: nat, deck: seq<Card>, sh: Shuffler, next: nat)
    requires FullDecks(sh) && |bets| == |ps| && n <= |ps|
    requires 2 * (|ps| - n) <= |deck|
    ensures var r := DealHands(ps, bets, n, deck, sh, next);
      r.deck == deck[..|deck| - 2 * (|ps| - n)] && r.next == next
    decreases |ps| - n
  {
    if n < |ps| {
      DealFromStock(deck, 2, sh, next);
      var d := Deal(deck, 2, sh, next);
      var ps1 := ps[n := ps[n].(currentBet := bets[n], hand := d.cards)];
      DealHandsStockLeft(ps1, bets, n + 1, d.deck, sh, d.next);
      assert d.deck[..|deck| - 2 - 2 * (|ps| - (n + 1))] == deck[..|deck| - 2 * (|ps| - n)];
    }
  }

  /**
   * With enough cards in the shoe, seat `i` from `n` on takes the cards at
   * `2(i - n)` and `2(i - n) + 1` counted from the end.
   */
  lemma {:induction false} DealHandsSeat(ps: seq<Player>, bets: seq<U32>, n: nat, deck: seq<Card>, sh: Shuffler, next: nat, i: nat)
    requires FullDecks(sh) && |bets| == |ps|
    requires n <= i < |ps| && 2 * (|ps| - n) <= |deck|
    ensures var L, k := |deck|, i - n;
      DealHands(ps, bets, n, deck, sh, next).players[i]
        == ps[i].(currentBet := bets[i], hand := [deck[L - 1 - 2 * k], deck[L - 2 - 2 * k]])
    decreases |ps| - n
  {
    var L := |deck|;
    DealFromStock(deck, 2, sh, next);
    var d := Deal(deck, 2, sh, next);
    var ps1 := ps[n := ps[n].(currentBet := bets[n], hand := d.cards)];
    if i == n {
      assert d.cards == [deck[L - 1], deck[L - 2]];
      DealHandsSeats(ps1, bets, n + 1, d.deck, sh, d.next);
    } else {
      DealHandsSeat(ps1, bets, n + 1, d.deck, sh, d.next, i);
      var k := i - n;
      assert d.deck[L - 2 - 1 - 2 * (k - 1)] == deck[L - 1 - 2 * k];
      assert d.deck[L - 2 - 2 - 2 * (k - 1)] == deck[L - 2 - 2 * k];
    }
  }

  /**
   * With enough cards in the shoe, player `i` gets the cards at positions
   * `2i` and `2i + 1` counted from the end, and keeps everything but its bet
   * and hand.
   */
  lemma DealHandsFromStock(ps: seq<Player>, bets: seq<U32>, deck: seq<Card>, sh: Shuffler, next: nat)
    requires FullDecks(sh) && |bets| == |ps|
    requires 2 * |ps| <= |deck|
    ensures var r, L := DealHands(ps, bets, 0, deck, sh, next), |deck|;
      && r.deck == deck[..L - 2 * |ps|]
      && r.next == next
      && forall i :: 0 <= i < |ps| ==>
           r.players[i] == ps[i].(currentBet := bets[i], hand := [deck[L - 1 - 2 * i], deck[L - 2 - 2 * i]])
  {
    DealHandsStockLeft(ps, bets, 0, deck, sh, next);
    forall i | 0 <= i < |ps|
      ensures DealHands(ps, bets, 0, deck, sh, next).players[i]
        == ps[i].(currentBet := bets[i], hand := [deck[|deck| - 1 - 2 * i], deck[|deck| - 2 - 2 * i]])
    {
      DealHandsSeat(ps, bets, 0, deck, sh, next, i);
    }
  }

  /** The second loop of `start_round`: every player's value is recomputed. */
  function Refresh(ps: seq<Player>): (r: seq<Player>)
    ensures |r| == |ps|
    ensures forall i :: 0 <= i < |ps| ==> r[i] == ps[i].(handValue := Score(ps[i].hand))
  {
    seq(|ps|, i requires 0 <= i < |ps| => ps[i].(handValue := Score(ps[i].hand)))
  }

  /**
   * The dealing of `start_round`: bets and two cards per player, then two
   * cards for the dealer, then every player's value. The dealer's cached
   * value is left as it was.
   */
  function Opening(s: LocalState, sh: Shuffler, bets: seq<U32>): LocalState
    requires FullDecks(sh) && |bets| == |s.players|
  {
    var h := DealHands(s.players, bets, 0, s.deck, sh, s.decksUsed);
    var d := Deal(h.deck, 2, sh, h.next);
    LocalState(d.deck, Refresh(h.players), s.dealer.(hand := d.cards), d.next)
  }

  /**
   * With enough cards in the shoe: players take two cards each from the end
   * of the shoe in seat order, the dealer the two after them; each player
   * keeps its chips, holds its new bet and a fresh value.
   */
  lemma OpeningFromStock(s: LocalState, sh: Shuffler, bets: seq<U32>)
    requires FullDecks(sh) && |bets| == |s.players|
    requires 2 * |s.players| + 2 <= |s.deck|
    ensures var o, L, n := Opening(s, sh, bets), |s.deck|, |s.players|;
      && o.deck == s.deck[..L - 2 * n - 2]
      && o.decksUsed == s.decksUsed
      && o.dealer == s.dealer.(hand := [s.deck[L - 1 - 2 * n], s.deck[L - 2 - 2 * n]])
      && |o.players| == n
      && forall i :: 0 <= i < n ==>
           var hand := [s.deck[L - 1 - 2 * i], s.deck[L - 2 - 2 * i]];
           o.players[i] == s.players[i].(currentBet := bets[i], hand := hand, handValue := Score(hand))
  {
    var L, n := |s.deck|, |s.players|;
    DealHandsFromStock(s.players, bets, s.deck, sh, s.decksUsed);
    var h := DealHands(s.players, bets, 0, s.deck, sh, s.decksUsed);
    DealFromStock(h.deck, 2, sh, h.next);
    assert h.deck[..L - 2 * n - 2] == s.deck[..L - 2 * n - 2];
  }

  /** Under the bet rule every stake stays below the chips, and a loss is then always covered. */
  lemma OpeningCoversStakes(s: LocalState, sh: Shuffler, bets: seq<U32>)
    requires FullDecks(sh) && |bets| == |s.players|
    requires forall i :: 0 <= i < |bets| ==> bets[i] < s.players[i].chips
    ensures var o := Opening(s, sh, bets);
      forall i :: 0 <= i < |o.players| ==> o.players[i].currentBet < o.players[i].chips
  {
    DealHandsSeats(s.players, bets, 0, s.deck, sh, s.decksUsed);
  }

  // ---- A player's actions ----

  /** What one action leaves: the player, the deck, the oracle index, whether the turn is over, whether it panicked. */
  datatype Acted = Acted(player: Player, deck: seq<Card>, next: nat, over: bool, panicked: bool)

  /** The end of every action but a refused Double: recompute the value; a bust ends the turn. */
  function Recount(p: Player, deck: seq<Card>, next: nat, over: bool): Acted
  {
    var v := Score(p.hand);
    Acted(p.(handValue := v), deck, next, over || v > 21, false)
  }

  /**
   * One pass of the action loop of `play_round`. Hit draws a card; Stand
   * ends the turn; Double is refused, with nothing changed, when twice the
   * bet exceeds the chips (computing twice the bet panics on overflow),
   * and otherwise draws a card, doubles the bet and ends the turn.
   */
  function Act(p: Player, deck: seq<Card>, sh: Shuffler, next: nat, a: Action): Acted
    requires FullDecks(sh)
  {
    match a
    case Hit =>
      var d := Deal(deck, 1, sh, next);
      Recount(p.(hand := p.hand + d.cards), d.deck, d.next, false)
    case Stand => Recount(p, deck, next, true)
    case Double =>
      if p.currentBet * 2 > U32_MAX then Acted(p, deck, next, false, true)
      else if p.currentBet * 2 > p.chips then Acted(p, deck, next, false, false)
      else
        var d := Deal(deck, 1, sh, next);
        Recount(p.(hand := p.hand + d.cards, currentBet := p.currentBet * 2), d.deck, d.next, true)
  }

  /**
   * A Hit adds exactly one card, the top of the deck or, from an empty deck,
   * the top of a fresh one; the value is recomputed, the turn goes on unless
   * the hand is bust, and nothing else about the player changes.
   */
  lemma HitSpec(p: Player, deck: seq<Card>, sh: Shuffler, next: nat)
    requires FullDecks(sh)
    ensures var r := Act(p, deck, sh, next, Hit);
      && !r.panicked
      && |r.player.hand| == |p.hand| + 1 && r.player.hand[..|p.hand|] == p.hand
      && (deck != [] ==> r.player.hand[|p.hand|] == deck[|deck| - 1] && r.deck == deck[..|deck| - 1] && r.next == next)
      && (deck == [] ==> r.player.hand[|p.hand|] == sh(next)[51] && r.deck == sh(next)[..51] && r.next == next + 1)
      && r.player.handValue == Score(r.player.hand)
      && (r.over <==> Score(r.player.hand) > 21)
      && r.player == p.(hand := r.player.hand, handValue := r.player.handValue)
  {
    DealOne(deck, sh, next);
    assert (p.hand + Deal(deck, 1, sh, next).cards)[..|p.hand|] == p.hand;
  }

  /** Stand ends the turn without drawing. */
  lemma StandSpec(p: Player, deck: seq<Card>, sh: Shuffler, next: nat)
    requires FullDecks(sh)
    ensures var r := Act(p, deck, sh, next, Stand);
      && r.over && !r.panicked
      && r.player.hand == p.hand && r.deck == deck && r.next == next
      && r.player.handValue == Score(p.hand)
  {
  }

  /**
   * Double panics exactly when twice the bet overflows; it is refused with
   * nothing changed exactly when twice the bet exceeds the chips; otherwise
   * it draws one card, doubles the bet and ends the turn.
   */
  lemma DoubleSpec(p: Player, deck: seq<Card>, sh: Shuffler, next: nat)
    requires FullDecks(sh)
    ensures var r := Act(p, deck, sh, next, Double);
      && (r.panicked <==> 2 * p.currentBet > U32_MAX)
      && (!r.panicked && 2 * p.currentBet > p.chips ==> r == Acted(p, deck, next, false, false))
      && (2 * p.currentBet <= p.chips ==>
            && !r.panicked && r.over
            && r.player.currentBet == 2 * p.currentBet
            && r.player.chips == p.chips
            && |r.player.hand| == |p.hand| + 1 && r.player.hand[..|p.hand|] == p.hand
            && r.player.handValue == Score(r.player.hand))
  {
    if 2 * p.currentBet <= p.chips {
      assert (p.hand + Deal(deck, 1, sh, next).cards)[..|p.hand|] == p.hand;
    }
  }

  /**
   * No action touches the chips, the cards already held, the name or the
   * kind of player, and none lets the bet grow past the chips.
   */
  lemma ActKeepsStake(p: Player, deck: seq<Card>, sh: Shuffler, next: nat, a: Action)
    requires FullDecks(sh)
    ensures var r := Act(p, deck, sh, next, a).player;
      && r.chips == p.chips && r.userName == p.userName && r.playerType == p.playerType
      && p.hand <= r.hand
      && (p.currentBet <= p.chips ==> r.currentBet <= r.chips)
  {
    var d := Deal(deck, 1, sh, next);
    assert p.hand <= p.hand + d.cards;
  }

  // ---- A player's turn ----

  /** What a turn leaves, with the number of actions it read. */
  datatype Played = Played(player: Player, deck: seq<Card>, next: nat, used: nat, over: bool, panicked: bool)

  /**
   * The action loop of `play_round` for one player, reading `actions` in
   * order; it stops when the turn is over, on a panic, or when the input
   * runs out.
   */
  function Turn(p: Player, deck: seq<Card>, sh: Shuffler, next: nat, actions: seq<Action>): (r: Played)
    requires FullDecks(sh)
    decreases |actions|
  {
    if actions == [] then Played(p, deck, next, 0, false, false)
    else
      var a := Act(p, deck, sh, next, actions[0]);
      if a.over || a.panicked then Played(a.player, a.deck, a.next, 1, a.over, a.panicked)
      else
        var r := Turn(a.player, a.deck, sh, a.next, actions[1..]);
        r.(used := r.used + 1)
  }

  /**
   * A turn starting from a fresh value of at most 21 reads at most its input;
   * it goes on only while the hand is at most 21 and then reads all of it;
   * when it is over, the last action read was a Stand or a Double, or the
   * hand is bust.
   */
  lemma {:induction false} TurnEnds(p: Player, deck: seq<Card>, sh: Shuffler, next: nat, actions: seq<Action>)
    requires FullDecks(sh)
    requires p.handValue == Score(p.hand) <= 21
    ensures var r := Turn(p, deck, sh, next, actions);
      && r.used <= |actions|
      && (!r.panicked ==> r.player.handValue == Score(r.player.hand))
      && (!r.over && !r.panicked ==> r.used == |actions| && r.player.handValue <= 21)
      && (r.over ==> 1 <= r.used && (actions[r.used - 1] != Hit || r.player.handValue > 21))
    decreases |actions|
  {
    if actions != [] {
      var a := Act(p, deck, sh, next, actions[0]);
      if !a.over && !a.panicked {
        TurnEnds(a.player, a.deck, sh, a.next, actions[1..]);
        var r := Turn(a.player, a.deck, sh, a.next, actions[1..]);
        if r.over {
          assert actions[r.used] == actions[1..][r.used - 1];
        }
      }
    }
  }

  /** A turn keeps the player's chips and name, only adds cards, and never lets the bet grow past the chips. */
  lemma {:induction false} TurnKeepsStake(p: Player, deck: seq<Card>, sh: Shuffler, next: nat, actions: seq<Action>)
    requires FullDecks(sh)
    ensures var r := Turn(p, deck, sh, next, actions).player;
      && r.chips == p.chips && r.userName == p.userName && r.playerType == p.playerType
      && p.hand <= r.hand
      && (p.currentBet <= p.chips ==> r.currentBet <= r.chips)
    decreases |actions|
  {
    if actions != [] {
      var a := Act(p, deck, sh, next, actions[0]);
      ActKeepsStake(p, deck, sh, next, actions[0]);
      if !a.over && !a.panicked {
        TurnKeepsStake(a.player, a.deck, sh, a.next, actions[1..]);
      }
    }
  }

  /** A turn that starts with Stand reads one action and draws nothing. */
  lemma StandFirst(p: Player, deck: seq<Card>, sh: Shuffler, next: nat, actions: seq<Action>)
    requires FullDecks(sh)
    requires |actions| > 0 && actions[0] == Stand
    ensures var r := Turn(p, deck, sh, next, actions);
      r.used == 1 && r.over && !r.panicked && r.player.hand == p.hand && r.deck == deck && r.next == next
  {
  }

  /** The player loop of `play_round` from seat `i` on: each player in order plays a turn from its own input. */
  function AllTurns(s: LocalState, sh: Shuffler, actions: seq<seq<Action>>, i: nat): (r: (LocalState, bool))
    requires FullDecks(sh) && |actions| == |s.players| && i <= |s.players|
    ensures |r.0.players| == |s.players|
    decreases |s.players| - i
  {
    if i == |s.players| then (s, false)
    else
      var t := Turn(s.players[i], s.deck, sh, s.decksUsed, actions[i]);
      var s1 := s.(players := s.players[i := t.player], deck := t.deck, decksUsed := t.next);
      if t.panicked then (s1, true) else AllTurns(s1, sh, actions, i + 1)
  }

  /** Playing keeps every player's chips and, when every bet was covered, keeps every bet covered. */
  lemma {:induction false} AllTurnsKeepStakes(s: LocalState, sh: Shuffler, actions: seq<seq<Action>>, i: nat)
    requires FullDecks(sh) && |actions| == |s.players| && i <= |s.players|
    ensures var r := AllTurns(s, sh, actions, i).0;
      && r.dealer == s.dealer
      && (forall j :: 0 <= j < |s.players| ==> r.players[j].chips == s.players[j].chips)
      && ((forall j :: 0 <= j < |s.players| ==> s.players[j].currentBet <= s.players[j].chips) ==>
          forall j :: 0 <= j < |s.players| ==> r.players[j].currentBet <= r.players[j].chips)
    decreases |s.players| - i
  {
    if i < |s.players| {
      var t := Turn(s.players[i], s.deck, sh, s.decksUsed, actions[i]);
      TurnKeepsStake(s.players[i], s.deck, sh, s.decksUsed, actions[i]);
      var s1 := s.(players := s.players[i := t.player], deck := t.deck, decksUsed := t.next);
      if !t.panicked {
        AllTurnsKeepStakes(s1, sh, actions, i + 1);
      }
    }
  }

  // ---- The dealer's turn ----

  /** The dealer's final hand, the shoe and the oracle index after its turn. */
  datatype DealerPlay = DealerPlay(hand: seq<Card>, deck: seq<Card>, next: nat)

  /** `take_dealers_turn` on the hand and the shoe: pop cards while the hand is worth less than 17. */
  function DealerDraws(hand: seq<Card>, deck: seq<Card>, sh: Shuffler, next: nat): DealerPlay
    requires FullDecks(sh)
    decreases 27 - FaceSum(hand)
  {
    if Score(hand) >= 17 then DealerPlay(hand, deck, next)
    else
      var one := DrawOne(deck, sh, next);
      BelowSeventeenBound(hand);
      FaceSumGrows(hand, one.card);
      DealerDraws(hand + [one.card], one.deck, sh, one.next)
  }

  /** The dealer stops at the first hand worth 17 or more. */
  lemma {:induction false} DealerDrawsStood(hand: seq<Card>, deck: seq<Card>, sh: Shuffler, next: nat)
    requires FullDecks(sh)
    ensures DealerStood(hand, DealerDraws(hand, deck, sh, next).hand)
    decreases 27 - FaceSum(hand)
  {
    if Score(hand) < 17 {
      var one := DrawOne(deck, sh, next);
      BelowSeventeenBound(hand);
      FaceSumGrows(hand, one.card);
      DealerDrawsStood(hand + [one.card], one.deck, sh, one.next);
      DealerStoodStep(hand, one.card, DealerDraws(hand + [one.card], one.deck, sh, one.next).hand);
    }
  }

  /** The cards the dealer adds are one deal of as many cards from the shoe, refills included. */
  lemma {:induction false} DealerDrawsDeal(hand: seq<Card>, deck: seq<Card>, sh: Shuffler, next: nat)
    requires FullDecks(sh)
    ensures var r := DealerDraws(hand, deck, sh, next);
      && hand <= r.hand
      && Dealt(r.hand[|hand|..], r.deck, r.next) == Deal(deck, |r.hand| - |hand|, sh, next)
    decreases 27 - FaceSum(hand)
  {
    if Score(hand) < 17 {
      var one := DrawOne(deck, sh, next);
      BelowSeventeenBound(hand);
      FaceSumGrows(hand, one.card);
      DealerDrawsDeal(hand + [one.card], one.deck, sh, one.next);
      var r := DealerDraws(hand + [one.card], one.deck, sh, one.next);
      assert DealerDraws(hand, deck, sh, next) == r;
      var m := |r.hand| - |hand|;
      var rest := Deal(one.deck, m - 1, sh, one.next);
      assert Dealt(r.hand[|hand| + 1..], r.deck, r.next) == rest;
      assert Deal(deck, m, sh, next) == Dealt([one.card] + rest.cards, rest.deck, rest.next);
      assert r.hand[|hand|..] == [one.card] + r.hand[|hand| + 1..];
    } else {
      assert hand[|hand|..] == [];
    }
  }

  /** The dealer's turn on the game: its hand grows by its draws and its value is refreshed. */
  function DealerTurn(s: LocalState, sh: Shuffler): LocalState
    requires FullDecks(sh)
  {
    var d := DealerDraws(s.dealer.hand, s.deck, sh, s.decksUsed);
    s.(deck := d.deck, dealer := s.dealer.(hand := d.hand, handValue := Score(d.hand)), decksUsed := d.next)
  }

  /** The dealer ends on 17 or more, drew nothing from 17 up, and the players are untouched. */
  lemma DealerTurnSpec(s: LocalState, sh: Shuffler)
    requires FullDecks(sh)
    ensures var r := DealerTurn(s, sh);
      && r.dealer.handValue == Score(r.dealer.hand) >= 17
      && s.dealer.hand <= r.dealer.hand
      && (Score(s.dealer.hand) >= 17 ==> r == s.(dealer := s.dealer.(handValue := Score(s.dealer.hand))))
      && r.players == s.players
  {
    DealerDrawsStood(s.dealer.hand, s.deck, sh, s.decksUsed);
  }

  // ---- calculate_end_state ----

  /** `handle_bets` after `calculate_end_state`'s resolution; `None` is a panic. */
  function Settled(p: Player, dealerValue: nat): Option<Player>
  {
    HandleEndState(p, CalculateEndState(p, dealerValue))
  }

  /** The first player whose payout would panic. */
  function FirstUnpayable(ps: seq<Player>, dealerValue: nat): Option<nat>
  {
    Find(ps, (p: Player) => Settled(p, dealerValue).None?)
  }

  /**
   * The loop of `calculate_end_state`: pay each player in order; a panic
   * stops it at the first payout that overflows or underflows, the players
   * before it already paid.
   */
  function SettlePlayers(ps: seq<Player>, dealerValue: nat): (r: (seq<Player>, bool))
  {
    var stop := match FirstUnpayable(ps, dealerValue) case None => |ps| case Some(k) => k;
    (seq(|ps|, i requires 0 <= i < |ps| => if i < stop then Settled(ps[i], dealerValue).value else ps[i]),
     stop < |ps|)
  }

  /**
   * Settlement changes nothing but chips; it panics exactly when some
   * player cannot be paid; and each player paid before the first such one
   * gets its end state's payout.
   */
  lemma SettlePlayersSpec(ps: seq<Player>, dealerValue: nat)
    ensures var (r, panicked) := SettlePlayers(ps, dealerValue);
      && |r| == |ps|
      && (panicked <==> exists i :: 0 <= i < |ps| && Settled(ps[i], dealerValue).None?)
      && (forall i :: 0 <= i < |ps| ==> r[i] == ps[i].(chips := r[i].chips))
      && (forall i :: 0 <= i < |ps| && (forall j :: 0 <= j <= i ==> Settled(ps[j], dealerValue).Some?) ==>
            r[i].chips == ps[i].chips + PayoutFactor(CalculateEndState(ps[i], dealerValue)) * ps[i].currentBet)
  {
    var (r, panicked) := SettlePlayers(ps, dealerValue);
    forall i | 0 <= i < |ps| && (forall j :: 0 <= j <= i ==> Settled(ps[j], dealerValue).Some?)
      ensures r[i].chips == ps[i].chips + PayoutFactor(CalculateEndState(ps[i], dealerValue)) * ps[i].currentBet
    {
      match FirstUnpayable(ps, dealerValue)
      case None =>
      case Some(k) => assert Settled(ps[k], dealerValue).None?;
    }
  }

  /** Nobody's payout panics when every stake is safe. */
  lemma SettleSafeStakes(ps: seq<Player>, dealerValue: nat)
    requires forall i :: 0 <= i < |ps| ==> SafeStake(ps[i])
    ensures !SettlePlayers(ps, dealerValue).1
  {
    SettlePlayersSpec(ps, dealerValue);
    forall i | 0 <= i < |ps| ensures Settled(ps[i], dealerValue).Some? {
      SafeStakePays(ps[i], CalculateEndState(ps[i], dealerValue));
    }
  }

  /** What the settlement loop has done when it stops at `k`: every player before `k` paid, `k` unpayable or the end. */
  lemma SettlePlayersAt(ps: seq<Player>, dealerValue: nat, k: nat)
    requires k <= |ps|
    requires forall j :: 0 <= j < k ==> Settled(ps[j], dealerValue).Some?
    requires k < |ps| ==> Settled(ps[k], dealerValue).None?
    ensures SettlePlayers(ps, dealerValue).1 == (k < |ps|)
    ensures forall j :: 0 <= j < |ps| ==>
      SettlePlayers(ps, dealerValue).0[j] == if j < k then Settled(ps[j], dealerValue).value else ps[j]
  {
    match FirstUnpayable(ps, dealerValue)
    case None =>
    case Some(m) =>
      assert Settled(ps[m], dealerValue).None?;
  }

  // ---- play_round ----

  /** `play_round`: every player's turn, then the dealer's, then `calculate_end_state`; a panic ends the round. */
  function Round(s: LocalState, sh: Shuffler, actions: seq<seq<Action>>): (LocalState, bool)
    requires FullDecks(sh) && |actions| == |s.players|
  {
    var (s1, p1) := AllTurns(s, sh, actions, 0);
    if p1 then (s1, true)
    else
      var s2 := DealerTurn(s1, sh);
      var (ps, p2) := SettlePlayers(s2.players, s2.dealer.handValue);
      (s2.(players := ps), p2)
  }

  /**
   * Under the bet rule a loss is always covered: the stakes dealt are below
   * the chips and no turn lets them pass the chips, so a round can only
   * panic on a payout that overflows.
   */
  lemma RoundLossesCovered(s: LocalState, sh: Shuffler, bets: seq<U32>, actions: seq<seq<Action>>)
    requires FullDecks(sh) && |bets| == |s.players| && |actions| == |s.players|
    requires forall i :: 0 <= i < |bets| ==> bets[i] < s.players[i].chips
    ensures var played := AllTurns(Opening(s, sh, bets), sh, actions, 0).0;
      forall i :: 0 <= i < |played.players| ==>
        HandleEndState(played.players[i], Loss).Some?
  {
    var o := Opening(s, sh, bets);
    OpeningCoversStakes(s, sh, bets);
    AllTurnsKeepStakes(o, sh, actions, 0);
  }

  // ---- The game, in place ----

  class Game {
    var deck: seq<Card>
    var players: seq<Player>
    var dealer: Player
    var decksUsed: nat
    /** Where refills come from: the client's `create_playing_deck(1)` calls in order. */
    const shuffler: Shuffler

    function State(): LocalState
      reads this
    {
      LocalState(deck, players, dealer, decksUsed)
    }

    /** The setup of `start_game`; `shoe` is `create_playing_deck(4)`. */
    constructor(shoe: seq<Card>, sh: Shuffler)
      requires FullDecks(sh)
      ensures shuffler == sh
      ensures State() == NewGame(shoe, sh)
    {
      shuffler := sh;
      var dealt, rest, next := Deck.DrawCards(shoe, 2, sh, 0);
      var mine, rest2, next2 := Deck.DrawCards(rest, 2, sh, next);
      dealer := Player("", Dealer, dealt, 0, 0, 0);
      players := [Player("", Human, mine, 0, 500, 0)];
      deck, decksUsed := rest2, next2;
    }

    /** The condition of `start_game`'s loop: some player still has chips. */
    function KeepPlaying(): (r: bool)
      reads this
      ensures r <==> SomeoneHasChips(players)
    {
      FirstWithChips(players).Some?
    }

    /**
     * `start_round`: bets (each below the chips, as the bet prompt insists)
     * and hands, the dealer's hand, every player's value, then `play_round`
     * on the players' inputs.
     */
    method StartRound(bets: seq<U32>, actions: seq<seq<Action>>) returns (panicked: bool)
      requires FullDecks(shuffler)
      requires |bets| == |players| && |actions| == |players|
      requires forall i :: 0 <= i < |bets| ==> bets[i] < players[i].chips
      modifies this
      ensures (State(), panicked) == Round(Opening(old(State()), shuffler, bets), shuffler, actions)
    {
      DealPlayers(bets);
      var dealt, left, next := Deck.DrawCards(deck, 2, shuffler, decksUsed);
      dealer := dealer.(hand := dealt);
      deck, decksUsed := left, next;
      ScorePlayers();
      panicked := PlayRound(actions);
    }

    /** The first loop of `start_round`: each player takes its bet and two cards. */
    method DealPlayers(bets: seq<U32>)
      requires FullDecks(shuffler) && |bets| == |players|
      modifies this
      ensures var h := DealHands(old(players), bets, 0, old(deck), shuffler, old(decksUsed));
        players == h.players && deck == h.deck && decksUsed == h.next && dealer == old(dealer)
    {
      ghost var h := DealHands(players, bets, 0, deck, shuffler, decksUsed);
      var n := 0;
      while n < |players|
        invariant n <= |players| == |bets|
        invariant dealer == old(dealer)
        invariant DealHands(players, bets, n, deck, shuffler, decksUsed) == h
      {
        var cards, left, next := Deck.DrawCards(deck, 2, shuffler, decksUsed);
        players := players[n := players[n].(currentBet := bets[n], hand := cards)];
        deck, decksUsed := left, next;
        n := n + 1;
      }
    }

    /** The second loop of `start_round`: every player's value is recomputed. */
    method ScorePlayers()
      modifies this
      ensures players == Refresh(old(players))
      ensures deck == old(deck) && dealer == old(dealer) && decksUsed == old(decksUsed)
    {
      var n := 0;
      while n < |players|
        invariant 0 <= n <= |players| == |old(players)|
        invariant forall j :: 0 <= j < n ==> players[j] == old(players)[j].(handValue := Score(old(players)[j].hand))
        invariant players[n..] == old(players)[n..]
        invariant deck == old(deck) && dealer == old(dealer) && decksUsed == old(decksUsed)
      {
        var v := GetHandValue(players[n].hand);
        players := players[n := players[n].(handValue := v)];
        n := n + 1;
      }
    }

    /** `play_round`: each player's turn, then the dealer's, then `calculate_end_state`. */
    method PlayRound(actions: seq<seq<Action>>) returns (panicked: bool)
      requires FullDecks(shuffler) && |actions| == |players|
      modifies this
      ensures (State(), panicked) == Round(old(State()), shuffler, actions)
    {
      ghost var s0 := State();
      var i := 0;
      panicked := false;
      while i < |players| && !panicked
        invariant 0 <= i <= |players| == |s0.players|
        invariant !panicked ==> AllTurns(s0, shuffler, actions, 0) == AllTurns(State(), shuffler, actions, i)
        invariant panicked ==> AllTurns(s0, shuffler, actions, 0) == (State(), true)
      {
        var used, over;
        used, over, panicked := PlayTurn(i, actions[i]);
        i := i + 1;
      }
      if panicked {
        return;
      }
      TakeDealersTurn();
      panicked := CalculateEndState();
    }

    /** The action loop of `play_round` for player `i`, reading its actions from `actions`. */
    method PlayTurn(i: nat, actions: seq<Action>) returns (used: nat, over: bool, panicked: bool)
      requires FullDecks(shuffler) && i < |players|
      modifies this
      ensures var r := Turn(old(players[i]), old(deck), shuffler, old(decksUsed), actions);
        && players == old(players)[i := r.player] && deck == r.deck && decksUsed == r.next
        && dealer == old(dealer)
        && used == r.used && over == r.over && panicked == r.panicked
    {
      ghost var total := Turn(players[i], deck, shuffler, decksUsed, actions);
      ghost var ps0 := players;
      used, over, panicked := 0, false, false;
      while used < |actions| && !over && !panicked
        invariant used <= |actions|
        invariant |players| == |ps0| && players == ps0[i := players[i]]
        invariant dealer == old(dealer)
        invariant !over && !panicked ==>
          var rest := Turn(players[i], deck, shuffler, decksUsed, actions[used..]);
          total == rest.(used := used + rest.used)
        invariant over || panicked ==> total == Played(players[i], deck, decksUsed, used, over, panicked)
      {
        assert actions[used..][0] == actions[used] && actions[used..][1..] == actions[used + 1..];
        over, panicked := TakeAction(i, actions[used]);
        used := used + 1;
      }
      assert !over && !panicked ==> actions[used..] == [];
      assert total == Played(players[i], deck, decksUsed, used, over, panicked);
    }

    /** One pass of the action loop of `play_round` for player `i`. */
    method TakeAction(i: nat, a: Action) returns (over: bool, panicked: bool)
      requires FullDecks(shuffler) && i < |players|
      modifies this
      ensures var r := Act(old(players[i]), old(deck), shuffler, old(decksUsed), a);
        && players == old(players)[i := r.player] && deck == r.deck && decksUsed == r.next
        && dealer == old(dealer)
        && over == r.over && panicked == r.panicked
    {
      over, panicked := false, false;
      match a {
        case Hit =>
          var cards, rest, next := Deck.DrawCards(deck, 1, shuffler, decksUsed);
          assert cards == [cards[0]];
          players := players[i := players[i].(hand := players[i].hand + [cards[0]])];
          deck, decksUsed := rest, next;
        case Stand =>
          over := true;
        case Double =>
          if players[i].currentBet * 2 > U32_MAX {
            panicked := true;
            return;
          }
          if players[i].currentBet * 2 > players[i].chips {
            return;
          }
          var cards, rest, next := Deck.DrawCards(deck, 1, shuffler, decksUsed);
          assert cards == [cards[0]];
          players := players[i := players[i].(hand := players[i].hand + [cards[0]])];
          deck, decksUsed := rest, next;
          players := players[i := players[i].(currentBet := players[i].currentBet * 2)];
          over := true;
      }
      var v := GetHandValue(players[i].hand);
      players := players[i := players[i].(handValue := v)];
      if v > 21 {
        over := true;
      }
    }

    /** `take_dealers_turn`: refresh the dealer's value, then draw while it is below 17. */
    method TakeDealersTurn()
      requires FullDecks(shuffler)
      modifies this
      ensures State() == DealerTurn(old(State()), shuffler)
    {
      ghost var d := DealerDraws(dealer.hand, deck, shuffler, decksUsed);
      var hand, shoe, next := dealer.hand, deck, decksUsed;
      var value := GetHandValue(hand);
      while value < 17
        invariant State() == old(State())
        invariant value == Score(hand)
        invariant DealerDraws(hand, shoe, shuffler, next) == d
        decreases 27 - FaceSum(hand)
      {
        BelowSeventeenBound(hand);
        DealOne(shoe, shuffler, next);
        var cards, rest, next1 := Deck.DrawCards(shoe, 1, shuffler, next);
        FaceSumGrows(hand, cards[0]);
        hand, shoe, next := hand + [cards[0]], rest, next1;
        value := GetHandValue(hand);
      }
      dealer := dealer.(hand := hand, handValue := value);
      deck, decksUsed := shoe, next;
    }

    /** `calculate_end_state`: resolve and pay each player in order against the dealer's value. */
    method CalculateEndState() returns (panicked: bool)
      modifies this
      ensures (players, panicked) == SettlePlayers(old(players), old(dealer).handValue)
      ensures deck == old(deck) && dealer == old(dealer) && decksUsed == old(decksUsed)
    {
      ghost var ps := players;
      var i := 0;
      while i < |players|
        invariant 0 <= i <= |players| == |ps|
        invariant players[i..] == ps[i..]
        invariant forall j :: 0 <= j < i ==> Settled(ps[j], dealer.handValue) == Some(players[j])
        invariant deck == old(deck) && dealer == old(dealer) && decksUsed == old(decksUsed)
      {
        var e := Rules.CalculateEndState(players[i], dealer.handValue);
        var paid := HandleEndState(players[i], e);
        if paid.None? {
          SettlePlayersAt(ps, dealer.handValue, i);
          panicked := true;
          assert players == SettlePlayers(ps, dealer.handValue).0;
          return;
        }
        players := players[i := paid.value];
        i := i + 1;
      }
      SettlePlayersAt(ps, dealer.handValue, i);
      panicked := false;
      assert players == SettlePlayers(ps, dealer.handValue).0;
    }
  }
}
