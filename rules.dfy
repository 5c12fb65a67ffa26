/**
 * Players and round resolution: `calculate_end_state`, `is_blackjack` and
 * `handle_end_state` (server/src/game.rs), mirrored by the client's
 * `calculate_end_state`, `is_blackjack` and `handle_bets` (client/src/game.rs).
 */
module Rules {
  import opened Wrappers
  import opened Cards
  import opened Hand

  /** Chips and bets are `u32`; arithmetic on them is checked and panics on overflow or underflow. */
  const U32_MAX: int := 0xFFFF_FFFF
  type U32 = x: int | 0 <= x <= U32_MAX

  datatype PlayerType = Human | Dealer

  /**
   * A player record. `handValue` is the cached score of `hand`; it is only
   * as fresh as the last assignment to it.
   */
  datatype Player = Player(
    userName: string,
    playerType: PlayerType,
    hand: seq<Card>,
    handValue: nat,
    chips: U32,
    currentBet: U32)

  datatype EndState = Win | Loss | Blackjack | Push

  /** Two cards and a cached value of 21. */
  predicate IsBlackjack(p: Player)
  {
    |p.hand| == 2 && p.handValue == 21
  }

  /**
   * The outcome of a player against the dealer's value, checked in the order
   * Push, Blackjack, Win, Loss, using the cached hand values.
   */
  function CalculateEndState(p: Player, dealerValue: nat): EndState
  {
    var playerValue := p.handValue;
    if (dealerValue > 21 && playerValue > 21) || dealerValue == playerValue then Push
    else if IsBlackjack(p) then Blackjack
    else if dealerValue > 21 || (playerValue <= 21 && playerValue > dealerValue) then Win
    else Loss
  }

  /** A value as it stands at the end of a round: any bust value counts as -1. */
  function Standing(value: nat): int
  {
    if value > 21 then -1 else value
  }

  /**
   * An independent statement of the outcome: equal standings push, otherwise
   * a blackjack pays, otherwise the higher standing wins.
   */
  function Outcome(p: Player, dealerValue: nat): EndState
  {
    if Standing(p.handValue) == Standing(dealerValue) then Push
    else if IsBlackjack(p) then Blackjack
    else if Standing(p.handValue) > Standing(dealerValue) then Win
    else Loss
  }

  lemma CalculateEndStateIsOutcome(p: Player, dealerValue: nat)
    ensures CalculateEndState(p, dealerValue) == Outcome(p, dealerValue)
  {
  }

  /** Every case of the resolution, each as an if-and-only-if. */
  lemma EndStateCases(p: Player, d: nat)
    ensures var v, e := p.handValue, CalculateEndState(p, d);
      && (e == Push <==> (d > 21 && v > 21) || d == v)
      && (e == Blackjack <==> !(d > 21 && v > 21) && d != v && IsBlackjack(p))
      && (e == Win <==> !(d > 21 && v > 21) && d != v && !IsBlackjack(p) && (d > 21 || (v <= 21 && v > d)))
      && (e == Loss <==> d <= 21 && !IsBlackjack(p) && (v > 21 || v < d))
  {
  }

  /** A two-card 21 against a dealer 21 is a push, not a blackjack. */
  lemma BlackjackAgainstTwentyOnePushes(p: Player)
    requires IsBlackjack(p)
    ensures CalculateEndState(p, 21) == Push
  {
  }

  /** A blackjack beats every dealer value but 21, including a dealer bust. */
  lemma BlackjackNeverLoses(p: Player, d: nat)
    requires IsBlackjack(p) && d != 21
    ensures CalculateEndState(p, d) == Blackjack
  {
  }

  /** A busted player loses against any dealer value up to 21. */
  lemma BustLoses(p: Player, d: nat)
    requires p.handValue > 21 && d <= 21
    ensures CalculateEndState(p, d) == Loss
  {
  }

  /**
   * With a fresh cached value, a blackjack is exactly an Ace together with a
   * ten-valued card.
   */
  lemma BlackjackHand(p: Player)
    requires p.handValue == Score(p.hand)
    ensures IsBlackjack(p) <==>
      |p.hand| == 2 && {RankValue(p.hand[0].rank), RankValue(p.hand[1].rank)} == {10, 11}
  {
    if |p.hand| == 2 {
      var h := p.hand;
      assert h[..1][..0] == [] && h[..1] == [h[0]];
      assert FaceSum(h[..1]) == RankValue(h[0].rank);
      assert FaceSum(h) == RankValue(h[0].rank) + RankValue(h[1].rank);
      if HasAce(h) && FaceSum(h) > 21 {
        assert Score(h) == FaceSum(h) - 10 <= 12;
      }
      if {RankValue(h[0].rank), RankValue(h[1].rank)} == {10, 11} {
        assert RankValue(h[0].rank) == 10 || RankValue(h[0].rank) == 11;
        assert RankValue(h[1].rank) == 10 || RankValue(h[1].rank) == 11;
      }
    }
  }

  /** How many bets an outcome pays: +1, -1, +3 or nothing. */
  function PayoutFactor(e: EndState): int
  {
    match e
    case Win => 1
    case Loss => -1
    case Blackjack => 3
    case Push => 0
  }

  /**
   * `handle_end_state` / `handle_bets`: pays the bet out on the chips. `None`
   * is the panic of an overflowing `+=`, an overflowing `bet * 3` or an
   * underflowing `-=`.
   */
  function HandleEndState(p: Player, e: EndState): (r: Option<Player>)
    ensures var total := p.chips + PayoutFactor(e) * p.currentBet;
      && (r.Some? <==> 0 <= total <= U32_MAX)
      && (r.Some? ==> r.value == p.(chips := total))
  {
    match e
    case Win =>
      if p.chips + p.currentBet <= U32_MAX then Some(p.(chips := p.chips + p.currentBet)) else None
    case Loss =>
      if p.currentBet <= p.chips then Some(p.(chips := p.chips - p.currentBet)) else None
    case Blackjack =>
      if p.currentBet * 3 > U32_MAX then None
      else if p.chips + p.currentBet * 3 <= U32_MAX then Some(p.(chips := p.chips + p.currentBet * 3))
      else None
    case Push => Some(p)
  }

  /** Settling never fails on a push, and on a loss exactly when the bet exceeds the chips. */
  lemma HandleEndStatePanics(p: Player, e: EndState)
    ensures e == Push ==> HandleEndState(p, e) == Some(p)
    ensures e == Loss ==> (HandleEndState(p, e).None? <==> p.currentBet > p.chips)
  {
  }

  /** Stakes no outcome can overflow or underflow: the bet is covered and triple the bet fits. */
  predicate SafeStake(p: Player)
  {
    p.currentBet <= p.chips && p.chips + 3 * p.currentBet <= U32_MAX
  }

  lemma SafeStakePays(p: Player, e: EndState)
    requires SafeStake(p)
    ensures HandleEndState(p, e).Some?
  {
  }

  /** Settling a loss and then a win of the same bet gives the chips back. */
  lemma LossThenWinRestores(p: Player)
    requires p.currentBet <= p.chips
    ensures HandleEndState(p, Loss).Some?
    ensures HandleEndState(HandleEndState(p, Loss).value, Win) == Some(p)
  {
  }

  /** The `start_game` loop condition: some player still has chips. */
  predicate SomeoneHasChips(players: seq<Player>)
  {
    exists i :: 0 <= i < |players| && players[i].chips > 0
  }

  /** `players.iter().find(|p| p.chips > 0)`: the index of the first player with chips. */
  function FirstWithChips(players: seq<Player>): (r: Option<nat>)
    ensures r.Some? <==> SomeoneHasChips(players)
    ensures r.Some? ==>
      && r.value < |players|
      && players[r.value].chips > 0
      && forall k :: 0 <= k < r.value ==> players[k].chips == 0
  {
    Find(players, (p: Player) => p.chips > 0)
  }
}
