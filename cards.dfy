/**
 * Cards, ranks and suits (shared/src/card.rs) and the integer/rank/value
 * tables of shared/src/helpers.rs. The client's `Suit::from_int`,
 * `Rank::from_int` and `Rank::get_value` (client/src/card.rs) are the same
 * tables and are modelled by the same functions.
 */
module Cards {

  datatype Suit = Spades | Hearts | Diamonds | Clubs

  datatype Rank = Two | Three | Four | Five | Six | Seven | Eight | Nine | Ten
                | Jack | Queen | King | Ace

  datatype Card = Card(suit: Suit, rank: Rank)

  /** `rank_from_int`: the integer is reduced modulo 13; 0 is Two, 12 is Ace. */
  function RankFromInt(a: nat): Rank
  {
    match a % 13
    case 0 => Two
    case 1 => Three
    case 2 => Four
    case 3 => Five
    case 4 => Six
    case 5 => Seven
    case 6 => Eight
    case 7 => Nine
    case 8 => Ten
    case 9 => Jack
    case 10 => Queen
    case 11 => King
    case _ => Ace
  }

  /** `suit_from_int`: the integer is reduced modulo 4. */
  function SuitFromInt(a: nat): Suit
  {
    match a % 4
    case 0 => Spades
    case 1 => Hearts
    case 2 => Diamonds
    case _ => Clubs
  }

  /** `get_rank_value`: pip value, 10 for picture cards, 11 for an Ace. */
  function RankValue(r: Rank): (v: nat)
    ensures 2 <= v <= 11
    ensures v == 11 <==> r == Ace
    ensures v == 10 <==> r in {Ten, Jack, Queen, King}
  {
    match r
    case Two => 2
    case Three => 3
    case Four => 4
    case Five => 5
    case Six => 6
    case Seven => 7
    case Eight => 8
    case Nine => 9
    case Ten => 10
    case Jack => 10
    case Queen => 10
    case King => 10
    case Ace => 11
  }

  /** The integer in 0..12 that `RankFromInt` maps to `r`. */
  function RankIndex(r: Rank): (i: nat)
    ensures i < 13 && RankFromInt(i) == r
  {
    match r
    case Two => 0
    case Three => 1
    case Four => 2
    case Five => 3
    case Six => 4
    case Seven => 5
    case Eight => 6
    case Nine => 7
    case Ten => 8
    case Jack => 9
    case Queen => 10
    case King => 11
    case Ace => 12
  }

  /** The integer in 0..3 that `SuitFromInt` maps to `s`. */
  function SuitIndex(s: Suit): (i: nat)
    ensures i < 4 && SuitFromInt(i) == s
  {
    match s
    case Spades => 0
    case Hearts => 1
    case Diamonds => 2
    case Clubs => 3
  }

  /** Only the residue modulo 13 matters. */
  lemma RankFromIntPeriodic(a: nat)
    ensures RankFromInt(a) == RankFromInt(a % 13)
    ensures RankFromInt(a + 13) == RankFromInt(a)
  {
  }

  /** Only the residue modulo 4 matters. */
  lemma SuitFromIntPeriodic(a: nat)
    ensures SuitFromInt(a) == SuitFromInt(a % 4)
    ensures SuitFromInt(a + 4) == SuitFromInt(a)
  {
  }

  /** On 0..12, `RankFromInt` is a bijection onto the 13 ranks; `RankIndex` inverts it. */
  lemma RankFromIntBijective(i: nat, r: Rank)
    requires i < 13
    ensures RankFromInt(i) == r <==> i == RankIndex(r)
  {
  }

  /** On 0..3, `SuitFromInt` is a bijection onto the 4 suits; `SuitIndex` inverts it. */
  lemma SuitFromIntBijective(i: nat, s: Suit)
    requires i < 4
    ensures SuitFromInt(i) == s <==> i == SuitIndex(s)
  {
  }

  /** The pip cards: integers 0..8 denote Two..Ten, worth the integer plus two. */
  lemma PipValues(r: nat)
    requires r < 9
    ensures RankValue(RankFromInt(r)) == r + 2
  {
  }
}
