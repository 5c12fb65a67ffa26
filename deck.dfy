/**
 * Building decks and drawing from them: `create_playing_deck` and
 * `draw_cards` of client/src/card.rs and server/src/card.rs.
 *
 * The shuffle (`deck.shuffle(&mut thread_rng())`) is not modelled as an
 * algorithm. It is an oracle: a `Shuffler` yields, for the i-th deck the
 * program creates, some permutation of the freshly enumerated deck.
 * Everything drawn is then a deterministic function of the oracle.
 */
module Deck {
  import opened Cards

  /** No element occurs twice. */
  predicate Distinct<T(==)>(s: seq<T>)
  {
    forall i, j :: 0 <= i < j < |s| ==> s[i] != s[j]
  }

  /** The 13 cards of one suit in rank order: the inner `(0..13).map(...)`. */
  function SuitRun(s: nat): (run: seq<Card>)
    ensures |run| == 13
  {
    seq(13, r requires 0 <= r < 13 => Card(SuitFromInt(s), RankFromInt(r)))
  }

  /** One deck before shuffling: the four suit runs of `(0..4).flat_map(...)`. */
  function OneDeck(): (d: seq<Card>)
    ensures |d| == 52
  {
    SuitRun(0) + SuitRun(1) + SuitRun(2) + SuitRun(3)
  }

  /** `create_playing_deck(k)` before its shuffle: k copies of one deck. */
  function OrderedDeck(k: nat): (d: seq<Card>)
    ensures |d| == 52 * k
  {
    if k == 0 then [] else OrderedDeck(k - 1) + OneDeck()
  }

  /** The card at position i of the unshuffled deck. */
  lemma OneDeckAt(i: nat)
    requires i < 52
    ensures OneDeck()[i] == Card(SuitFromInt(i / 13), RankFromInt(i % 13))
  {
    var d := OneDeck();
    if i < 13 {
      assert i / 13 == 0 && i % 13 == i;
      assert d[i] == SuitRun(0)[i];
    } else if i < 26 {
      assert i / 13 == 1 && i % 13 == i - 13;
      assert d[i] == SuitRun(1)[i - 13];
    } else if i < 39 {
      assert i / 13 == 2 && i % 13 == i - 26;
      assert d[i] == SuitRun(2)[i - 26];
    } else {
      assert i / 13 == 3 && i % 13 == i - 39;
      assert d[i] == SuitRun(3)[i - 39];
    }
  }

  /** Every card occurs in one deck. */
  lemma OneDeckHas(c: Card)
    ensures OneDeck()[13 * SuitIndex(c.suit) + RankIndex(c.rank)] == c
  {
    var i := 13 * SuitIndex(c.suit) + RankIndex(c.rank);
    OneDeckAt(i);
    assert i / 13 == SuitIndex(c.suit) && i % 13 == RankIndex(c.rank);
  }

  /** No card occurs twice in one deck. */
  lemma OneDeckDistinct()
    ensures Distinct(OneDeck())
  {
    var d := OneDeck();
    forall i, j | 0 <= i < j < 52 ensures d[i] != d[j] {
      OneDeckAt(i);
      OneDeckAt(j);
      if d[i].suit == d[j].suit {
        SuitFromIntBijective(i / 13, d[i].suit);
        SuitFromIntBijective(j / 13, d[i].suit);
        assert i / 13 == j / 13;
        assert i % 13 != j % 13;
        RankFromIntBijective(i % 13, d[i].rank);
        RankFromIntBijective(j % 13, d[i].rank);
      }
    }
  }

  /** In a sequence without repetitions every element is counted once. */
  lemma {:induction false} DistinctCount<T>(s: seq<T>, x: T)
    requires Distinct(s)
    ensures multiset(s)[x] == if x in s then 1 else 0
  {
    if s != [] {
      var t := s[..|s| - 1];
      assert s == t + [s[|s| - 1]];
      assert Distinct(t);
      DistinctCount(t, x);
      assert s[|s| - 1] !in t;
    }
  }

  /** A sequence whose multiset counts nothing twice has no repetitions. */
  lemma CountedOnceDistinct<T>(s: seq<T>)
    requires forall x :: multiset(s)[x] <= 1
    ensures Distinct(s)
  {
    forall i, j | 0 <= i < j < |s| ensures s[i] != s[j] {
      var pre, post := s[..j], s[j..];
      assert s == pre + post;
      assert post[0] == s[j];
      assert multiset(s)[s[j]] == multiset(pre)[s[j]] + multiset(post)[s[j]];
      assert s[j] !in multiset(pre);
      assert pre[i] == s[i];
    }
  }

  /** One deck holds each (rank, suit) pair exactly once. */
  lemma OneDeckCount(c: Card)
    ensures multiset(OneDeck())[c] == 1
  {
    OneDeckDistinct();
    OneDeckHas(c);
    DistinctCount(OneDeck(), c);
  }

  /** `create_playing_deck(k)` holds each (rank, suit) pair exactly k times. */
  lemma {:induction false} OrderedDeckCount(k: nat, c: Card)
    ensures multiset(OrderedDeck(k))[c] == k
  {
    if k > 0 {
      OrderedDeckCount(k - 1, c);
      OneDeckCount(c);
      assert multiset(OrderedDeck(k)) == multiset(OrderedDeck(k - 1)) + multiset(OneDeck());
    }
  }

  /** d is what `create_playing_deck(k)` can return: a permutation of k fresh decks. */
  predicate IsShuffleOf(d: seq<Card>, k: nat)
  {
    multiset(d) == multiset(OrderedDeck(k))
  }

  /** A shuffled k-deck has 52*k cards and each (rank, suit) pair exactly k times. */
  lemma ShuffleContents(d: seq<Card>, k: nat, c: Card)
    requires IsShuffleOf(d, k)
    ensures |d| == 52 * k
    ensures multiset(d)[c] == k
  {
    assert |multiset(d)| == |multiset(OrderedDeck(k))|;
    OrderedDeckCount(k, c);
  }

  /** A shuffled single deck repeats no card. */
  lemma ShuffledDeckDistinct(d: seq<Card>)
    requires IsShuffleOf(d, 1)
    ensures Distinct(d)
  {
    forall x ensures multiset(d)[x] <= 1 {
      ShuffleContents(d, 1, x);
    }
    CountedOnceDistinct(d);
  }

  /** The randomness oracle: `sh(i)` is the i-th single deck the program creates. */
  type Shuffler = nat -> seq<Card>

  ghost predicate ValidShuffler(sh: Shuffler)
  {
    forall i: nat :: IsShuffleOf(sh(i), 1)
  }

  /** Every deck the oracle yields is a full 52-card deck: all that drawing relies on. */
  ghost predicate FullDecks(sh: Shuffler)
  {
    forall i: nat :: |sh(i)| == 52
  }

  lemma ValidShufflerFull(sh: Shuffler)
    requires ValidShuffler(sh)
    ensures FullDecks(sh)
  {
    forall i: nat ensures |sh(i)| == 52 {
      ShuffleContents(sh(i), 1, Card(Spades, Ace));
    }
  }

  /** What one pop produces: the card, the deck left, the next oracle index. */
  datatype Drawn = Drawn(card: Card, deck: seq<Card>, next: nat)

  /**
   * One iteration of the draw loop: an empty deck is first extended with the
   * next shuffled single deck `sh(next)`, then its last card is popped.
   */
  function DrawOne(deck: seq<Card>, sh: Shuffler, next: nat): (r: Drawn)
    requires FullDecks(sh)
  {
    var d := if deck == [] then deck + sh(next) else deck;
    assert deck == [] ==> d == sh(next);
    Drawn(d[|d| - 1], d[..|d| - 1], if deck == [] then next + 1 else next)
  }

  /** What a draw of n cards produces: the cards in draw order, the deck left, the next oracle index. */
  datatype Dealt = Dealt(cards: seq<Card>, deck: seq<Card>, next: nat)

  /** Drawing n cards: n pops in a row. */
  function Deal(deck: seq<Card>, n: nat, sh: Shuffler, next: nat): (r: Dealt)
    requires FullDecks(sh)
    ensures |r.cards| == n
    decreases n
  {
    if n == 0 then Dealt([], deck, next)
    else
      var one := DrawOne(deck, sh, next);
      var rest := Deal(one.deck, n - 1, sh, one.next);
      Dealt([one.card] + rest.cards, rest.deck, rest.next)
  }

  /** Drawing one card is one pop. */
  lemma DealOne(deck: seq<Card>, sh: Shuffler, next: nat)
    requires FullDecks(sh)
    ensures var one := DrawOne(deck, sh, next);
      Deal(deck, 1, sh, next) == Dealt([one.card], one.deck, one.next)
  {
  }

  /** With enough cards in the deck: the last n cards in pop order, no refill. */
  lemma {:induction false} DealFromStock(deck: seq<Card>, n: nat, sh: Shuffler, next: nat)
    requires FullDecks(sh)
    requires n <= |deck|
    ensures Deal(deck, n, sh, next).deck == deck[..|deck| - n]
    ensures Deal(deck, n, sh, next).next == next
    ensures forall k :: 0 <= k < n ==> Deal(deck, n, sh, next).cards[k] == deck[|deck| - 1 - k]
  {
    if n > 0 {
      var init := deck[..|deck| - 1];
      DealFromStock(init, n - 1, sh, next);
      assert init[..|init| - (n - 1)] == deck[..|deck| - n];
      var r := Deal(deck, n, sh, next);
      forall k | 0 <= k < n ensures r.cards[k] == deck[|deck| - 1 - k] {
        if k > 0 {
          assert r.cards[k] == Deal(init, n - 1, sh, next).cards[k - 1];
        }
      }
    }
  }

  /** An empty deck is refilled with one fresh shuffled deck rather than failing. */
  lemma DealRefill(n: nat, sh: Shuffler, next: nat)
    requires FullDecks(sh)
    requires 1 <= n <= 52
    ensures |sh(next)| == 52
    ensures Deal([], n, sh, next).next == next + 1
    ensures Deal([], n, sh, next).deck == sh(next)[..52 - n]
    ensures forall k :: 0 <= k < n ==> Deal([], n, sh, next).cards[k] == sh(next)[51 - k]
  {
    var d := sh(next);
    var r := Deal([], n, sh, next);
    var t := Deal(d[..51], n - 1, sh, next + 1);
    assert DrawOne([], sh, next) == Drawn(d[51], d[..51], next + 1);
    DealFromStock(d[..51], n - 1, sh, next + 1);
    assert r.cards == [d[51]] + t.cards;
    forall k | 0 <= k < n ensures r.cards[k] == d[51 - k] {
      if k > 0 {
        assert r.cards[k] == t.cards[k - 1];
      }
    }
    assert d[..51][..51 - (n - 1)] == d[..52 - n];
  }

  /** Drawing past the end of a deck: all of it in pop order, then a draw from an empty deck. */
  lemma {:induction false} DealExhaust(deck: seq<Card>, m: nat, sh: Shuffler, next: nat)
    requires FullDecks(sh)
    ensures var r, e := Deal(deck, |deck| + m, sh, next), Deal([], m, sh, next);
      && (forall k :: 0 <= k < |deck| ==> r.cards[k] == deck[|deck| - 1 - k])
      && r.cards[|deck|..] == e.cards
      && r.deck == e.deck
      && r.next == e.next
  {
    if deck != [] {
      var init := deck[..|deck| - 1];
      DealExhaust(init, m, sh, next);
      assert |init| + m == |deck| + m - 1;
      var r := Deal(deck, |deck| + m, sh, next);
      var ri := Deal(init, |init| + m, sh, next);
      assert r.cards == [deck[|deck| - 1]] + ri.cards;
      forall k | 0 <= k < |deck| ensures r.cards[k] == deck[|deck| - 1 - k] {
        if k > 0 {
          assert r.cards[k] == ri.cards[k - 1];
        }
      }
      assert r.cards[|deck|..] == ri.cards[|init|..];
    }
  }

  /**
   * Client `draw_cards(deck, n)`: pops n cards off the deck, refilling it with
   * a fresh shuffled deck whenever it runs empty. `deck` is the `&mut Vec`
   * passed in; `rest` is its value afterwards.
   */
  method DrawCards(deck: seq<Card>, n: nat, sh: Shuffler, next: nat)
    returns (cards: seq<Card>, rest: seq<Card>, nextDeck: nat)
    requires FullDecks(sh)
    ensures Dealt(cards, rest, nextDeck) == Deal(deck, n, sh, next)
  {
    ghost var total := Deal(deck, n, sh, next);
    cards, rest, nextDeck := [], deck, next;
    var num := n;
    while num > 0
      invariant total == Dealt(cards + Deal(rest, num, sh, nextDeck).cards,
                               Deal(rest, num, sh, nextDeck).deck, Deal(rest, num, sh, nextDeck).next)
    {
      var popped := DrawOne(rest, sh, nextDeck);
      cards := cards + [popped.card];
      rest, nextDeck := popped.deck, popped.next;
      num := num - 1;
    }
  }
}

/** The server's card source, server/src/card.rs. */
module ServerCard {
  import opened Cards
  import opened Deck

  /** What server `draw_cards(n)` yields: n draws from the fresh deck `sh(next)`. */
  function FreshDeal(n: nat, sh: Shuffler, next: nat): Dealt
    requires FullDecks(sh)
  {
    Deal(sh(next), n, sh, next + 1)
  }

  /**
   * Server `draw_cards(n)`: every call creates its own shuffled deck and draws
   * from it, refilling it when it runs out. `nextDeck` is the oracle index
   * after the decks this call created.
   */
  method DrawCards(n: nat, sh: Shuffler, next: nat) returns (cards: seq<Card>, nextDeck: nat)
    requires FullDecks(sh)
    ensures cards == FreshDeal(n, sh, next).cards
    ensures nextDeck == FreshDeal(n, sh, next).next
    ensures |cards| == n
  {
    var deck := sh(next);
    var left;
    cards, left, nextDeck := Deck.DrawCards(deck, n, sh, next + 1);
  }

  /** Up to one deck's worth, a fresh draw repeats no (rank, suit) pair. */
  lemma FreshDrawDistinct(n: nat, sh: Shuffler, next: nat)
    requires ValidShuffler(sh)
    requires n <= 52
    ensures FullDecks(sh)
    ensures Distinct(FreshDeal(n, sh, next).cards)
  {
    ValidShufflerFull(sh);
    var d := sh(next);
    ShuffledDeckDistinct(d);
    DealFromStock(d, n, sh, next + 1);
  }

  /** Past 52 cards the local deck is refilled with a second fresh deck instead of failing. */
  lemma FreshDrawRefill(n: nat, sh: Shuffler, next: nat)
    requires FullDecks(sh)
    requires 52 < n <= 104
    ensures var r := FreshDeal(n, sh, next);
      && (forall k :: 0 <= k < 52 ==> r.cards[k] == sh(next)[51 - k])
      && (forall k :: 0 <= k < n - 52 ==> r.cards[52..][k] == sh(next + 1)[51 - k])
      && r.next == next + 2
  {
    DealExhaust(sh(next), n - 52, sh, next + 1);
    DealRefill(n - 52, sh, next + 1);
  }
}
