/**
 * Hand scoring (`get_hand_value`, client/src/game.rs) and the dealer's
 * stopping rule shared by both `take_dealers_turn` loops.
 */
module Hand {
  import opened Cards

  /** The sum of the face values of a hand, every Ace counted as 11. */
  function FaceSum(hand: seq<Card>): nat
  {
    if hand == [] then 0 else FaceSum(hand[..|hand| - 1]) + RankValue(hand[|hand| - 1].rank)
  }

  predicate HasAce(hand: seq<Card>)
  {
    exists i :: 0 <= i < |hand| && hand[i].rank == Ace
  }

  /**
   * The hand value: the face sum, less 10 exactly once when it exceeds 21
   * and the hand holds at least one Ace.
   */
  function Score(hand: seq<Card>): nat
  {
    var sum := FaceSum(hand);
    if HasAce(hand) && sum > 21 then sum - 10 else sum
  }

  /** The library `sum` of `values.into_iter().sum()`. */
  function Sum(values: seq<nat>): nat
  {
    if values == [] then 0 else Sum(values[..|values| - 1]) + values[|values| - 1]
  }

  /**
   * `get_hand_value`: collect the rank values in a loop, sum them, and take
   * 10 off once when the sum is over 21 and some card is an Ace.
   */
  method GetHandValue(hand: seq<Card>) returns (value: nat)
    ensures value == Score(hand)
    ensures value == FaceSum(hand) <==> FaceSum(hand) <= 21 || !HasAce(hand)
    ensures value <= FaceSum(hand) && FaceSum(hand) <= value + 10
  {
    var values: seq<nat> := [];
    for i := 0 to |hand|
      invariant |values| == i
      invariant Sum(values) == FaceSum(hand[..i])
    {
      assert hand[..i + 1][..i] == hand[..i];
      values := values + [RankValue(hand[i].rank)];
      assert values[..|values| - 1] == values[..i];
    }
    assert hand[..|hand|] == hand;
    value := Sum(values);
    if HasAce(hand) {
      if value > 21 {
        value := value - 10;
      }
    }
  }

  lemma {:induction false} FaceSumConcat(a: seq<Card>, b: seq<Card>)
    ensures FaceSum(a + b) == FaceSum(a) + FaceSum(b)
    decreases |b|
  {
    if b != [] {
      var b' := b[..|b| - 1];
      assert (a + b)[..|a + b| - 1] == a + b';
      FaceSumConcat(a, b');
    } else {
      assert a + b == a;
    }
  }

  /** Every card adds between 2 and 11 to the face sum. */
  lemma {:induction false} FaceSumBounds(hand: seq<Card>)
    ensures 2 * |hand| <= FaceSum(hand) <= 11 * |hand|
  {
    if hand != [] {
      FaceSumBounds(hand[..|hand| - 1]);
    }
  }

  lemma {:induction false} HasAceConcat(a: seq<Card>, b: seq<Card>)
    ensures HasAce(a + b) <==> HasAce(a) || HasAce(b)
  {
    if HasAce(a + b) {
      var i :| 0 <= i < |a + b| && (a + b)[i].rank == Ace;
      if i < |a| {
        assert a[i].rank == Ace;
      } else {
        assert b[i - |a|].rank == Ace;
      }
    }
    if HasAce(a) {
      var i :| 0 <= i < |a| && a[i].rank == Ace;
      assert (a + b)[i].rank == Ace;
    }
    if HasAce(b) {
      var i :| 0 <= i < |b| && b[i].rank == Ace;
      assert (a + b)[|a| + i].rank == Ace;
    }
  }

  /** Drawing a card never lowers the face sum; it raises it by the card's value. */
  lemma FaceSumGrows(hand: seq<Card>, c: Card)
    ensures FaceSum(hand + [c]) == FaceSum(hand) + RankValue(c.rank)
    ensures FaceSum(hand + [c]) >= FaceSum(hand) + 2
  {
    assert (hand + [c])[..|hand|] == hand;
  }

  /** The hand value can fall when a card is drawn: Ace, Nine is 20, adding a Five makes 15. */
  lemma ScoreCanDrop()
    ensures var h := [Card(Spades, Ace), Card(Hearts, Nine)];
      Score(h) == 20 && Score(h + [Card(Clubs, Five)]) == 15
  {
    var h := [Card(Spades, Ace), Card(Hearts, Nine)];
    var h3 := h + [Card(Clubs, Five)];
    assert h3[..2] == h;
    assert h[..1] == [Card(Spades, Ace)];
    assert [Card(Spades, Ace)][..0] == [];
    assert h3[0].rank == Ace && h[0].rank == Ace;
  }

  /** Only one Ace is ever discounted: Ace, Ace scores 12 and Ace, Ace, Ace scores 23. */
  lemma AcesDiscountedOnce()
    ensures Score([Card(Spades, Ace), Card(Hearts, Ace)]) == 12
    ensures Score([Card(Spades, Ace), Card(Hearts, Ace), Card(Clubs, Ace)]) == 23
  {
    var a1 := [Card(Spades, Ace)];
    var a2 := a1 + [Card(Hearts, Ace)];
    var a3 := a2 + [Card(Clubs, Ace)];
    assert a1[..0] == [] && a2[..1] == a1 && a3[..2] == a2;
    assert a2[0].rank == Ace && a3[0].rank == Ace;
    assert a2 == [Card(Spades, Ace), Card(Hearts, Ace)];
    assert a3 == [Card(Spades, Ace), Card(Hearts, Ace), Card(Clubs, Ace)];
  }

  lemma EmptyHandScoresZero()
    ensures Score([]) == 0 && !HasAce([])
  {
  }

  /**
   * The dealer's stopping rule, as a relation between the hand before and
   * after its turn: the old hand is a prefix of the new one, the new value is
   * at least 17, and every hand in between was still below 17, so the turn
   * stopped at the first hand reaching 17.
   */
  predicate DealerStood(before: seq<Card>, after: seq<Card>)
  {
    && before <= after
    && Score(after) >= 17
    && forall j :: |before| <= j < |after| ==> Score(after[..j]) < 17
  }

  /** A hand below 17 has a face sum of at most 26, so dealer play ends within a bounded number of draws. */
  lemma BelowSeventeenBound(hand: seq<Card>)
    requires Score(hand) < 17
    ensures FaceSum(hand) <= 26
  {
  }

  /** A hand already at 17 or more draws nothing. */
  lemma DealerStandsAtSeventeen(before: seq<Card>, after: seq<Card>)
    requires Score(before) >= 17
    requires DealerStood(before, after)
    ensures after == before
  {
    assert after[..|before|] == before;
  }

  /** For a given run of cards, there is exactly one point where the dealer stands. */
  lemma DealerStoodUnique(before: seq<Card>, a1: seq<Card>, a2: seq<Card>)
    requires DealerStood(before, a1) && DealerStood(before, a2)
    requires a1 <= a2
    ensures a1 == a2
  {
    assert a2[..|a1|] == a1;
  }

  /** A hand that is still below 17 keeps drawing: stepping over one card preserves the relation. */
  lemma DealerStoodStep(before: seq<Card>, c: Card, after: seq<Card>)
    requires Score(before) < 17
    requires DealerStood(before + [c], after)
    ensures DealerStood(before, after)
  {
    forall j | |before| <= j < |after|
      ensures Score(after[..j]) < 17
    {
      if j == |before| {
        assert after[..j] == before;
      }
    }
  }

  /**
   * The soft-Ace rule lets the dealer finish above 26: Ace, Five, King is 16,
   * and a further Ace makes 27.
   */
  lemma DealerCanReachTwentySeven()
    ensures var h := [Card(Spades, Ace), Card(Spades, Five), Card(Spades, King)];
      DealerStood(h, h + [Card(Hearts, Ace)]) && Score(h + [Card(Hearts, Ace)]) == 27
  {
    var h1 := [Card(Spades, Ace)];
    var h2 := h1 + [Card(Spades, Five)];
    var h := h2 + [Card(Spades, King)];
    var h4 := h + [Card(Hearts, Ace)];
    assert h1[..0] == [] && h2[..1] == h1 && h[..2] == h2 && h4[..3] == h;
    assert h[0].rank == Ace && h4[0].rank == Ace;
    assert h == [Card(Spades, Ace), Card(Spades, Five), Card(Spades, King)];
    assert FaceSum(h1) == 11 && FaceSum(h2) == 16 && FaceSum(h) == 26 && FaceSum(h4) == 37;
    assert Score(h) == 16;
    forall j | |h| <= j < |h4| ensures Score(h4[..j]) < 17 {
      assert h4[..j] == h;
    }
  }
}
