/**
 * Hand valuation. Every Ace first counts 11; while the total is over 21 and
 * some Ace still counts 11, one Ace is downgraded to 1 (10 subtracted).
 */
module Scoring {
  import opened Cards

  /** What a card adds before any downgrade: 11 for an Ace, 10 for Jack/Queen/King, else its number. */
  function SoftScore(c: Card): (s: nat)
    ensures 2 <= s <= 11
    ensures s == 11 <==> c.rank == Ace
  {
    if c.rank == Ace then 11
    else if RankNumber(c.rank) >= RankNumber(Jack) then 10
    else RankNumber(c.rank)
  }

  /** What a card adds with an Ace counted as 1. */
  function HardScore(c: Card): (s: nat)
    ensures 1 <= s <= 10
    ensures s == 1 <==> c.rank == Ace
  {
    if c.rank == Ace then 1 else SoftScore(c)
  }

  /** Sum with every Ace counted as 11. */
  function SoftTotal(h: seq<Card>): (s: nat)
  {
    if h == [] then 0 else SoftTotal(h[..|h| - 1]) + SoftScore(h[|h| - 1])
  }

  /** Sum with every Ace counted as 1 (the hard total). */
  function HardTotal(h: seq<Card>): nat
  {
    if h == [] then 0 else HardTotal(h[..|h| - 1]) + HardScore(h[|h| - 1])
  }

  /** How many Aces the hand holds. */
  function AceCount(h: seq<Card>): (n: nat)
  {
    if h == [] then 0 else AceCount(h[..|h| - 1]) + (if h[|h| - 1].rank == Ace then 1 else 0)
  }

  /** The downgrade loop: subtract 10 per remaining Ace while the total exceeds 21. */
  function Downgrade(value: int, aces: nat): (r: int)
    ensures value - 10 * aces <= r <= value
    ensures r > 21 ==> r == value - 10 * aces
    ensures value <= 21 ==> r == value
    decreases aces
  {
    if value > 21 && aces > 0 then Downgrade(value - 10, aces - 1) else value
  }

  /** The value the engine gives a hand. */
  function HandValue(h: seq<Card>): (v: int)
  {
    Downgrade(SoftTotal(h), AceCount(h))
  }

  /** The hand's total when exactly k of its Aces count as 1 instead of 11. */
  function TotalWithDowngrades(h: seq<Card>, k: nat): int
  {
    SoftTotal(h) - 10 * k
  }

  /** The soft total exceeds the hard one by 10 per Ace; every card adds at least 1 to the hard total. */
  lemma {:induction false} SoftIsHardPlusAces(h: seq<Card>)
    ensures SoftTotal(h) == HardTotal(h) + 10 * AceCount(h)
    ensures AceCount(h) <= |h| <= HardTotal(h) <= 10 * |h|
  {
    if h != [] {
      SoftIsHardPlusAces(h[..|h| - 1]);
    }
  }

  lemma {:induction false} DowngradeClosedForm(hard: int, j: nat)
    requires hard >= j
    ensures Downgrade(hard + 10 * j, j) == if j > 0 && hard + 10 <= 21 then hard + 10 else hard
    decreases j
  {
    if j > 0 && hard + 10 * j > 21 {
      DowngradeClosedForm(hard, j - 1);
    }
  }

  /** At most one Ace can still count 11: the value is the hard total plus 10 if that fits in 21. */
  lemma HandValueClosedForm(h: seq<Card>)
    ensures HandValue(h) == if AceCount(h) > 0 && HardTotal(h) + 10 <= 21
                            then HardTotal(h) + 10 else HardTotal(h)
  {
    SoftIsHardPlusAces(h);
    DowngradeClosedForm(HardTotal(h), AceCount(h));
  }

  /**
   * The value is the soft total minus 10 for some number of Aces; it is the best
   * such total not over 21 whenever one exists; it is at most 21 when the hard
   * total is; and a value over 21 means every Ace has been downgraded.
   */
  lemma HandValueIsBestTotal(h: seq<Card>)
    ensures exists k :: 0 <= k <= AceCount(h) && HandValue(h) == TotalWithDowngrades(h, k)
    ensures forall k :: 0 <= k <= AceCount(h) && TotalWithDowngrades(h, k) <= 21 ==>
                        TotalWithDowngrades(h, k) <= HandValue(h)
    ensures HardTotal(h) <= HandValue(h) <= SoftTotal(h)
    ensures HardTotal(h) <= 21 ==> HandValue(h) <= 21
    ensures HandValue(h) > 21 ==> HandValue(h) == HardTotal(h) == TotalWithDowngrades(h, AceCount(h))
  {
    HandValueClosedForm(h);
    SoftIsHardPlusAces(h);
    var a := AceCount(h);
    if a > 0 && HardTotal(h) + 10 <= 21 {
      assert HandValue(h) == TotalWithDowngrades(h, a - 1);
    } else {
      assert HandValue(h) == TotalWithDowngrades(h, a);
    }
    forall k | 0 <= k <= a && TotalWithDowngrades(h, k) <= 21
      ensures TotalWithDowngrades(h, k) <= HandValue(h)
    {
      assert TotalWithDowngrades(h, k) == HardTotal(h) + 10 * (a - k);
    }
  }

  lemma AppendLast(h: seq<Card>, c: Card)
    ensures (h + [c])[..|h|] == h && (h + [c])[|h|] == c
  {
  }

  /** Adding a card adds its hard score to the hard total, and never adds more than 10 to a value that ends over 21. */
  lemma HandValueAfterDraw(h: seq<Card>, c: Card)
    ensures HardTotal(h + [c]) == HardTotal(h) + HardScore(c)
    ensures HandValue(h + [c]) <= 21 || HandValue(h + [c]) <= HandValue(h) + 10
    ensures HandValue(h) > 21 ==> HandValue(h + [c]) > 21
  {
    AppendLast(h, c);
    HandValueIsBestTotal(h);
    HandValueIsBestTotal(h + [c]);
  }

  /** A hand whose value stays under a bound has fewer cards than that bound. */
  lemma HandSizeBound(h: seq<Card>)
    ensures |h| <= HardTotal(h) <= HandValue(h)
  {
    SoftIsHardPlusAces(h);
    HandValueIsBestTotal(h);
  }

  /** Two cards are never worth more than 21. */
  lemma TwoCardHandAtMost21(h: seq<Card>)
    requires |h| == 2
    ensures HandValue(h) <= 21
  {
    assert h[..1][..0] == [] && h[..1] == [h[0]];
    assert HardTotal(h[..1]) == HardScore(h[0]) && AceCount(h[..1]) == (if h[0].rank == Ace then 1 else 0);
    assert HardTotal(h) == HardScore(h[0]) + HardScore(h[1]);
    assert AceCount(h) > 0 ==> h[0].rank == Ace || h[1].rank == Ace;
    HandValueClosedForm(h);
  }

  /** The engine's valuation: an accumulating pass over the hand, then the downgrade loop. */
  method CalculateHandValue(hand: seq<Card>) returns (value: int)
    ensures value == HandValue(hand)
  {
    value := 0;
    var aceCount: nat := 0;
    for i := 0 to |hand|
      invariant value == SoftTotal(hand[..i])
      invariant aceCount == AceCount(hand[..i])
    {
      var card := hand[i];
      assert hand[..i + 1][..i] == hand[..i];
      if card.rank == Ace {
        aceCount := aceCount + 1;
        value := value + 11;
      } else if RankNumber(card.rank) >= RankNumber(Jack) {
        value := value + 10;
      } else {
        value := value + RankNumber(card.rank);
      }
    }
    assert hand[..|hand|] == hand;
    while value > 21 && aceCount > 0
      invariant Downgrade(value, aceCount) == HandValue(hand)
      decreases aceCount
    {
      value := value - 10;
      aceCount := aceCount - 1;
    }
  }

  lemma TwoAcesMakeTwelve()
    ensures HandValue([Card(Spades, Ace), Card(Clubs, Ace)]) == 12
  {
    var h := [Card(Spades, Ace), Card(Clubs, Ace)];
    assert h[..1] == [Card(Spades, Ace)];
    assert HardTotal(h) == 2 && AceCount(h) == 2;
    HandValueClosedForm(h);
  }

  lemma TenNineFiveBusts()
    ensures HandValue([Card(Spades, Ten), Card(Clubs, Nine), Card(Hearts, Five)]) == 24
  {
    var h := [Card(Spades, Ten), Card(Clubs, Nine), Card(Hearts, Five)];
    assert h[..2][..1] == [Card(Spades, Ten)];
    assert h[..2] == [Card(Spades, Ten), Card(Clubs, Nine)];
    assert HardTotal(h[..2][..1]) == 10;
    assert HardTotal(h[..2]) == 19;
    assert AceCount(h[..2][..1]) == 0 && AceCount(h[..2]) == 0;
    assert HardTotal(h) == 24 && AceCount(h) == 0;
    HandValueClosedForm(h);
  }
}
