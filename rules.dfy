/**
 * The round's outcome rules: the result messages, the check for naturals
 * after the deal, the dealer's fixed strategy and the final comparison.
 */
module Rules {
  import opened Cards
  import opened Scoring

  /** The result of a round; Pending is the empty message of a round still in play. */
  datatype Outcome =
    | Pending
    | BothBlackjack
    | PlayerBlackjack
    | DealerBlackjack
    | PlayerBusts
    | DealerBusts
    | PlayerHigher
    | DealerHigher
    | Tie

  /** The result text the engine stores for each outcome. */
  function Message(o: Outcome): (text: string)
    ensures text == "" <==> o == Pending
  {
    match o
    case Pending => ""
    case BothBlackjack => "Both players have blackjack! It's a push."
    case PlayerBlackjack => "Player blackjack! Player wins."
    case DealerBlackjack => "Dealer blackjack! Dealer wins."
    case PlayerBusts => "Player busts! Dealer wins."
    case DealerBusts => "Dealer busts! Player wins."
    case PlayerHigher => "Player wins!"
    case DealerHigher => "Dealer wins."
    case Tie => "It's a tie!"
  }

  /** Different outcomes are reported with different texts. */
  lemma MessagesDistinct(a: Outcome, b: Outcome)
    ensures Message(a) == Message(b) ==> a == b
  {
  }

  predicate PlayerWon(o: Outcome)
  {
    o == PlayerBlackjack || o == DealerBusts || o == PlayerHigher
  }

  predicate DealerWon(o: Outcome)
  {
    o == DealerBlackjack || o == PlayerBusts || o == DealerHigher
  }

  predicate IsPush(o: Outcome)
  {
    o == BothBlackjack || o == Tie
  }

  /** Every outcome but Pending is exactly one of a player win, a dealer win and a push. */
  lemma OutcomeClassesPartition(o: Outcome)
    ensures o == Pending <==> !PlayerWon(o) && !DealerWon(o) && !IsPush(o)
    ensures !(PlayerWon(o) && DealerWon(o)) && !(PlayerWon(o) && IsPush(o)) && !(DealerWon(o) && IsPush(o))
  {
  }

  /** The check for naturals after the deal: both at 21, then the player, then the dealer. */
  function NaturalOutcome(player: int, dealer: int): (r: Outcome)
    ensures r == Pending <==> player != 21 && dealer != 21
    ensures r == BothBlackjack <==> player == 21 && dealer == 21
    ensures r == PlayerBlackjack <==> player == 21 && dealer != 21
    ensures r == DealerBlackjack <==> player != 21 && dealer == 21
  {
    if player == 21 && dealer == 21 then BothBlackjack
    else if player == 21 then PlayerBlackjack
    else if dealer == 21 then DealerBlackjack
    else Pending
  }

  /** The comparison after the dealer's turn: player bust, dealer bust, higher total, tie. */
  function Winner(player: int, dealer: int): (r: Outcome)
    ensures r != Pending && r != BothBlackjack && r != PlayerBlackjack && r != DealerBlackjack
    ensures r == PlayerBusts <==> player > 21
    ensures r == DealerBusts <==> player <= 21 && dealer > 21
    ensures PlayerWon(r) <==> player <= 21 && (dealer > 21 || player > dealer)
    ensures DealerWon(r) <==> player > 21 || (dealer <= 21 && dealer > player)
    ensures IsPush(r) <==> player <= 21 && dealer <= 21 && player == dealer
  {
    if player > 21 then PlayerBusts
    else if dealer > 21 then DealerBusts
    else if player > dealer then PlayerHigher
    else if dealer > player then DealerHigher
    else Tie
  }

  /**
   * The dealer's turn: the number of cards the dealer draws from the front of
   * the deck, drawing while the hand is worth less than 17 (a soft 17 stands).
   * With at least 17 cards between hand and deck the deck never runs out,
   * because a hand worth under 17 has fewer than 17 cards.
   */
  function DealerDraws(dealer: seq<Card>, deck: seq<Card>): (m: nat)
    requires |dealer| + |deck| >= 17
    ensures m <= |deck|
    ensures HandValue(dealer + deck[..m]) >= 17
    ensures m > 0 ==> HandValue(dealer + deck[..m]) <= 26
    ensures forall j :: 0 <= j < m ==> HandValue(dealer + deck[..j]) < 17
    decreases |deck|
  {
    if HandValue(dealer) >= 17 then
      assert dealer + deck[..0] == dealer;
      0
    else
      HandSizeBound(dealer);
      var m := 1 + DealerDraws(dealer + [deck[0]], deck[1..]);
      DealerStep(dealer, deck, m);
      m
  }

  /** A dealer hand under 17 draws the front card, and the rest of the turn continues from there. */
  lemma DealerDrawsOne(dealer: seq<Card>, deck: seq<Card>)
    requires |dealer| + |deck| >= 17 && HandValue(dealer) < 17
    ensures deck != []
    ensures DealerDraws(dealer, deck) == 1 + DealerDraws(dealer + [deck[0]], deck[1..])
  {
    HandSizeBound(dealer);
  }

  lemma ShiftPrefix(dealer: seq<Card>, deck: seq<Card>, k: nat)
    requires 1 <= k <= |deck|
    ensures dealer + deck[..k] == (dealer + [deck[0]]) + deck[1..][..k - 1]
  {
    assert deck[..k] == [deck[0]] + deck[1..][..k - 1];
  }

  /** One draw of the dealer's turn: the facts about the rest of the turn carry back to its start. */
  lemma DealerStep(dealer: seq<Card>, deck: seq<Card>, m: nat)
    requires deck != [] && HandValue(dealer) < 17 && 1 <= m <= |deck|
    requires HandValue((dealer + [deck[0]]) + deck[1..][..m - 1]) >= 17
    requires m - 1 > 0 ==> HandValue((dealer + [deck[0]]) + deck[1..][..m - 1]) <= 26
    requires forall j :: 0 <= j < m - 1 ==> HandValue((dealer + [deck[0]]) + deck[1..][..j]) < 17
    ensures HandValue(dealer + deck[..m]) >= 17
    ensures HandValue(dealer + deck[..m]) <= 26
    ensures forall j :: 0 <= j < m ==> HandValue(dealer + deck[..j]) < 17
  {
    ShiftPrefix(dealer, deck, m);
    if m == 1 {
      assert (dealer + [deck[0]]) + deck[1..][..0] == dealer + [deck[0]];
      HandValueAfterDraw(dealer, deck[0]);
    }
    forall j | 0 <= j < m ensures HandValue(dealer + deck[..j]) < 17 {
      if j == 0 {
        assert dealer + deck[..0] == dealer;
      } else {
        ShiftPrefix(dealer, deck, j);
      }
    }
  }

  /**
   * A two-card dealer hand that stands at once is worth 17 to 21; a hand that
   * draws stops at 17 to 26. Either way the dealer ends between 17 and 26.
   */
  lemma DealerFinalValue(dealer: seq<Card>, deck: seq<Card>)
    requires |dealer| == 2 && |deck| >= 15
    ensures 17 <= HandValue(dealer + deck[..DealerDraws(dealer, deck)]) <= 26
  {
    if DealerDraws(dealer, deck) == 0 {
      assert dealer + deck[..0] == dealer;
      TwoCardHandAtMost21(dealer);
    }
  }

  /** The two dealt cards plus the Ace and Ten of Hearts the deal adds. */
  function DealtPlayerHand(c0: Card, c2: Card): (h: seq<Card>)
    ensures |h| == 4 && h[..2] == [c0, c2]
    ensures multiset(h[2..]) == multiset{AceOfHearts, TenOfHearts}
  {
    [c0, c2, AceOfHearts, TenOfHearts]
  }

  /**
   * After the deal the added Ace always counts 1: the player's total is 11 plus
   * the hard scores of the two dealt cards, between 13 and 31. The player has
   * a natural exactly when those two cards add up to 10, and is already bust
   * when they add up to more than 10.
   */
  lemma DealtPlayerValue(c0: Card, c2: Card)
    ensures HandValue(DealtPlayerHand(c0, c2)) == HardScore(c0) + HardScore(c2) + 11
    ensures 13 <= HandValue(DealtPlayerHand(c0, c2)) <= 31
    ensures HandValue(DealtPlayerHand(c0, c2)) == 21 <==> HardScore(c0) + HardScore(c2) == 10
    ensures HandValue(DealtPlayerHand(c0, c2)) > 21 <==> HardScore(c0) + HardScore(c2) > 10
  {
    var h := DealtPlayerHand(c0, c2);
    AppendLast([c0], c2);
    AppendLast([c0, c2], AceOfHearts);
    AppendLast([c0, c2, AceOfHearts], TenOfHearts);
    assert [c0][..0] == [];
    assert h == [c0, c2, AceOfHearts] + [TenOfHearts];
    assert [c0, c2, AceOfHearts] == [c0, c2] + [AceOfHearts];
    assert [c0, c2] == [c0] + [c2];
    assert HardTotal([c0]) == HardScore(c0);
    assert HardTotal([c0, c2]) == HardScore(c0) + HardScore(c2);
    assert HardTotal([c0, c2, AceOfHearts]) == HardScore(c0) + HardScore(c2) + 1;
    assert HardTotal(h) == HardScore(c0) + HardScore(c2) + 11;
    assert AceCount([c0, c2, AceOfHearts]) > 0;
    assert AceCount(h) > 0;
    HandValueClosedForm(h);
  }

  /** With the two added cards, a dealt Ace and King is worth 22: the player is over 21 before any move. */
  lemma DealtAceKingIsOver()
    ensures HandValue(DealtPlayerHand(Card(Spades, Ace), Card(Clubs, King))) == 22
  {
    DealtPlayerValue(Card(Spades, Ace), Card(Clubs, King));
  }

  /**
   * A dealer holding Ten and Six (16) draws exactly one card when that card
   * scores at most 5, and then stands on 17 to 21.
   */
  lemma TenSixDrawsOnce(suit: Suit, c: Card, rest: seq<Card>)
    requires HardScore(c) <= 5 && |rest| >= 14
    ensures DealerDraws([Card(suit, Ten), Card(suit, Six)], [c] + rest) == 1
    ensures 17 <= HandValue([Card(suit, Ten), Card(suit, Six), c]) <= 21
  {
    var h := [Card(suit, Ten), Card(suit, Six)];
    assert h[..1] == [Card(suit, Ten)] && h[..1][..0] == [];
    assert HardTotal(h[..1]) == 10 && AceCount(h[..1]) == 0;
    assert HardTotal(h) == 16 && AceCount(h) == 0;
    HandValueClosedForm(h);
    DealerDrawsOne(h, [c] + rest);
    var h' := h + [c];
    assert h' == [Card(suit, Ten), Card(suit, Six), c];
    AppendLast(h, c);
    assert HardTotal(h') == 16 + HardScore(c);
    HandValueClosedForm(h');
    assert 17 <= HandValue(h') <= 21;
    assert ([c] + rest)[0] == c && ([c] + rest)[1..] == rest;
    assert DealerDraws(h', rest) == 0;
  }
}
