/**
 * The round engine: a deck, the two hands, the result and the round-over flag,
 * changed in place by starting a round, hitting and standing.
 */
module Game {
  import opened Wrappers
  import opened Cards
  import opened Scoring
  import opened Shuffling
  import opened Rules

  class BlackjackGame {
    var deck: seq<Card>
    var playerHand: seq<Card>
    var dealerHand: seq<Card>
    var gameResult: Outcome
    var gameOver: bool

    /**
     * The invariant of every state from the first StartNewGame on. The cards of
     * deck and hands are the 52 cards of a full deck plus the Ace and Ten of
     * Hearts that the deal adds; the round is over exactly when a result is
     * set; while it is live the dealer holds the two dealt cards and the player
     * holds either the four cards of the deal or a hand worth at most 21.
     */
    ghost predicate Valid()
      reads this
    {
      && CardsConserved(deck, playerHand, dealerHand)
      && |deck| + |playerHand| + |dealerHand| == 54
      && (gameOver <==> gameResult != Pending)
      && (!gameOver ==> |dealerHand| == 2 && (|playerHand| == 4 || HandValue(playerHand) <= 21))
    }

    /** The state before any round: no cards anywhere, no result, not over. */
    constructor ()
      ensures deck == [] && playerHand == [] && dealerHand == []
      ensures gameResult == Pending && !gameOver
    {
      deck, playerHand, dealerHand := [], [], [];
      gameResult, gameOver := Pending, false;
    }

    /**
     * Build, shuffle with the choices ks and deal a new round, then check for
     * naturals. Returns whether the round ended at once.
     */
    method StartNewGame(ks: seq<nat>) returns (over: bool)
      requires ValidSwaps(ks, 52)
      modifies this
      ensures Valid()
      ensures var d := Shuffled(FullDeck(), ks);
              && deck == d[4..]
              && playerHand == [d[0], d[2], AceOfHearts, TenOfHearts]
              && dealerHand == [d[1], d[3]]
      ensures gameResult == NaturalOutcome(HandValue(playerHand), HandValue(dealerHand))
      ensures over == gameOver
    {
      InitializeGame(ks);
      gameOver := false;
      gameResult := Pending;
      ghost var deck0, player0, dealer0 := deck, playerHand, dealerHand;
      assert CardsConserved(deck0, player0, dealer0);

      CheckNaturals();
      over := gameOver;
      assert deck == deck0 && playerHand == player0 && dealerHand == dealer0;
    }

    method InitializeGame(ks: seq<nat>)
      requires ValidSwaps(ks, 52)
      modifies this
      ensures var d := Shuffled(FullDeck(), ks);
              && deck == d[4..]
              && playerHand == [d[0], d[2], AceOfHearts, TenOfHearts]
              && dealerHand == [d[1], d[3]]
      ensures |deck| == 48 && CardsConserved(deck, playerHand, dealerHand)
      ensures var natural := NaturalOutcome(HandValue(playerHand), HandValue(dealerHand));
              if natural == Pending then gameResult == old(gameResult) && gameOver == old(gameOver)
              else gameResult == natural && gameOver
    {
      CreateDeck();
      ShuffleDeck(ks);
      DealInitialCards();
    }

    /** Append the cards in enumeration order: each suit, and within it each rank. */
    method CreateDeck()
      modifies this`deck
      ensures deck == FullDeck()
    {
      deck := [];
      for s := 0 to |Suits|
        invariant deck == FullDeck()[..13 * s]
      {
        for v := 0 to |Ranks|
          invariant deck == FullDeck()[..13 * s + v]
        {
          FullDeckAt(s, v);
          PrefixGrows(FullDeck(), 13 * s + v);
          deck := deck + [Card(Suits[s], Ranks[v])];
        }
      }
    }

    /** Fisher-Yates from the last position down to 1; ks holds the generator's answers. */
    method ShuffleDeck(ks: seq<nat>)
      requires ValidSwaps(ks, |deck|)
      modifies this`deck
      ensures deck == Shuffled(old(deck), ks)
      ensures |deck| == |old(deck)| && multiset(deck) == multiset(old(deck))
    {
      var n: nat := |deck|;
      var i := 0;
      while n > 1
        invariant n <= |deck| == |old(deck)|
        invariant i <= |ks| && n + i == |old(deck)|
        invariant deck == ShuffleSteps(old(deck), ks, i)
        decreases n
      {
        n := n - 1;
        var k := ks[i];
        var temp := deck[k];
        deck := deck[k := deck[n]];
        deck := deck[n := temp];
        i := i + 1;
      }
    }

    /** Remove and return the front card; an empty deck yields None and is left alone. */
    method DrawCard() returns (c: Option<Card>)
      modifies this`deck
      ensures old(deck) == [] ==> c == None && deck == old(deck)
      ensures old(deck) != [] ==> c == Some(old(deck)[0]) && deck == old(deck)[1..]
    {
      if |deck| == 0 {
        return None;
      }
      var drawnCard := deck[0];
      deck := deck[1..];
      return Some(drawnCard);
    }

    /**
     * Deal player, dealer, player, dealer from the front of the deck, add the
     * Ace and Ten of Hearts to the player's hand, then check for naturals.
     */
    method DealInitialCards()
      requires |deck| >= 4
      modifies this`deck, this`playerHand, this`dealerHand, this`gameResult, this`gameOver
      ensures deck == old(deck)[4..]
      ensures playerHand == [old(deck)[0], old(deck)[2], AceOfHearts, TenOfHearts]
      ensures dealerHand == [old(deck)[1], old(deck)[3]]
      ensures multiset(old(deck)) == multiset(FullDeck()) ==> CardsConserved(deck, playerHand, dealerHand)
      ensures var natural := NaturalOutcome(HandValue(playerHand), HandValue(dealerHand));
              if natural == Pending then gameResult == old(gameResult) && gameOver == old(gameOver)
              else gameResult == natural && gameOver
    {
      playerHand := [];
      dealerHand := [];

      var c := DrawCard();
      playerHand := playerHand + [c.value];
      c := DrawCard();
      dealerHand := dealerHand + [c.value];
      c := DrawCard();
      playerHand := playerHand + [c.value];
      c := DrawCard();
      dealerHand := dealerHand + [c.value];

      playerHand := playerHand + [AceOfHearts];
      playerHand := playerHand + [TenOfHearts];
      if multiset(old(deck)) == multiset(FullDeck()) {
        DealKeepsCards(old(deck), deck, playerHand, dealerHand);
      }

      CheckNaturals();
    }

    /** A natural on either side ends the round: both, then the player, then the dealer. */
    method CheckNaturals()
      modifies this`gameResult, this`gameOver
      ensures var natural := NaturalOutcome(HandValue(playerHand), HandValue(dealerHand));
              if natural == Pending then gameResult == old(gameResult) && gameOver == old(gameOver)
              else gameResult == natural && gameOver
    {
      var playerValue := CalculateHandValue(playerHand);
      var dealerValue := CalculateHandValue(dealerHand);
      if playerValue == 21 && dealerValue == 21 {
        gameResult := BothBlackjack;
        gameOver := true;
      } else if playerValue == 21 {
        gameResult := PlayerBlackjack;
        gameOver := true;
      } else if dealerValue == 21 {
        gameResult := DealerBlackjack;
        gameOver := true;
      }
    }

    /**
     * Nothing happens once the round is over. Otherwise the player takes the
     * front card; going over 21 ends the round with the player-busts result.
     */
    method PlayerHit()
      requires Valid()
      modifies this`deck, this`playerHand, this`gameResult, this`gameOver
      ensures Valid()
      ensures old(gameOver) ==>
                deck == old(deck) && playerHand == old(playerHand) && gameResult == old(gameResult) && gameOver
      ensures !old(gameOver) ==>
                && old(deck) != []
                && playerHand == old(playerHand) + [old(deck)[0]]
                && deck == old(deck)[1..]
                && (gameOver <==> HandValue(playerHand) > 21)
                && gameResult == (if gameOver then PlayerBusts else Pending)
    {
      if gameOver {
        return;
      }
      PlayerHandFits();
      ghost var hand0, deck0 := playerHand, deck;
      var c := DrawCard();
      playerHand := playerHand + [c.value];
      assert playerHand == hand0 + deck0[..1] && deck == deck0[1..];
      HitKeepsCards(deck0, hand0, dealerHand, 1);
      var value := CalculateHandValue(playerHand);
      if value > 21 {
        gameResult := PlayerBusts;
        gameOver := true;
      }
    }

    /**
     * Nothing happens once the round is over. Otherwise the dealer plays out
     * the hand, the winner is determined and the round is over.
     */
    method PlayerStand()
      requires Valid()
      modifies this`deck, this`dealerHand, this`gameResult, this`gameOver
      ensures Valid()
      ensures old(gameOver) ==>
                deck == old(deck) && dealerHand == old(dealerHand) && gameResult == old(gameResult) && gameOver
      ensures !old(gameOver) ==>
                && |old(dealerHand)| + |old(deck)| >= 17
                && (var m := DealerDraws(old(dealerHand), old(deck));
                    dealerHand == old(dealerHand) + old(deck)[..m] && deck == old(deck)[m..])
                && old(dealerHand) <= dealerHand
                && 17 <= HandValue(dealerHand) <= 26
                && gameResult == Winner(HandValue(playerHand), HandValue(dealerHand))
                && gameOver
    {
      if gameOver {
        return;
      }
      PlayerHandFits();
      ghost var dealer0, deck0 := dealerHand, deck;
      ghost var m := DealerDraws(dealer0, deck0);
      PlayDealerTurn();
      DetermineWinner();
      gameOver := true;
      DealerFinalValue(dealer0, deck0);
      StandKeepsCards(deck0, playerHand, dealer0, m);
    }

    /** While the round is live the player holds at most 21 cards, so the deck keeps at least 31. */
    lemma PlayerHandFits()
      requires Valid() && !gameOver
      ensures |playerHand| <= 21 && |deck| >= 31
    {
      if |playerHand| != 4 {
        HandSizeBound(playerHand);
      }
    }

    /** The dealer draws from the front of the deck while the hand is worth less than 17. */
    method PlayDealerTurn()
      requires |dealerHand| + |deck| >= 17
      modifies this`deck, this`dealerHand
      ensures var m := DealerDraws(old(dealerHand), old(deck));
              dealerHand == old(dealerHand) + old(deck)[..m] && deck == old(deck)[m..]
    {
      ghost var dealer0, deck0 := dealerHand, deck;
      ghost var m := DealerDraws(dealer0, deck0);
      ghost var drawn := 0;
      var value := CalculateHandValue(dealerHand);
      assert dealer0 + deck0[..0] == dealer0;
      assert HandValue(dealer0 + deck0[..m]) >= 17;
      while value < 17
        invariant drawn <= m
        invariant dealerHand == dealer0 + deck0[..drawn] && deck == deck0[drawn..]
        invariant value == HandValue(dealerHand)
        decreases m - drawn
      {
        assert drawn < m;
        var c := DrawCard();
        PrefixGrows(deck0, drawn);
        SuffixShrinks(deck0, drawn);
        dealerHand := dealerHand + [c.value];
        drawn := drawn + 1;
        value := CalculateHandValue(dealerHand);
      }
    }

    /** Compare the final totals: player bust, dealer bust, higher total, else a tie. */
    method DetermineWinner()
      modifies this`gameResult
      ensures gameResult == Winner(HandValue(playerHand), HandValue(dealerHand))
    {
      var playerValue := CalculateHandValue(playerHand);
      var dealerValue := CalculateHandValue(dealerHand);
      if playerValue > 21 {
        gameResult := PlayerBusts;
      } else if dealerValue > 21 {
        gameResult := DealerBusts;
      } else if playerValue > dealerValue {
        gameResult := PlayerHigher;
      } else if dealerValue > playerValue {
        gameResult := DealerHigher;
      } else {
        gameResult := Tie;
      }
    }

    /** The dealer's cards as the view shows them: only the first one while the round is live. */
    method DealerView() returns (shown: seq<Card>, hidden: bool)
      requires !gameOver ==> |dealerHand| > 0
      ensures hidden <==> !gameOver
      ensures !gameOver ==> shown == [dealerHand[0]]
      ensures gameOver ==> shown == dealerHand
    {
      if !gameOver {
        return [dealerHand[0]], true;
      }
      return dealerHand, false;
    }

    /** The stored result text; empty while the round is live. */
    method GetGameResult() returns (text: string)
      ensures text == Message(gameResult)
      ensures Valid() ==> (text == "" <==> !gameOver)
    {
      text := Message(gameResult);
    }

    /** The player may hit while the round is live and the hand is worth at most 21. */
    method CanPlayerHit() returns (b: bool)
      ensures b <==> !gameOver && HandValue(playerHand) <= 21
    {
      var value := CalculateHandValue(playerHand);
      b := !gameOver && value <= 21;
    }

    /** The player may stand while the round is live. */
    method CanPlayerStand() returns (b: bool)
      ensures b <==> !gameOver
    {
      b := !gameOver;
    }
  }

  /** How many copies of a card a round holds: one of each, two of the Ace and Ten of Hearts. */
  function Copies(c: Card): (n: nat)
    ensures n == 2 <==> c in {AceOfHearts, TenOfHearts}
    ensures n == 1 <==> c !in {AceOfHearts, TenOfHearts}
  {
    if c == AceOfHearts || c == TenOfHearts then 2 else 1
  }

  /**
   * The cards of a round: deck and hands together hold each card of a full
   * deck once, and the Ace and Ten of Hearts, which the deal adds, twice.
   */
  ghost predicate CardsConserved(deck: seq<Card>, player: seq<Card>, dealer: seq<Card>)
  {
    forall c: Card :: (multiset(deck) + multiset(player) + multiset(dealer))[c] == Copies(c)
  }

  /** The deal only moves cards: the round holds a full deck, shuffled, plus the two added cards. */
  lemma DealKeepsCards(d: seq<Card>, deck: seq<Card>, player: seq<Card>, dealer: seq<Card>)
    requires |d| >= 4 && multiset(d) == multiset(FullDeck()) && deck == d[4..]
    requires player == [d[0], d[2], AceOfHearts, TenOfHearts] && dealer == [d[1], d[3]]
    ensures CardsConserved(deck, player, dealer)
  {
    assert player == [d[0], d[2]] + [AceOfHearts, TenOfHearts];
    DealtCardsSplit(d);
    UnionRearrange(multiset(deck), multiset([d[0], d[2]]), multiset([AceOfHearts, TenOfHearts]), multiset(dealer));
    FullDeckIsExact();
    forall c: Card ensures (multiset(deck) + multiset(player) + multiset(dealer))[c] == Copies(c) {
      assert multiset(FullDeck())[c] == 1;
    }
  }

  lemma DealtCardsSplit(d: seq<Card>)
    requires |d| >= 4
    ensures multiset(d) == multiset([d[0], d[2]]) + multiset([d[1], d[3]]) + multiset(d[4..])
  {
    assert d == [d[0], d[1], d[2], d[3]] + d[4..];
  }

  lemma UnionRearrange<T>(rest: multiset<T>, p: multiset<T>, q: multiset<T>, e: multiset<T>)
    ensures rest + (p + q) + e == (p + e + rest) + q
  {
  }

  /** Moving the first m cards of the deck onto the player's hand keeps the round's cards. */
  lemma HitKeepsCards(deck: seq<Card>, player: seq<Card>, dealer: seq<Card>, m: nat)
    requires m <= |deck| && CardsConserved(deck, player, dealer)
    ensures CardsConserved(deck[m..], player + deck[..m], dealer)
  {
    assert deck == deck[..m] + deck[m..];
    assert multiset(deck[m..]) + multiset(player + deck[..m]) + multiset(dealer)
        == multiset(deck) + multiset(player) + multiset(dealer);
  }

  /** Moving the first m cards of the deck onto the dealer's hand keeps the round's cards. */
  lemma StandKeepsCards(deck: seq<Card>, player: seq<Card>, dealer: seq<Card>, m: nat)
    requires m <= |deck| && CardsConserved(deck, player, dealer)
    ensures CardsConserved(deck[m..], player, dealer + deck[..m])
  {
    assert deck == deck[..m] + deck[m..];
    assert multiset(deck[m..]) + multiset(player) + multiset(dealer + deck[..m])
        == multiset(deck) + multiset(player) + multiset(dealer);
  }

  /** A client: after a stand the round is over, and a second stand changes nothing. */
  method StandTwice(g: BlackjackGame)
    requires g.Valid()
    modifies g
    ensures g.gameOver
  {
    g.PlayerStand();
    var deck, dealer, result := g.deck, g.dealerHand, g.gameResult;
    g.PlayerStand();
    assert g.deck == deck && g.dealerHand == dealer && g.gameResult == result;
    var canHit := g.CanPlayerHit();
    var canStand := g.CanPlayerStand();
    assert !canHit && !canStand;
  }
}
