# Blackjack round engine in Dafny

This project models the round engine of a single-player Blackjack game
(`BlackjackGame` in `Assets/Black.cs`) and proves properties of that model.
The engine owns a deck, the player's hand, the dealer's hand, a result text
and a round-over flag. It changes them in place as rounds are started,
as the player hits and as the player stands.

Modules, in dependency order:

- `Wrappers`: `Option`, the result of drawing from a deck that may be empty.
- `Cards`: suits, ranks and cards. `FullDeck` is the unshuffled deck in the
  order of the engine's nested enumeration loops. Lemmas show it holds
  every one of the 52 cards exactly once.
- `Scoring`: hand valuation. The specification functions (`SoftTotal`,
  `HardTotal`, `AceCount`, `Downgrade`, `HandValue`) state the value.
  Lemmas characterise it as the best total over Ace choices.
  `CalculateHandValue` is the engine's two-loop method, proved equal to
  `HandValue`.
- `Shuffling`: the Fisher–Yates loop with its random choices passed in as
  the sequence `ks`. `ShuffleSteps` is the deck after each loop step.
  `Shuffled` is the deck after all steps. Lemmas show every shuffle is a
  permutation.
- `Rules`: the result `Outcome`s and their exact texts, plus three
  specification functions:
  - `NaturalOutcome`: the check for naturals.
  - `DealerDraws`: how many cards the dealer's draw-below-17 loop takes.
  - `Winner`: the final comparison.
- `Game`: the class `BlackjackGame`.
  - Its fields mirror the source's fields. `Valid()` is the invariant of
    every state reached by `StartNewGame`.
  - The deck and both hands together always hold the 52 cards plus the
    extra Ace and Ten of Hearts of the deal (`CardsConserved`).
  - The round is over exactly when a result is set.
  - While the round is live, the dealer holds exactly two cards, and the
    player holds either the four dealt cards or a hand worth at most 21.

Behaviour of the code worth knowing:

- **The deal.** `DealInitialCards` draws player, dealer, player, dealer, and
  then always adds the Ace of Hearts and the Ten of Hearts to the player's
  hand (`Assets/Black.cs:110-111`).
  - The player's total after the deal is therefore 11 plus the hard scores
    of the two dealt cards, between 13 and 31 (`Rules.DealtPlayerValue`).
  - A dealt Ace and King is worth 22, not a natural (`Rules.DealtAceKingIsOver`).
  - The player can be over 21 while the round is still live. In that state
    `CanPlayerHit` is false, `CanPlayerStand` is true, and standing ends the
    round with the player-busts result.
- **The natural check** runs twice: once at the end of `DealInitialCards`
  and again in `StartNewGame`, after the result and the flag have been
  reset. Both copies have the same three branches, so the model writes them
  once, as `CheckNaturals`.
- **The dealer view.** `GetDealerHandAsString` (`Assets/Black.cs:221-228`)
  shows, while the round is live, the dealer's first card followed by a
  single "Hidden" marker, and the whole hand once the round is over
  (`DealerView`).
- **The result classes.** The engine stores eight distinct result texts;
  "Player wins!" and "Dealer wins." are separate from the bust texts.
  `Outcome` has eight values plus `Pending` for the empty text.
- **Running out of cards.** Drawing from an empty deck returns `null` in the
  code; the model returns `None`. `Valid()` proves that neither a hit nor
  the dealer's turn can reach an empty deck: a live or standing hand has
  fewer than 22 cards, and the round holds 54.

## Model

| member | source | states |
|---|---|---|
| Cards.RankNumber | Assets/Black.cs:7 | the enumeration value of a rank, Ace 1 to King 13 |
| Cards.EnumerationPositions | Assets/Black.cs:6-7 | SuitIndex and RankNumber give a suit's and a rank's position in the enumerations |
| Cards.FullDeck | Assets/Black.cs:61-71 | the deck the nested suit and rank loops build has 4 · 13 = 52 cards |
| Cards.FullDeckAt | Assets/Black.cs:61-71 | position 13·s + r of the built deck holds suit s with rank r |
| Cards.FullDeckHasEveryCard | Assets/Black.cs:61-71 | every (suit, rank) card occurs in the built deck, at DeckIndex |
| Cards.DeckIndexOfFullDeck | Assets/Black.cs:61-71 | DeckIndex inverts indexing into the built deck, so no card occurs at two positions |
| Cards.FullDeckIsExact | Assets/Black.cs:61-71 | the built deck has 52 pairwise distinct cards, and each card's multiplicity in it is exactly 1 |
| Scoring.SoftScore | Assets/Black.cs:192-204 | a card first adds 2 to 11, where 11 means exactly an Ace |
| Scoring.HardScore | Assets/Black.cs:192-204 | with the Ace counted low, a card adds 1 to 10, where 1 means exactly an Ace |
| Scoring.SoftTotal | Assets/Black.cs:190-205 | the accumulation loop's sum, with every Ace counted 11; its relation to the hard sum is `SoftIsHardPlusAces` |
| Scoring.AceCount | Assets/Black.cs:190-205 | the number of Aces the accumulation loop counts; bounded by the hand's size in `SoftIsHardPlusAces` |
| Scoring.Downgrade | Assets/Black.cs:207-211 | the downgrade loop subtracts 10 per Ace at most and never adds; a total of 21 or less is left alone; a result still over 21 has used every Ace |
| Scoring.HandValue | Assets/Black.cs:185-214 | the value the engine gives a hand, the high-Ace sum after the downgrade loop; characterised by `HandValueClosedForm` and `HandValueIsBestTotal` |
| Scoring.SoftIsHardPlusAces | Assets/Black.cs:190-205 | the all-Aces-high sum is the hard sum plus 10 per Ace; every card adds at least 1 and at most 10 to the hard sum |
| Scoring.DowngradeClosedForm | Assets/Black.cs:207-211 | the downgrade loop ends at the hard total plus 10 if that fits in 21, otherwise at the hard total |
| Scoring.HandValueClosedForm | Assets/Black.cs:185-214 | a hand's value is its hard total plus 10 when it has an Ace and that fits in 21, otherwise its hard total |
| Scoring.HandValueIsBestTotal | Assets/Black.cs:185-214 | the value is the high-Ace sum minus 10·k for some k up to the Ace count; it is the largest such total not over 21 when one exists; it lies between the hard and the high-Ace sums; it is at most 21 when the hard total is; a value over 21 has every Ace downgraded |
| Scoring.HandValueAfterDraw | Assets/Black.cs:133-134 | a drawn card adds its hard score to the hard total; a hand over 21 stays over 21 after a draw; a draw that ends over 21 added at most 10 |
| Scoring.HandSizeBound | Assets/Black.cs:185-214 | a hand has at most as many cards as its value, so a hand under 17 has at most 16 cards |
| Scoring.TwoCardHandAtMost21 | Assets/Black.cs:152 | two cards are never worth more than 21 |
| Scoring.CalculateHandValue | Assets/Black.cs:185-214 | the accumulation loop and the downgrade loop compute HandValue |
| Scoring.TwoAcesMakeTwelve | Assets/Black.cs:185-214 | two Aces are worth 12 |
| Scoring.TenNineFiveBusts | Assets/Black.cs:185-214 | Ten, Nine and Five are worth 24 |
| Shuffling.Swap | Assets/Black.cs:80-82 | the exchange through a temporary swaps positions i and j and keeps every other position |
| Shuffling.ShuffleSteps | Assets/Black.cs:76-84 | each loop step keeps the deck's length |
| Shuffling.Shuffled | Assets/Black.cs:73-85 | for every valid choice sequence, the shuffled deck has the same length and the same multiset of cards |
| Shuffling.SwapPermutes | Assets/Black.cs:80-82 | an exchange keeps the multiset of cards |
| Shuffling.ShuffleStepsPermute | Assets/Black.cs:76-84 | any number of loop steps keeps the multiset of cards |
| Shuffling.ShuffleStepsFixSuffix | Assets/Black.cs:76-84 | once step t has fixed position n−t, later steps never touch it or anything above it |
| Shuffling.SelfSwapsKeepOrder | Assets/Black.cs:76-84 | when the generator returns its largest allowed index at every step, every element is exchanged with itself and the deck keeps its order |
| Rules.Message | Assets/Black.cs:39-181 | the text stored for each result; it is empty exactly for the pending result, so a set result always has a non-empty text |
| Rules.MessagesDistinct | Assets/Black.cs:39-181 | different outcomes have different result texts |
| Rules.OutcomeClassesPartition | Assets/Black.cs:158-183 | every set result is exactly one of a player win, a dealer win and a push |
| Rules.NaturalOutcome | Assets/Black.cs:39-49 | a round ends at once exactly when a side has 21: a push when both do, otherwise the side with 21 wins, and the player is checked first |
| Rules.Winner | Assets/Black.cs:158-183 | the player bust comes first, then the dealer bust; otherwise the higher total wins and equal totals tie; the result is never a natural |
| Rules.DealerDraws | Assets/Black.cs:150-156 | the dealer takes the fewest cards from the front that bring the hand to 17 or more; every shorter prefix is under 17; a hand that drew ends at 26 or less |
| Rules.DealerDrawsOne | Assets/Black.cs:152-155 | a hand under 17 finds a card on the deck and draws one |
| Rules.DealerStep | Assets/Black.cs:152-155 | the facts about the rest of the dealer's turn carry over to the turn with one more card |
| Rules.DealerFinalValue | Assets/Black.cs:150-156 | from a two-card hand, the dealer ends between 17 and 26 |
| Rules.DealtPlayerHand | Assets/Black.cs:105-111 | the player's hand after the deal: four cards, the two dealt cards first in deal order, then the two added cards, the Ace and the Ten of Hearts |
| Rules.DealtPlayerValue | Assets/Black.cs:100-111 | after the deal the player's value is the two dealt cards' hard scores plus 11; it lies in 13..31; it is 21 exactly when those scores sum to 10, and over 21 exactly when they sum to more |
| Rules.DealtAceKingIsOver | Assets/Black.cs:100-111 | a dealt Ace and King, with the two added cards, is worth 22 |
| Rules.TenSixDrawsOnce | Assets/Black.cs:150-156 | a dealer Ten and Six draws exactly one card that scores at most 5, and stands on 17 to 21 |
| Game.DealKeepsCards | Assets/Black.cs:100-111 | the deal only moves cards: a full deck, shuffled, plus the two added cards is what the deck and hands hold |
| Game.HitKeepsCards | Assets/Black.cs:133 | moving the deck's front cards onto the player's hand keeps the round's cards |
| Game.StandKeepsCards | Assets/Black.cs:152-155 | moving the deck's front cards onto the dealer's hand keeps the round's cards |
| Game.BlackjackGame.Valid | Assets/Black.cs:26-30 | the invariant over the engine's fields: the deck and hands hold the deal's 54 cards, the round is over exactly when a result is set, and a live round has a two-card dealer hand and a player hand that is the dealt four cards or worth at most 21 |
| Game.BlackjackGame.constructor | Assets/Black.cs:26-30 | a new engine has no cards, no result and a live flag |
| Game.BlackjackGame.StartNewGame | Assets/Black.cs:32-52 | the new state is valid; the deck is the shuffled full deck after its first four cards; the player holds cards 0 and 2 and then the Ace and Ten of Hearts; the dealer holds cards 1 and 3; the result is the natural check on the two values; the return value is the round-over flag |
| Game.BlackjackGame.InitializeGame | Assets/Black.cs:54-59 | 48 cards remain and the cards are conserved; the hands are dealt as above; a natural sets the result and ends the round, otherwise both are left as they were |
| Game.BlackjackGame.CreateDeck | Assets/Black.cs:61-71 | the nested loops build exactly FullDeck |
| Game.BlackjackGame.ShuffleDeck | Assets/Black.cs:73-85 | the in-place loop leaves Shuffled(old deck, ks): same length and same cards |
| Game.BlackjackGame.DrawCard | Assets/Black.cs:87-98 | an empty deck yields None and stays empty; otherwise it returns the old front card and the deck loses exactly that card |
| Game.BlackjackGame.DealInitialCards | Assets/Black.cs:100-127 | the deck loses its first four cards to player, dealer, player, dealer; the two Hearts are added to the player; a full deck's cards are conserved; a natural sets the result and ends the round |
| Game.BlackjackGame.CheckNaturals | Assets/Black.cs:116-126 | a natural sets its result and ends the round; otherwise result and flag are unchanged |
| Game.BlackjackGame.PlayerHit | Assets/Black.cs:129-139 | an ended round is left alone; otherwise the player gets the front card and the round ends exactly when the new hand is over 21, with the player-busts result; validity is kept |
| Game.BlackjackGame.PlayerStand | Assets/Black.cs:141-148 | an ended round is left alone; otherwise the player's hand is unchanged; the dealer's hand extends the old one by DealerDraws front cards; it ends worth 17 to 26; the result is Winner on the final values; the round is over; validity is kept |
| Game.BlackjackGame.PlayerHandFits | Assets/Black.cs:129-148 | in a live valid round the player holds at most 21 cards and the deck at least 31 |
| Game.BlackjackGame.PlayDealerTurn | Assets/Black.cs:150-156 | the draw loop moves exactly the first DealerDraws cards of the deck onto the dealer's hand |
| Game.BlackjackGame.DetermineWinner | Assets/Black.cs:158-183 | the result is Winner on the two hand values |
| Game.BlackjackGame.DealerView | Assets/Black.cs:221-228 | a live round shows only the dealer's first card and marks the rest hidden; an ended round shows the whole hand |
| Game.BlackjackGame.GetGameResult | Assets/Black.cs:235-238 | the stored text; in a valid state it is empty exactly while the round is live |
| Game.BlackjackGame.CanPlayerHit | Assets/Black.cs:240-243 | true exactly when the round is live and the player's hand is worth at most 21 |
| Game.BlackjackGame.CanPlayerStand | Assets/Black.cs:245-248 | true exactly when the round is live |
| Game.StandTwice | Assets/Black.cs:141-148 | after a stand the round is over; a second stand changes nothing; neither query then allows a move |

## Left out

- `System.Random` in `ShuffleDeck` is replaced by the choice sequence `ks`. Its validity (`ks[j] < n - j`) is a precondition, because the generator's contract guarantees it.
- `Debug.Log` and `Debug.LogError` calls are left out; they have no effect on the state.
- `Card.ToString`, `GetPlayerHandAsString` and `GetHandAsString` format cards as text. They are not modelled: no method returns the player's hand, and callers read the field `playerHand` directly. `DealerView` returns the dealer's cards, with the hiding rule, instead of a text.
- `Assets/BlackjackUI.cs`, the presentation layer, is not part of this model.
- The source's `Card` is a reference type; the model's `Card` is a value, so card identity is equality of suit and rank.
- Before the first `StartNewGame` the source's lists and result text are `null`. The model starts with empty sequences and the pending result. `PlayerHit` and `PlayerStand` require `Valid()`, a state reached by `StartNewGame`; on a fresh object the source would fail on its `null` lists.
- CanPlayerHit, GetGameResult: on a fresh object the model's `CanPlayerHit` returns true, because an empty hand is worth 0, where the source throws a `NullReferenceException` in the `foreach` of `CalculateHandValue` (`Assets/Black.cs:190`, reached from line 242). The model's `GetGameResult` returns the empty text there, where the source returns `null`.
- StartNewGame and DealInitialCards: each natural check in the source calls `CalculateHandValue` up to three times (the `&&` short-circuits), and `DealInitialCards` calls it once more for its `Debug.Log` (line 113). The model computes each hand's value once, which gives the same results because the calls have no side effects.
- PlayerHit, PlayDealerTurn: the `null` that an empty deck would add to a hand is not modelled. `Valid()` proves the deck is never empty at those draws.
