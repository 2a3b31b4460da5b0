/**
 * Cards of a standard 52-card deck, and the deck in the order that the
 * engine's nested enumeration loops build it (suit-major, ranks in order).
 */
module Cards {

  datatype Suit = Hearts | Diamonds | Clubs | Spades

  datatype Rank = Ace | Two | Three | Four | Five | Six | Seven
                | Eight | Nine | Ten | Jack | Queen | King

  /** A card is an immutable (suit, rank) pair. */
  datatype Card = Card(suit: Suit, rank: Rank)

  /** The suits in enumeration order. */
  const Suits: seq<Suit> := [Hearts, Diamonds, Clubs, Spades]

  /** The ranks in enumeration order. */
  const Ranks: seq<Rank> := [Ace, Two, Three, Four, Five, Six, Seven,
                             Eight, Nine, Ten, Jack, Queen, King]

  /** The two cards the deal adds to the player's hand on top of the drawn ones. */
  const AceOfHearts: Card := Card(Hearts, Ace)
  const TenOfHearts: Card := Card(Hearts, Ten)

  /** Position of a suit in the enumeration. */
  function SuitIndex(s: Suit): (i: nat)
    ensures i < 4
  {
    match s
    case Hearts => 0
    case Diamonds => 1
    case Clubs => 2
    case Spades => 3
  }

  /** The enumeration's underlying number of a rank: Ace is 1, King is 13. */
  function RankNumber(r: Rank): (n: nat)
    ensures 1 <= n <= 13
  {
    match r
    case Ace => 1
    case Two => 2
    case Three => 3
    case Four => 4
    case Five => 5
    case Six => 6
    case Seven => 7
    case Eight => 8
    case Nine => 9
    case Ten => 10
    case Jack => 11
    case Queen => 12
    case King => 13
  }

  /** SuitIndex and RankNumber locate a suit and a rank in the enumerations. */
  lemma EnumerationPositions(s: Suit, r: Rank)
    ensures Suits[SuitIndex(s)] == s
    ensures Ranks[RankNumber(r) - 1] == r
  {
  }

  /** The deck as built before shuffling: the 13 ranks of each suit in turn. */
  function FullDeck(): (d: seq<Card>)
    ensures |d| == |Suits| * |Ranks| == 52
  {
    seq(52, i requires 0 <= i < 52 => Card(Suits[i / 13], Ranks[i % 13]))
  }

  /** Where a card sits in the unshuffled deck. */
  function DeckIndex(c: Card): (i: nat)
    ensures i < 52
  {
    13 * SuitIndex(c.suit) + RankNumber(c.rank) - 1
  }

  lemma FullDeckAt(s: nat, r: nat)
    requires s < 4 && r < 13
    ensures FullDeck()[13 * s + r] == Card(Suits[s], Ranks[r])
  {
    var i := 13 * s + r;
    assert i / 13 == s && i % 13 == r;
  }

  /** Every card of the 4 x 13 universe occurs in the unshuffled deck, at DeckIndex. */
  lemma FullDeckHasEveryCard(c: Card)
    ensures FullDeck()[DeckIndex(c)] == c
  {
    EnumerationPositions(c.suit, c.rank);
    FullDeckAt(SuitIndex(c.suit), RankNumber(c.rank) - 1);
  }

  /** DeckIndex is the inverse of indexing the unshuffled deck. */
  lemma DeckIndexOfFullDeck(i: nat)
    requires i < 52
    ensures DeckIndex(FullDeck()[i]) == i
  {
    var s, r := i / 13, i % 13;
    assert i == 13 * s + r;
    FullDeckAt(s, r);
  }

  /** A prefix one longer is the prefix followed by the next element. */
  lemma PrefixGrows<T>(s: seq<T>, k: nat)
    requires k < |s|
    ensures s[..k + 1] == s[..k] + [s[k]]
  {
  }

  /** Dropping the first element of a suffix gives the next suffix. */
  lemma SuffixShrinks<T>(s: seq<T>, k: nat)
    requires k < |s|
    ensures s[k..][0] == s[k] && s[k..][1..] == s[k + 1..]
  {
  }

  ghost predicate Distinct<T>(s: seq<T>)
  {
    forall i, j :: 0 <= i < j < |s| ==> s[i] != s[j]
  }

  lemma {:induction false} DistinctOccursOnce<T>(s: seq<T>, x: T)
    requires Distinct(s) && x in s
    ensures multiset(s)[x] == 1
  {
    assert s == [s[0]] + s[1..];
    if s[0] == x {
      assert x !in s[1..] by {
        forall k | 0 <= k < |s[1..]| ensures s[1..][k] != x {
          assert s[1..][k] == s[k + 1];
        }
      }
    } else {
      assert Distinct(s[1..]) by {
        forall i, j | 0 <= i < j < |s[1..]| ensures s[1..][i] != s[1..][j] {
          assert s[1..][i] == s[i + 1] && s[1..][j] == s[j + 1];
        }
      }
      DistinctOccursOnce(s[1..], x);
    }
  }

  /** The unshuffled deck has 52 cards and holds each (suit, rank) pair exactly once. */
  lemma FullDeckIsExact()
    ensures |FullDeck()| == 52
    ensures Distinct(FullDeck())
    ensures forall c: Card :: multiset(FullDeck())[c] == 1
  {
    var d := FullDeck();
    forall i, j | 0 <= i < j < |d| ensures d[i] != d[j] {
      DeckIndexOfFullDeck(i);
      DeckIndexOfFullDeck(j);
    }
    forall c: Card ensures multiset(d)[c] == 1 {
      FullDeckHasEveryCard(c);
      DistinctOccursOnce(d, c);
    }
  }
}
