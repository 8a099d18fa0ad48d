/**
 * The deck of MemoryGame.shuffleCards (site/game.js:146-152): every pair
 * becomes a front card and a back card that share the pair's index as
 * their `id`, and the cards are then put in random order.
 */
module Deck {

  import opened JsonValue

  /**
   * One card: the pair's members spread into the card, its face and the
   * index of its pair. The `isFlipped: false` member is never read and is
   * not kept.
   */
  datatype Card = Card(pair: Json, isFront: bool, id: nat)

  /** The flatMap of shuffleCards: pair k gives the cards at 2k (front) and 2k + 1 (back). */
  function Expand(pairs: seq<Json>): (cards: seq<Card>)
    ensures |cards| == 2 * |pairs|
    ensures forall i :: 0 <= i < |cards| ==> cards[i] == Card(pairs[i / 2], i % 2 == 0, i / 2)
    decreases |pairs|
  {
    if |pairs| == 0 then []
    else
      var n := |pairs| - 1;
      var cards := Expand(pairs[..n]) + [Card(pairs[n], true, n), Card(pairs[n], false, n)];
      assert forall i :: 2 * n <= i < 2 * n + 2 ==> i / 2 == n;
      cards
  }

  /** `deck` is an order the sort with a random comparator may produce: a permutation of the expansion. */
  predicate IsShuffleOf(deck: seq<Card>, pairs: seq<Json>)
  {
    multiset(deck) == multiset(Expand(pairs))
  }

  /** Some card of `cards` has pair index `id` and face `isFront`. */
  ghost predicate HasCard(cards: seq<Card>, id: nat, isFront: bool)
  {
    exists i :: 0 <= i < |cards| && cards[i].id == id && cards[i].isFront == isFront
  }

  /**
   * A well-formed deck of |cards| / 2 pairs: every id below |cards| / 2 has
   * exactly one front card and exactly one back card.
   */
  ghost predicate IsDeck(cards: seq<Card>)
  {
    && |cards| % 2 == 0
    && (forall i :: 0 <= i < |cards| ==> cards[i].id < |cards| / 2)
    && (forall i, j :: 0 <= i < j < |cards| && cards[i].id == cards[j].id ==> cards[i].isFront != cards[j].isFront)
    && (forall id: nat, isFront: bool :: id < |cards| / 2 ==> HasCard(cards, id, isFront))
  }

  /** Every card of the expansion carries its own pair and an id in range. */
  lemma ExpandCards(pairs: seq<Json>, c: Card)
    requires c in Expand(pairs)
    ensures c.id < |pairs| && c == Card(pairs[c.id], c.isFront, c.id)
  {
    var cards := Expand(pairs);
    var i :| 0 <= i < |cards| && cards[i] == c;
  }

  /** The expansion holds no card twice. */
  lemma ExpandDistinct(pairs: seq<Json>, i: nat, j: nat)
    requires i < j < |Expand(pairs)|
    ensures Expand(pairs)[i] != Expand(pairs)[j]
  {
    var cards := Expand(pairs);
    if i / 2 == j / 2 {
      assert i % 2 == 0 && j % 2 == 1;
    }
  }

  /** A value at two positions of a sequence occurs at least twice in its multiset. */
  lemma {:induction false} RepeatedElement<T>(s: seq<T>, i: nat, j: nat)
    requires i < j < |s| && s[i] == s[j]
    ensures multiset(s)[s[i]] >= 2
  {
    assert s == s[..j] + [s[j]] + s[j + 1..];
    assert s[i] in s[..j];
    assert multiset(s[..j])[s[i]] >= 1;
  }

  /** In a sequence without repeated elements every value occurs at most once. */
  lemma {:induction false} DistinctOnce<T>(s: seq<T>, x: T)
    requires forall i, j :: 0 <= i < j < |s| ==> s[i] != s[j]
    ensures multiset(s)[x] <= 1
    decreases |s|
  {
    if |s| > 0 {
      var t := s[..|s| - 1];
      assert s == t + [s[|s| - 1]];
      DistinctOnce(t, x);
      if x == s[|s| - 1] {
        assert x !in t;
      }
    }
  }

  /**
   * Any shuffle of the expansion of n pairs has 2n cards, is a deck of n
   * pairs, holds both cards of every pair and only those, and each card
   * carries the members of its own pair.
   */
  lemma ShuffleIsDeck(deck: seq<Card>, pairs: seq<Json>)
    requires IsShuffleOf(deck, pairs)
    ensures |deck| == 2 * |pairs|
    ensures IsDeck(deck)
    ensures forall i :: 0 <= i < |deck| ==> deck[i].id < |pairs| && deck[i].pair == pairs[deck[i].id]
    ensures forall k, isFront :: 0 <= k < |pairs| ==> Card(pairs[k], isFront, k) in deck
  {
    ShuffleLength(deck, pairs);
    ShuffleCardsOwnPair(deck, pairs);
    ShuffleNoTwins(deck, pairs);
    ShuffleHoldsEveryCard(deck, pairs);
    forall id: nat, isFront: bool | id < |deck| / 2
      ensures HasCard(deck, id, isFront)
    {
      var c := Card(pairs[id], isFront, id);
      assert c in deck;
      var i :| 0 <= i < |deck| && deck[i] == c;
    }
  }

  /** A shuffle has as many cards as the expansion. */
  lemma ShuffleLength(deck: seq<Card>, pairs: seq<Json>)
    requires IsShuffleOf(deck, pairs)
    ensures |deck| == 2 * |pairs|
  {
    var cards := Expand(pairs);
    assert |deck| == |multiset(deck)| == |multiset(cards)| == |cards|;
  }

  /** Every card of a shuffle carries the members of its own pair. */
  lemma ShuffleCardsOwnPair(deck: seq<Card>, pairs: seq<Json>)
    requires IsShuffleOf(deck, pairs)
    ensures forall i :: 0 <= i < |deck| ==>
      deck[i].id < |pairs| && deck[i] == Card(pairs[deck[i].id], deck[i].isFront, deck[i].id)
  {
    forall i | 0 <= i < |deck|
      ensures deck[i].id < |pairs| && deck[i] == Card(pairs[deck[i].id], deck[i].isFront, deck[i].id)
    {
      assert deck[i] in multiset(Expand(pairs));
      ExpandCards(pairs, deck[i]);
    }
  }

  /** Two cards of a shuffle with the same id show opposite faces. */
  lemma ShuffleNoTwins(deck: seq<Card>, pairs: seq<Json>)
    requires IsShuffleOf(deck, pairs)
    ensures forall i, j :: 0 <= i < j < |deck| && deck[i].id == deck[j].id ==> deck[i].isFront != deck[j].isFront
  {
    ShuffleCardsOwnPair(deck, pairs);
    var cards := Expand(pairs);
    forall a, b | 0 <= a < b < |cards| ensures cards[a] != cards[b] {
      ExpandDistinct(pairs, a, b);
    }
    forall i, j | 0 <= i < j < |deck| && deck[i].id == deck[j].id
      ensures deck[i].isFront != deck[j].isFront
    {
      if deck[i].isFront == deck[j].isFront {
        assert deck[i] == deck[j];
        RepeatedElement(deck, i, j);
        DistinctOnce(cards, deck[i]);
        assert false;
      }
    }
  }

  /** A shuffle holds both cards of every pair. */
  lemma ShuffleHoldsEveryCard(deck: seq<Card>, pairs: seq<Json>)
    requires IsShuffleOf(deck, pairs)
    ensures forall k, isFront :: 0 <= k < |pairs| ==> Card(pairs[k], isFront, k) in deck
  {
    var cards := Expand(pairs);
    forall k, isFront | 0 <= k < |pairs|
      ensures Card(pairs[k], isFront, k) in deck
    {
      var c := Card(pairs[k], isFront, k);
      var i := if isFront then 2 * k else 2 * k + 1;
      assert i / 2 == k && (i % 2 == 0 <==> isFront);
      assert c == cards[i];
      assert c in multiset(cards);
    }
  }

}
