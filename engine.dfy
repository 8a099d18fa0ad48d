/**
 * The match engine of MemoryGame (site/game.js:186-262) as a state
 * machine over the four fields the game updates, plus the two timer
 * continuations that are waiting in the event loop.
 */
module Engine {

  import opened Wrappers
  import opened JsonValue
  import opened Deck

  /**
   * `cards`, `flippedCards` (indices into `cards`), `matchedPairs` (pair
   * ids) and `isGameActive`; `clearPending` and `completionPending` say
   * whether the mismatch timer (site/game.js:240-245) or the completion
   * timer (site/game.js:233) has been scheduled and has not fired yet.
   */
  datatype Session = Session(cards: seq<Card>, flipped: seq<nat>, matched: seq<nat>, active: bool,
                             clearPending: bool, completionPending: bool)

  /** The fields as the constructor leaves them (site/game.js:6-9). */
  const Initial := Session([], [], [], false, false, false)

  predicate Distinct(s: seq<nat>)
  {
    forall i, j :: 0 <= i < j < |s| ==> s[i] != s[j]
  }

  /** The guard of handleCardClick (site/game.js:187-194): any of the four makes the click a no-op. */
  predicate Ignored(s: Session, index: nat)
    requires index < |s.cards|
  {
    !s.active || |s.flipped| >= 2 || s.cards[index].id in s.matched || index in s.flipped
  }

  /** checkForMatch's test (site/game.js:211-215). */
  predicate IsMatch(s: Session, first: nat, second: nat)
    requires first < |s.cards| && second < |s.cards|
  {
    var a, b := s.cards[first], s.cards[second];
    a.id == b.id && a.isFront != b.isFront && a.id !in s.matched
  }

  /**
   * handleMatch (site/game.js:222-237): the pair's id joins the matched ids,
   * the completion is scheduled when every pair is matched, and the
   * flipped cards are let go.
   */
  function Matched(s: Session, first: nat): (r: Session)
    requires first < |s.cards|
    ensures r.matched == s.matched + [s.cards[first].id] && r.flipped == []
    ensures r.completionPending <==> s.completionPending || 2 * |r.matched| == |s.cards|
    ensures r.cards == s.cards && r.active == s.active && r.clearPending == s.clearPending
  {
    var matched := s.matched + [s.cards[first].id];
    s.(matched := matched, completionPending := s.completionPending || 2 * |matched| == |s.cards|, flipped := [])
  }

  /** checkForMatch on the two flipped cards (site/game.js:207-219); a mismatch only schedules the clear (239-246). */
  function Resolve(s: Session): Session
    requires |s.flipped| == 2 && s.flipped[0] < |s.cards| && s.flipped[1] < |s.cards|
  {
    if IsMatch(s, s.flipped[0], s.flipped[1]) then Matched(s, s.flipped[0])
    else s.(clearPending := true)
  }

  /** handleCardClick (site/game.js:186-204). */
  function Click(s: Session, index: nat): Session
    requires index < |s.cards|
    requires forall k :: 0 <= k < |s.flipped| ==> s.flipped[k] < |s.cards|
  {
    if Ignored(s, index) then s
    else
      var t := s.(flipped := s.flipped + [index]);
      if |t.flipped| == 2 then Resolve(t) else t
  }

  /** The mismatch timer firing (site/game.js:240-245). */
  function ClearFlipped(s: Session): Session
  {
    s.(flipped := [], clearPending := false)
  }

  /** The completion timer firing: handleGameComplete (site/game.js:248-251). */
  function Complete(s: Session): Session
  {
    s.(active := false, completionPending := false)
  }

  /** The reset of a successful initializeGame (site/game.js:123, 127-129). */
  function Deal(s: Session, deck: seq<Card>): Session
  {
    s.(cards := deck, active := true, flipped := [], matched := [])
  }

  /** The `filter` of showRandomHint (site/game.js:256-258): the cards whose pair is not matched yet, in deck order. */
  function Unmatched(cards: seq<Card>, matched: seq<nat>): (r: seq<Card>)
    ensures forall c :: c in r <==> c in cards && c.id !in matched
    ensures |r| == 0 <==> forall i :: 0 <= i < |cards| ==> cards[i].id in matched
    ensures |r| <= |cards|
  {
    if |cards| == 0 then []
    else
      var rest := Unmatched(cards[1..], matched);
      assert cards == [cards[0]] + cards[1..];
      if cards[0].id in matched then rest else [cards[0]] + rest
  }

  /** The hint for a card (site/game.js:261-262): `front` as a template literal shows it, "undefined" when absent. */
  function HintText(card: Card): string
  {
    "Try to find the match for: " + Display(Member(card.pair, "front"))
  }

  /** The hints showRandomHint may show (site/game.js:253-262): None when it returns early. */
  predicate IsHintFor(s: Session, hint: Option<string>)
  {
    if !s.active || |s.cards| == 0 || |Unmatched(s.cards, s.matched)| == 0 then hint == None
    else exists c :: c in Unmatched(s.cards, s.matched) && hint == Some(HintText(c))
  }

  // ---------------------------------------------------------------------
  // The invariant

  /**
   * What every reachable session satisfies: a well-formed deck; at most
   * two distinct flipped cards, none of them matched; distinct matched ids
   * in range; the clear timer pending exactly while two cards are flipped;
   * the completion timer pending only in a running game whose pairs are
   * all matched; and a stopped game with every pair matched.
   */
  ghost predicate Inv(s: Session)
  {
    && IsDeck(s.cards)
    && |s.flipped| <= 2
    && (forall k :: 0 <= k < |s.flipped| ==> s.flipped[k] < |s.cards| && s.cards[s.flipped[k]].id !in s.matched)
    && Distinct(s.flipped)
    && Distinct(s.matched)
    && (forall k :: 0 <= k < |s.matched| ==> s.matched[k] < |s.cards| / 2)
    && (s.clearPending <==> |s.flipped| == 2)
    && (s.completionPending ==> s.active && s.flipped == [] && 2 * |s.matched| == |s.cards|)
    && (!s.active ==> s.flipped == [] && !s.clearPending && 2 * |s.matched| == |s.cards|)
  }

  lemma InitialInv()
    ensures Inv(Initial)
  {
  }

  /** The ids below n. */
  function Below(n: nat): (r: set<nat>)
    ensures forall i: nat :: i in r <==> i < n
    ensures |r| == n
  {
    if n == 0 then {} else Below(n - 1) + {n - 1}
  }

  /** The values of a sequence. */
  function Elements(s: seq<nat>): (r: set<nat>)
    ensures forall x :: x in r <==> x in s
  {
    if |s| == 0 then {} else Elements(s[..|s| - 1]) + {s[|s| - 1]}
  }

  /** The values of a sequence without repetitions are as many as its length. */
  lemma {:induction false} DistinctCard(s: seq<nat>)
    requires Distinct(s)
    ensures |Elements(s)| == |s|
    decreases |s|
  {
    if |s| > 0 {
      var t := s[..|s| - 1];
      DistinctCard(t);
      assert s[|s| - 1] !in Elements(t);
    }
  }

  /** A subset has no more elements than its superset. */
  lemma {:induction false} SubsetCard(a: set<nat>, b: set<nat>)
    requires a <= b
    ensures |a| <= |b|
    decreases |a|
  {
    if a != {} {
      var x :| x in a;
      SubsetCard(a - {x}, b - {x});
    }
  }

  /**
   * Pigeonhole on the matched ids: distinct ids below n are all of them
   * exactly when there are n of them.
   */
  lemma MatchedCoverage(matched: seq<nat>, n: nat)
    requires Distinct(matched) && forall k :: 0 <= k < |matched| ==> matched[k] < n
    ensures |matched| <= n
    ensures |matched| == n <==> forall id: nat :: id < n ==> id in matched
  {
    var ids := Elements(matched);
    DistinctCard(matched);
    SubsetCard(ids, Below(n));
    if |matched| == n {
      if exists id: nat :: id < n && id !in matched {
        var id: nat :| id < n && id !in matched;
        SubsetCard(ids, Below(n) - {id});
      }
    } else if forall id: nat :: id < n ==> id in matched {
      SubsetCard(Below(n), ids);
    }
  }

  // ---------------------------------------------------------------------
  // One step at a time

  /** Two different cards of a deck with the same id are the two faces of one pair. */
  lemma SameIdOppositeFaces(cards: seq<Card>, a: nat, b: nat)
    requires IsDeck(cards) && a < |cards| && b < |cards| && a != b
    requires cards[a].id == cards[b].id
    ensures cards[a].isFront != cards[b].isFront
  {
    if b < a {
      assert cards[b].isFront != cards[a].isFront;
    }
  }

  /**
   * Between two different unmatched cards of a deck, checkForMatch declares
   * a match exactly when they belong to the same pair.
   */
  lemma MatchIffSamePair(s: Session, a: nat, b: nat)
    requires IsDeck(s.cards) && a < |s.cards| && b < |s.cards| && a != b
    requires s.cards[a].id !in s.matched
    ensures IsMatch(s, a, b) <==> s.cards[a].id == s.cards[b].id
  {
    if s.cards[a].id == s.cards[b].id {
      SameIdOppositeFaces(s.cards, a, b);
    }
  }

  /** When every pair is matched, every card of the deck is matched. */
  lemma AllMatchedCoversDeck(s: Session)
    requires IsDeck(s.cards) && Distinct(s.matched)
    requires forall k :: 0 <= k < |s.matched| ==> s.matched[k] < |s.cards| / 2
    requires 2 * |s.matched| == |s.cards|
    ensures forall i :: 0 <= i < |s.cards| ==> s.cards[i].id in s.matched
  {
    MatchedCoverage(s.matched, |s.cards| / 2);
  }

  /** While a pair is unmatched, some card of it is still on the table. */
  lemma SomeCardUnmatched(s: Session)
    requires IsDeck(s.cards) && Distinct(s.matched)
    requires forall k :: 0 <= k < |s.matched| ==> s.matched[k] < |s.cards| / 2
    requires 2 * |s.matched| < |s.cards|
    ensures exists i :: 0 <= i < |s.cards| && s.cards[i].id !in s.matched
  {
    MatchedCoverage(s.matched, |s.cards| / 2);
    var id: nat :| id < |s.cards| / 2 && id !in s.matched;
    assert HasCard(s.cards, id, true);
  }

  /**
   * What a click does in a reachable session: nothing when the guard
   * holds; otherwise the card is flipped, and on the second card the pair
   * is matched (its id joins the matched ids, both cards are let go and the
   * completion is scheduled exactly when every pair is matched) or both
   * cards stay flipped with the clear scheduled.
   */
  lemma ClickOutcome(s: Session, index: nat)
    requires Inv(s) && index < |s.cards|
    ensures Ignored(s, index) ==> Click(s, index) == s
    ensures !Ignored(s, index) && |s.flipped| == 0 ==> Click(s, index) == s.(flipped := [index])
    ensures !Ignored(s, index) && |s.flipped| == 1 ==>
              var r := Click(s, index);
              var first := s.flipped[0];
              && r.cards == s.cards && r.active == s.active
              && (s.cards[first].id == s.cards[index].id ==>
                    && r.matched == s.matched + [s.cards[index].id] && r.flipped == [] && !r.clearPending
                    && (r.completionPending <==> 2 * |r.matched| == |s.cards|))
              && (s.cards[first].id != s.cards[index].id ==>
                    r == s.(flipped := [first, index], clearPending := true))
  {
    if !Ignored(s, index) && |s.flipped| == 1 {
      var t := s.(flipped := s.flipped + [index]);
      assert t.flipped == [s.flipped[0], index];
      MatchIffSamePair(t, s.flipped[0], index);
    }
  }

  /** A click keeps the invariant. */
  lemma ClickPreservesInv(s: Session, index: nat)
    requires Inv(s) && index < |s.cards|
    ensures Inv(Click(s, index))
  {
    ClickOutcome(s, index);
    if !Ignored(s, index) && s.completionPending {
      AllMatchedCoversDeck(s);
      assert false;
    }
    if !Ignored(s, index) && |s.flipped| == 1 && s.cards[s.flipped[0]].id == s.cards[index].id {
      var r := Click(s, index);
      assert r.matched[|s.matched|] == s.cards[index].id;
    }
  }

  /** The mismatch timer lets both cards go and keeps the invariant. */
  lemma ClearFlippedPreservesInv(s: Session)
    requires Inv(s) && s.clearPending
    ensures Inv(ClearFlipped(s))
    ensures ClearFlipped(s).flipped == [] && ClearFlipped(s).matched == s.matched
  {
  }

  /**
   * The completion timer ends a game whose pairs are all matched: afterwards
   * the game is inactive and every card of the deck is matched.
   */
  lemma CompleteEndsGame(s: Session)
    requires Inv(s) && s.completionPending
    ensures Inv(Complete(s)) && !Complete(s).active
    ensures forall i :: 0 <= i < |s.cards| ==> s.cards[i].id in Complete(s).matched
  {
    AllMatchedCoversDeck(s);
  }

  /** A stopped game has every card matched. */
  lemma InactiveMeansAllMatched(s: Session)
    requires Inv(s) && !s.active
    ensures forall i :: 0 <= i < |s.cards| ==> s.cards[i].id in s.matched
  {
    AllMatchedCoversDeck(s);
  }

  /** A deal of a well-formed deck, with no timer left, starts a fresh running game. */
  lemma DealPreservesInv(s: Session, deck: seq<Card>)
    requires IsDeck(deck) && !s.clearPending && !s.completionPending
    ensures Inv(Deal(s, deck))
  {
  }

  /**
   * showRandomHint shows a hint in a reachable session exactly when the game
   * runs and some pair is still unmatched; the hinted card is unmatched.
   */
  lemma HintOffered(s: Session)
    requires Inv(s)
    ensures (s.active && |s.cards| > 0 && |Unmatched(s.cards, s.matched)| > 0) <==> (s.active && 2 * |s.matched| < |s.cards|)
    ensures forall c :: c in Unmatched(s.cards, s.matched) ==> c.id !in s.matched
  {
    if 2 * |s.matched| < |s.cards| {
      SomeCardUnmatched(s);
      var i :| 0 <= i < |s.cards| && s.cards[i].id !in s.matched;
      assert s.cards[i] in Unmatched(s.cards, s.matched);
    } else {
      MatchedCoverage(s.matched, |s.cards| / 2);
      AllMatchedCoversDeck(s);
    }
  }

  // ---------------------------------------------------------------------
  // Runs of events

  /** What the event loop may deliver to the engine. */
  datatype Event = ClickCard(index: nat) | MismatchTimeout | CompletionTimeout | NewGame(deck: seq<Card>)

  /**
   * Events that can happen in `s`: a click on a rendered card, a timer that
   * is pending, or a deal once no timer is pending.
   */
  ghost predicate Enabled(s: Session, e: Event)
  {
    match e
    case ClickCard(index) => index < |s.cards| && forall k :: 0 <= k < |s.flipped| ==> s.flipped[k] < |s.cards|
    case MismatchTimeout => s.clearPending
    case CompletionTimeout => s.completionPending
    case NewGame(deck) => IsDeck(deck) && !s.clearPending && !s.completionPending
  }

  ghost function Step(s: Session, e: Event): Session
    requires Enabled(s, e)
  {
    match e
    case ClickCard(index) => Click(s, index)
    case MismatchTimeout => ClearFlipped(s)
    case CompletionTimeout => Complete(s)
    case NewGame(deck) => Deal(s, deck)
  }

  ghost predicate CanRun(s: Session, events: seq<Event>)
    decreases |events|
  {
    |events| == 0 || (Enabled(s, events[0]) && CanRun(Step(s, events[0]), events[1..]))
  }

  ghost function Run(s: Session, events: seq<Event>): Session
    requires CanRun(s, events)
    decreases |events|
  {
    if |events| == 0 then s else Run(Step(s, events[0]), events[1..])
  }

  lemma StepPreservesInv(s: Session, e: Event)
    requires Inv(s) && Enabled(s, e)
    ensures Inv(Step(s, e))
  {
    match e
    case ClickCard(index) => ClickPreservesInv(s, index);
    case MismatchTimeout =>
    case CompletionTimeout =>
    case NewGame(deck) =>
  }

  /** Every session reached from the initial one by enabled events satisfies the invariant. */
  lemma {:induction false} RunPreservesInv(s: Session, events: seq<Event>)
    requires Inv(s) && CanRun(s, events)
    ensures Inv(Run(s, events))
    decreases |events|
  {
    if |events| > 0 {
      StepPreservesInv(s, events[0]);
      RunPreservesInv(Step(s, events[0]), events[1..]);
    }
  }

  /** Within one game (no new deal) the matched ids only grow: the old ones stay a prefix. */
  lemma {:induction false} MatchedOnlyGrows(s: Session, events: seq<Event>)
    requires Inv(s) && CanRun(s, events)
    requires forall k :: 0 <= k < |events| ==> !events[k].NewGame?
    ensures s.matched <= Run(s, events).matched
    ensures Run(s, events).cards == s.cards
    decreases |events|
  {
    if |events| > 0 {
      var t := Step(s, events[0]);
      StepPreservesInv(s, events[0]);
      MatchedOnlyGrows(t, events[1..]);
    }
  }

  /** A game that has ended stays ended, with nothing changing, until a new deal. */
  lemma {:induction false} EndedGameStaysEnded(s: Session, events: seq<Event>)
    requires Inv(s) && !s.active && CanRun(s, events)
    requires forall k :: 0 <= k < |events| ==> !events[k].NewGame?
    ensures Run(s, events) == s
    decreases |events|
  {
    if |events| > 0 {
      assert events[0].ClickCard?;
      EndedGameStaysEnded(s, events[1..]);
    }
  }
}
