/**
 * MemoryGame (site/game.js): the four fields the match engine updates.
 * Every method is proved to move them as the Engine functions say; the
 * event handlers also keep Engine.Inv, while the steps inside a click run
 * on intermediate states.
 */
module Game {

  import opened Wrappers
  import opened JsonValue
  import opened Deck
  import Engine
  import Llm

  /**
   * The category table of site/categories.js:1-56, keyed as there; each
   * entry has a display name (its icon is not kept) and none has `pairs`.
   */
  const Catalog: map<string, Json> := map[
    "VOCABULARY" := Entry("Vocabulary"),
    "CAPITALS" := Entry("World Capitals"),
    "CHEMISTRY" := Entry("Chemistry"),
    "SCIENCE" := Entry("Science"),
    "MATH" := Entry("Math"),
    "CODING" := Entry("Coding"),
    "MUSIC" := Entry("Music"),
    "SPACE" := Entry("Space"),
    "ANIMALS" := Entry("Animals")
  ]

  function Entry(name: string): Json
  {
    JObject(map["name" := JString(name)])
  }

  /** `CATEGORIES[category]?.pairs` (site/game.js:119). */
  function CatalogPairs(category: string): Option<Json>
  {
    if category in Catalog then Member(Catalog[category], "pairs") else None
  }

  /** No category carries pairs of its own, so initializeGame always asks the generator. */
  lemma CatalogHasNoPairs(category: string)
    ensures CatalogPairs(category) == None
  {
  }

  /** The text initializeGame hands to the generator (site/game.js:115-121). */
  function GeneratorInput(category: string, customPrompt: string): string
  {
    if category == "CUSTOM" then customPrompt else category
  }

  /**
   * shuffleCards (site/game.js:146-152): the sort with a random comparator
   * may put the expanded cards in any order.
   */
  method ShuffleCards(pairs: seq<Json>) returns (deck: seq<Card>)
    ensures IsShuffleOf(deck, pairs)
    ensures |deck| == 2 * |pairs| && IsDeck(deck)
    ensures forall i :: 0 <= i < |deck| ==> deck[i].id < |pairs| && deck[i].pair == pairs[deck[i].id]
  {
    assert IsShuffleOf(Expand(pairs), pairs);
    deck :| IsShuffleOf(deck, pairs);
    ShuffleIsDeck(deck, pairs);
  }

  class MemoryGame {
    var cards: seq<Card>
    var flippedCards: seq<nat>
    var matchedPairs: seq<nat>
    var isGameActive: bool
    var llm: Llm.GameLLM
    /** The mismatch continuation (site/game.js:240-245) is waiting in the event loop. */
    ghost var clearTimerPending: bool
    /** The completion continuation (site/game.js:233) is waiting in the event loop. */
    ghost var completionTimerPending: bool

    ghost function State(): Engine.Session
      reads this
    {
      Engine.Session(cards, flippedCards, matchedPairs, isGameActive, clearTimerPending, completionTimerPending)
    }

    ghost predicate Valid()
      reads this, llm
    {
      Engine.Inv(State()) && llm.Valid()
    }

    /**
     * The constructor (site/game.js:5-16) without its call to initLLM,
     * which is the separate step InitLLM. The field `llm` holds a wrapper
     * that has not loaded, so that the class is well formed before that
     * step; InitLLM replaces it.
     */
    constructor()
      ensures Valid() && State() == Engine.Initial
      ensures fresh(llm) && !llm.isReady && !llm.hasCallback && !llm.modelLoaded
    {
      cards := [];
      flippedCards := [];
      matchedPairs := [];
      isGameActive := false;
      clearTimerPending := false;
      completionTimerPending := false;
      llm := new Llm.GameLLM();
    }

    /**
     * initLLM (site/game.js:72-79): a fresh wrapper (line 74) is put in
     * place and loads the model; a failed load is only logged.
     */
    method InitLLM(loadSucceeds: bool)
      requires Valid()
      modifies this
      ensures Valid() && State() == old(State())
      ensures fresh(llm)
      ensures llm.hasCallback && llm.isReady == loadSucceeds && llm.modelLoaded == loadSucceeds
    {
      llm := new Llm.GameLLM();
      var _ := llm.Init(loadSucceeds);
    }

    /** handleCardClick (site/game.js:186-204). */
    method HandleCardClick(index: nat)
      requires Valid() && index < |cards|
      modifies this
      ensures Valid() && llm == old(llm)
      ensures State() == Engine.Click(old(State()), index)
    {
      ghost var before := State();
      if !isGameActive || |flippedCards| >= 2 || cards[index].id in matchedPairs || index in flippedCards {
        return;
      }
      flippedCards := flippedCards + [index];
      if |flippedCards| == 2 {
        CheckForMatch();
      }
      Engine.ClickPreservesInv(before, index);
    }

    /** checkForMatch (site/game.js:206-219). */
    method CheckForMatch()
      requires |flippedCards| == 2 && flippedCards[0] < |cards| && flippedCards[1] < |cards|
      modifies this
      ensures llm == old(llm)
      ensures State() == Engine.Resolve(old(State()))
    {
      var first, second := flippedCards[0], flippedCards[1];
      var a, b := cards[first], cards[second];
      if a.id == b.id && a.isFront != b.isFront && a.id !in matchedPairs {
        HandleMatch(first, second);
      } else {
        HandleMismatch(first, second);
      }
    }

    /**
     * handleMatch (site/game.js:222-237); `second` only marks the card on
     * screen. The explanation shown as a hint is not kept.
     */
    method HandleMatch(first: nat, second: nat)
      requires first < |cards|
      modifies this
      ensures llm == old(llm)
      ensures State() == Engine.Matched(old(State()), first)
    {
      matchedPairs := matchedPairs + [cards[first].id];
      if 2 * |matchedPairs| == |cards| {
        completionTimerPending := true;
      }
      flippedCards := [];
    }

    /** handleMismatch (site/game.js:239-246): only schedules the clear. */
    method HandleMismatch(first: nat, second: nat)
      modifies this
      ensures llm == old(llm)
      ensures State() == old(State()).(clearPending := true)
    {
      clearTimerPending := true;
    }

    /** The continuation of handleMismatch, one second later (site/game.js:240-245). */
    method OnMismatchTimeout()
      requires Valid() && clearTimerPending
      modifies this
      ensures Valid() && llm == old(llm)
      ensures State() == Engine.ClearFlipped(old(State()))
      ensures flippedCards == [] && matchedPairs == old(matchedPairs)
    {
      flippedCards := [];
      clearTimerPending := false;
    }

    /** handleGameComplete, run by the completion timer (site/game.js:233, 248-251). */
    method HandleGameComplete()
      requires Valid() && completionTimerPending
      modifies this
      ensures Valid() && llm == old(llm)
      ensures State() == Engine.Complete(old(State()))
      ensures !isGameActive && forall i :: 0 <= i < |cards| ==> cards[i].id in matchedPairs
    {
      Engine.CompleteEndsGame(State());
      isGameActive := false;
      completionTimerPending := false;
    }

    /**
     * showRandomHint (site/game.js:253-263): the hint it shows, None when
     * it returns early; the random index is any index of the unmatched cards.
     */
    method ShowRandomHint() returns (hint: Option<string>)
      requires Valid()
      ensures Engine.IsHintFor(State(), hint)
      ensures hint.Some? <==> isGameActive && 2 * |matchedPairs| < |cards|
    {
      Engine.HintOffered(State());
      if !isGameActive || |cards| == 0 {
        return None;
      }
      var unmatched := Engine.Unmatched(cards, matchedPairs);
      if |unmatched| == 0 {
        return None;
      }
      var k :| 0 <= k < |unmatched|;
      hint := Some(Engine.HintText(unmatched[k]));
    }

    /**
     * The part of initializeGame that obtains the pairs (site/game.js:108-121):
     * loads the model when it is not ready, then asks the generator. None
     * stands for an exception that reaches the `catch` at site/game.js:131.
     */
    method AcquirePairs(category: string, customPrompt: string, loadSucceeds: bool,
                        response: Option<string>, parse: string -> Option<Json>)
      returns (pairs: Option<seq<Json>>)
      requires llm.Valid()
      modifies llm
      ensures llm.Valid()
      ensures old(llm.isReady) ==>
                llm.isReady && llm.hasCallback == old(llm.hasCallback) && llm.modelLoaded == old(llm.modelLoaded)
      ensures !old(llm.isReady) ==>
                llm.hasCallback && llm.isReady == loadSucceeds && llm.modelLoaded == (old(llm.modelLoaded) || loadSucceeds)
      ensures pairs.Some? <==>
                llm.isReady
                && Llm.PairsOutcome(llm.hasCallback, llm.modelLoaded, GeneratorInput(category, customPrompt), response, parse).Success?
      ensures pairs.Some? ==>
                pairs.value == Llm.PairsOutcome(llm.hasCallback, llm.modelLoaded, GeneratorInput(category, customPrompt), response, parse).pairs
                && |pairs.value| == Llm.PairCount
    {
      if !llm.isReady {
        var ready := llm.Init(loadSucceeds);
        if !ready {
          return None;
        }
      }
      CatalogHasNoPairs(category);
      var generated := llm.GenerateCategoryPairs(GeneratorInput(category, customPrompt), response, parse);
      if generated.Failure? {
        return None;
      }
      pairs := Some(generated.pairs);
    }

    /**
     * initializeGame (site/game.js:104-136). `loadSucceeds` is how loading
     * the model would end if it is not ready yet, `response` the
     * generator's answer and `parse` JSON.parse. It answers whether the new
     * game started; on any failure the game is left as it was.
     */
    method InitializeGame(category: string, customPrompt: string, loadSucceeds: bool,
                          response: Option<string>, parse: string -> Option<Json>)
      returns (started: bool)
      requires Valid() && !clearTimerPending && !completionTimerPending
      modifies this, llm
      ensures Valid() && llm == old(llm)
      ensures old(llm.isReady) ==>
                llm.isReady && llm.hasCallback == old(llm.hasCallback) && llm.modelLoaded == old(llm.modelLoaded)
      ensures !old(llm.isReady) ==>
                llm.hasCallback && llm.isReady == loadSucceeds && llm.modelLoaded == (old(llm.modelLoaded) || loadSucceeds)
      ensures started <==>
                llm.isReady
                && Llm.PairsOutcome(llm.hasCallback, llm.modelLoaded, GeneratorInput(category, customPrompt), response, parse).Success?
      ensures started ==>
                && IsShuffleOf(cards, Llm.PairsOutcome(llm.hasCallback, llm.modelLoaded, GeneratorInput(category, customPrompt), response, parse).pairs)
                && |cards| == 2 * Llm.PairCount
                && flippedCards == [] && matchedPairs == [] && isGameActive
      ensures !started ==>
                cards == old(cards) && flippedCards == old(flippedCards)
                && matchedPairs == old(matchedPairs) && isGameActive == old(isGameActive)
    {
      var pairs := AcquirePairs(category, customPrompt, loadSucceeds, response, parse);
      if pairs.None? {
        return false;
      }
      Deal(pairs.value);
      started := true;
    }

    /** The reset of a successful initializeGame (site/game.js:123, 127-129). */
    method Deal(pairs: seq<Json>)
      requires Valid() && !clearTimerPending && !completionTimerPending
      modifies this
      ensures Valid() && llm == old(llm)
      ensures State() == Engine.Deal(old(State()), cards)
      ensures IsShuffleOf(cards, pairs) && |cards| == 2 * |pairs|
    {
      var deck := ShuffleCards(pairs);
      Engine.DealPreservesInv(State(), deck);
      cards := deck;
      isGameActive := true;
      flippedCards := [];
      matchedPairs := [];
    }
  }

}
