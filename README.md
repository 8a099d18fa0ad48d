# memgame-webai: a verified model of the match engine and the answer repair

This project models two parts of the browser memory game in `site/`:

- **The match engine of `MemoryGame`** (`site/game.js`). A deck is built from six generated pairs. Each pair gives a front card and a back card with the same `id`, and the cards are put in random order. Clicks flip at most two cards. Two flipped cards are a match when they share an `id` and show opposite faces. A mismatch is let go by a one-second timer. When every pair is matched, a half-second timer ends the game. Hints point at a random unmatched card. `initializeGame` deals a fresh deck. The small classifier `updateLoadingStatus` is modelled as well: it decides how a progress notification is shown, reading the first run of digits of a "Loading file:" text.
- **The answer repair of `GameLLM.generateCategoryPairs`** (`site/llm.js`). It turns the text generator's raw answer into the `pairs` array in these steps:
  1. CR LF becomes LF.
  2. An opening code fence line is removed.
  3. A closing fence at the very end is removed.
  4. Blank lines are deleted.
  5. The text is trimmed.
  6. The text is parsed as JSON.
  7. If that fails, the span from the first `{` to the last `}` is parsed instead.
  8. The result must have a `pairs` array of exactly six elements.

  The model also covers the `init`/`isReady` flag of the wrapper.

## Files and modules

- `wrappers.dfy`, `json.dfy`, `text.dfy`: the `Option` type, JSON values, and the character classes of JavaScript regular expressions (`\s`, line terminators, `\d`).
- `status.dfy` (`LoadingStatus`): `updateLoadingStatus`'s choice of branch.
- `cleaning.dfy` (`Cleaning`): the five string steps and the brace extraction. Each regular expression is written out as a function with its JavaScript meaning:
  - `^` holds after every line terminator under the `m` flag;
  - greedy `\s*` runs to the last `\n` of a white-space run;
  - `$` without the `m` flag means the very end only.
- `llm.dfy` (`Llm`): the pipeline as a function of the generator's answer and of JSON.parse, and the class `GameLLM`.
- `deck.dfy` (`Deck`): `shuffleCards` as "any permutation of the expansion", and what every such permutation satisfies.
- `engine.dfy` (`Engine`): the engine as functions over a `Session` value. The two timers are explicit pending flags. The invariant `Inv` is proved to hold after every step and along every run of events.
- `game.dfy` (`Game`): the class `MemoryGame`. Each method updates the fields in place and is proved to move them exactly as the `Engine` function says. The event handlers (`HandleCardClick`, `OnMismatchTimeout`, `HandleGameComplete`, `Deal` and `InitializeGame`) also keep `Engine.Inv`. The three steps inside a click (`CheckForMatch`, `HandleMatch`, `HandleMismatch`) run on intermediate states where `Engine.Inv` need not hold; they are proved equal to `Engine.Resolve`, `Engine.Matched` and the scheduling of the clear timer.

Outside effects become parameters:
- JSON.parse is `parse: string -> Option<Json>`, where `None` means it throws.
- The generator's answer is `response: Option<string>`, where `None` means `generateResponse` rejects.
- Whether the model download and engine creation succeed is `loadSucceeds`.
- `Math.random` is a nondeterministic choice (`:|`).

## Model

| member | source | states |
|---|---|---|
| Text.FirstDigitRun | site/game.js:91 | `/\d+/` finds nothing exactly when the text has no digit; otherwise it finds a non-empty run of digits |
| Text.FirstDigitRunAt | site/game.js:91 | the run found starts at the first digit and is the longest run of digits from there |
| Text.DecimalValue | site/game.js:91 | `parseInt` of a run of decimal digits, read most significant digit first. Used by `LoadingStatus.Classify`, and stated through `LoadingStatus.FileProgressReadsPercentage` and `LoadingStatus.FileNameDigitsWin` |
| LoadingStatus.Classify | site/game.js:86-101 | a number shows model progress. A text containing "Loading file:" sets the bar to the value of its first digit run, or throws a TypeError when it has no digit. Any other text is shown as is, and the modal is hidden later exactly when the text contains "Model loaded successfully" |
| LoadingStatus.FileProgressReadsPercentage | site/game.js:90-94 | for "Loading file: name NN%" with a digit-free name, the bar is set to NN |
| LoadingStatus.FileNameDigitsWin | site/game.js:91 | when the file name holds a digit, the bar value comes from the name's first digit run, not from the percentage |
| Cleaning.NormalizeNewlines | site/llm.js:95 | the global `/\r\n/g` replacement as one left-to-right pass: a CR LF pair becomes LF, any other character is kept, and the pass resumes after the pair. Stated by `Cleaning.NormalizeNewlinesShape`, `Cleaning.NormalizeNewlinesConcat` and `Cleaning.EveryCrLfBecomesLf` |
| Cleaning.NormalizeNewlinesShape | site/llm.js:95 | the result is never longer, and text without CR is unchanged |
| Cleaning.EveryCrLfBecomesLf | site/llm.js:95 | every CR LF pair becomes a single LF, and the parts around it are normalised independently |
| Cleaning.NormalizeNewlinesConcat | site/llm.js:95 | the replacement works piecewise wherever the cut does not split a CR LF |
| Cleaning.StripOpeningFence | site/llm.js:99 | the result is a suffix of the input. It differs from the input exactly when the text starts with a fence and contains a LF, and then the removed prefix ends at the first LF |
| Cleaning.OpeningFenceRemoved | site/llm.js:99 | "```info\n" + rest becomes rest when info has no LF |
| Cleaning.StripClosingFence | site/llm.js:100 | a fence is removed exactly when the text ends with LF and a fence, and only those four characters go |
| Cleaning.BlankRunEnd | site/llm.js:101 | where `/^\s*\n/` matches at a line start: the match is all white space and ends at the last LF of the white-space run, and when there is no match no white-space prefix reaches a LF |
| Cleaning.ScanRemovesBlankLines | site/llm.js:101 | after the global replace, no line is blank |
| Cleaning.ScanKeepsCleanText | site/llm.js:101 | text without blank lines is left unchanged |
| Cleaning.DeleteBlankLinesIdempotent | site/llm.js:101 | deleting blank lines twice is the same as once |
| Cleaning.Scan | site/llm.js:101 | the global `/^\s*\n/gm` replacement, scanning left to right and resuming after each match where `^` holds again. Its behaviour is stated by `Cleaning.ScanRemovesBlankLines`, `Cleaning.ScanKeepsCleanText` and `Cleaning.ScanDropsOnlyWhiteSpace` |
| Cleaning.DeleteBlankLines | site/llm.js:101 | the replacement started at the beginning of the text, where `^` holds. Stated by the `Scan` lemmas above and by `Cleaning.DeleteBlankLinesIdempotent` |
| Cleaning.ScanDropsOnlyWhiteSpace | site/llm.js:101 | the blank-line replacement removes white space only: no character that is not white space is added, dropped or reordered |
| Cleaning.TrimStart | site/llm.js:102 | the result is a suffix, only white space is removed, and the result does not start with white space |
| Cleaning.TrimEnd | site/llm.js:102 | the result is a prefix, only white space is removed, and the result does not end with white space |
| Cleaning.TrimStartDropsOnlyWhiteSpace | site/llm.js:102 | trimming the front keeps every character that is not white space, in order |
| Cleaning.TrimEndDropsOnlyWhiteSpace | site/llm.js:102 | trimming the end keeps every character that is not white space, in order |
| Cleaning.Trim | site/llm.js:102 | `.trim()` as the end trim of the front trim. Stated by the contracts of `Cleaning.TrimStart` and `Cleaning.TrimEnd` and by the two lemmas above |
| Cleaning.TrimStartKeepsNoBlankLine | site/llm.js:101-102 | trimming the front keeps the text free of blank lines |
| Cleaning.NoBlankLinePrefix | site/llm.js:101-102 | trimming the end keeps the text free of blank lines |
| Cleaning.CleanedTextShape | site/llm.js:95-102 | the cleaned answer has no blank line and no white space at either end |
| Cleaning.CleaningKeepsText | site/llm.js:95-102 | deleting blank lines and trimming lose no character that is not white space: the cleaned answer keeps, in order, every such character left once the fences are stripped |
| Cleaning.Clean | site/llm.js:95-102 | the five string steps in source order. Stated by `Cleaning.CleanedTextShape`, `Cleaning.CleaningKeepsText`, `Cleaning.FencedBlockUnwrapped` and `Cleaning.FenceWithTrailingNewlineKept` |
| Cleaning.FencedBlockUnwrapped | site/llm.js:95-102 | a fenced block without CR cleans to its body with only blank lines and outer white space removed |
| Cleaning.FenceWithTrailingNewlineKept | site/llm.js:100 | a closing fence followed by a LF stays: "```json\n" + line + "\n```\n" cleans to line + "\n```" |
| Cleaning.ExtractObject | site/llm.js:117-120 | a match is at least two characters and runs from a `{` to a `}` |
| Cleaning.ExtractObjectSpan | site/llm.js:117 | the match runs from the first `{` to the last `}` |
| Cleaning.ExtractObjectAbsent | site/llm.js:117-120 | there is no match exactly when no `{` comes before a `}` |
| Llm.ValidPairs | site/llm.js:107-114 | data is accepted exactly when `pairs` is an array of six elements. That array is returned as it is, and its elements are not examined |
| Llm.RepairResponse | site/llm.js:90-129 | a success always holds six elements, and an empty answer fails |
| Llm.TryBlock | site/llm.js:86-130 | the `try` block: without a model the call at 87 throws, a rejected generation fails, and otherwise the answer is repaired. Stated by `Llm.EmptyAnswerRejected`, `Llm.DirectParseAccepted`, `Llm.FallbackParsesBraceSpan` and `Llm.NoBraceSpanFails` |
| Llm.ProgressNoteThrows | site/llm.js:72 | the progress note sent before the `try` goes to the game's `updateLoadingStatus` (site/game.js:86-101). It throws there, outside the `try`, when the category text holds "Loading file:" and no digit; `LoadingStatus.Classify` states when that happens. `Llm.FailSoftAlwaysDeals` shows it is the only failure left once the `catch` is corrected |
| Llm.PairsOutcome | site/llm.js:71-142 | `generateCategoryPairs` as written: a throwing progress note, then the `try` block, with every failure of the `try` rejected because the `catch` reads an out-of-scope variable at 133. Stated by `Llm.FallbackNeverReturned` and `Llm.EmptyAnswerRejected` |
| Llm.PairsOutcomeFailSoft | site/llm.js:131-141 | `generateCategoryPairs` as its `catch` intends: a failure of the `try` yields the single "Try again" pair of 134-140. Stated by `Llm.FailSoftAlwaysDeals` |
| Llm.FallbackPair | site/llm.js:134-140 | the single pair the `catch` builds: `front` the category, `back` "Try again" and the fixed explanation. Stated through `Llm.FailSoftAlwaysDeals` and `Llm.FallbackNeverReturned` |
| Llm.DirectParseAccepted | site/llm.js:105-114 | when the cleaned text parses to an object with a six-element `pairs`, those elements are returned unchanged, whatever their shape |
| Llm.FallbackParsesBraceSpan | site/llm.js:115-129 | when the direct parse is rejected, the result is the six-element check applied to the first-`{`-to-last-`}` span of the cleaned text |
| Llm.NoBraceSpanFails | site/llm.js:116-120 | when the direct parse is rejected and no `{` precedes a `}`, the result is a failure |
| Llm.FencedAnswerWithTrailingNewline | site/llm.js:95-129 | a fenced one-line answer followed by a newline keeps its closing fence. If JSON.parse rejects that text, the brace span recovers exactly the JSON line's six pairs |
| Llm.FallbackNeverReturned | site/llm.js:131-140 | as written, the promise either rejects or carries six elements, never the single "Try again" pair |
| Llm.EmptyAnswerRejected | site/llm.js:131-140 | an empty answer rejects as written, and the fail-soft version gives the single fallback pair |
| Llm.FailSoftAlwaysDeals | site/llm.js:131-140 | the fail-soft version rejects only when the progress note before the `try` throws. It returns six elements or the fallback pair, and its six-element results are those of the code as written |
| Llm.GameLLM.constructor | site/llm.js:13-17 | not ready, with no callback and no model |
| Llm.GameLLM.Init | site/llm.js:19-26 | once ready, a call changes nothing. Otherwise the callback is kept, and the wrapper becomes ready exactly when initLLM completes |
| Llm.GameLLM.InitLLM | site/llm.js:28-69 | the model is there after a successful load, and a failed load changes nothing |
| Llm.GameLLM.GenerateCategoryPairs | site/llm.js:71-142 | the result is the pipeline applied to the wrapper's state: six elements on success, and a failure without a model, without an answer or with an empty answer |
| Deck.Expand | site/game.js:147-150 | twice as many cards as pairs; card 2k is the front and card 2k+1 the back of pair k, both with id k |
| Deck.ShuffleIsDeck | site/game.js:146-151 | any permutation of the expansion has 2n cards. Each id below n has exactly one front card and exactly one back card, every card carries its own pair's members, and every card of the expansion is present |
| Engine.Unmatched | site/game.js:256-258 | a card is kept exactly when its pair is not matched; the result is empty exactly when every card is matched |
| Engine.HintText | site/game.js:261-262 | the hint for a card: "Try to find the match for: " followed by its `front` as a template literal shows it. Stated through `Engine.HintOffered` |
| Engine.IsHintFor | site/game.js:253-262 | the hints `showRandomHint` may show: none after the early returns at 254 and 259, otherwise the hint for some unmatched card, which is the random choice. Stated by `Engine.HintOffered` and `Game.MemoryGame.ShowRandomHint` |
| JsonValue.ToText | site/game.js:262 | the string conversion of a parsed value inside a template literal: arrays joined with "," with null shown empty, objects as "[object Object]" (see "## Left out" for objects with their own `toString`). Used by `Engine.HintText`, whose hints `Engine.HintOffered` and `Game.MemoryGame.ShowRandomHint` state |
| JsonValue.Display | site/game.js:262 | `${randomCard.front}`: "undefined" for a missing member, otherwise `ToText`. Stated through `Engine.HintOffered` |
| Engine.Ignored | site/game.js:187-194 | the four early returns of `handleCardClick`: the game is not running, two cards are already flipped, the card's pair is matched, or the card is already flipped. Stated by `Engine.ClickOutcome` and `Engine.EndedGameStaysEnded` |
| Engine.IsMatch | site/game.js:211-215 | the test of `checkForMatch`: equal ids, opposite faces and an id not yet matched. Stated by `Engine.MatchIffSamePair` and `Engine.SameIdOppositeFaces` |
| Engine.Matched | site/game.js:222-237 | the pair's id is appended to the matched ids and the flipped cards are let go. The completion is scheduled exactly when twice the number of matched ids equals the number of cards |
| Engine.Resolve | site/game.js:206-219 | `checkForMatch` on the two flipped cards: `handleMatch` when they match, otherwise only the clear timer of `handleMismatch` is scheduled. Stated by `Engine.ClickOutcome` and `Engine.ClickPreservesInv` |
| Engine.Click | site/game.js:186-204 | `handleCardClick`: a no-op when ignored, otherwise the card is pushed onto the flipped cards and the second card is resolved. Stated by `Engine.ClickOutcome` and `Engine.ClickPreservesInv` |
| Engine.ClearFlipped | site/game.js:240-245 | the mismatch timer's callback: the flipped cards are emptied and the timer is no longer pending. Stated by `Engine.ClearFlippedPreservesInv` |
| Engine.Complete | site/game.js:248-251 | `handleGameComplete`: the game stops and the completion timer is no longer pending. Stated by `Engine.CompleteEndsGame` |
| Engine.Deal | site/game.js:123-129 | the reset of a successful `initializeGame`: the new deck (123), a running game, nothing flipped and nothing matched (127-129). Stated by `Engine.DealPreservesInv` |
| Engine.InitialInv | site/game.js:5-9 | the constructor's fields satisfy the invariant |
| Engine.MatchedCoverage | site/game.js:231-233 | distinct matched ids below n number at most n, and they are n exactly when they cover every id below n |
| Engine.SameIdOppositeFaces | site/game.js:211-214 | in a deck, two different cards with the same id show opposite faces |
| Engine.MatchIffSamePair | site/game.js:211-219 | between two different unmatched cards, a match is declared exactly when their ids are equal |
| Engine.AllMatchedCoversDeck | site/game.js:231-233 | when the matched ids number half the cards, every card is matched |
| Engine.SomeCardUnmatched | site/game.js:253-259 | while fewer pairs than half the cards are matched, some card is unmatched |
| Engine.ClickOutcome | site/game.js:186-204 | any of the four guards makes the click a no-op. Otherwise the card is flipped, and on the second card either the pair's id joins the matched ids (flipped emptied, completion scheduled exactly when all pairs are matched) or both cards stay flipped with the clear scheduled |
| Engine.ClickPreservesInv | site/game.js:186-204 | a click keeps the invariant: at most two distinct unmatched flipped cards, distinct matched ids, and the timer flags consistent |
| Engine.ClearFlippedPreservesInv | site/game.js:240-245 | the mismatch timer empties the flipped cards, leaves the matched ids alone and keeps the invariant |
| Engine.CompleteEndsGame | site/game.js:248-250 | the completion timer stops the game, and then every card is matched |
| Engine.InactiveMeansAllMatched | site/game.js:229-233 | a game that has stopped has every card matched |
| Engine.DealPreservesInv | site/game.js:123-129 | dealing a well-formed deck with no timer pending gives a running game that satisfies the invariant |
| Engine.HintOffered | site/game.js:253-262 | a hint is offered exactly when the game runs and fewer pairs than half the cards are matched; hints only name unmatched cards |
| Engine.StepPreservesInv | site/game.js:186-251 | every enabled event (click, either timer, deal) keeps the invariant |
| Engine.RunPreservesInv | site/game.js:186-251 | the invariant holds after any run of enabled events |
| Engine.MatchedOnlyGrows | site/game.js:229 | within one game the old matched ids stay a prefix of the new ones, and the deck is unchanged |
| Engine.EndedGameStaysEnded | site/game.js:187-194 | once the game has stopped, no event other than a new deal changes anything |
| Game.CatalogPairs | site/game.js:119 | `CATEGORIES[category]?.pairs`: the `pairs` of a known category, undefined otherwise. Stated by `Game.CatalogHasNoPairs` |
| Game.CatalogHasNoPairs | site/game.js:119 | no category has `pairs`, so the generator is always asked |
| Game.GeneratorInput | site/game.js:115-121 | the text handed to the generator: the custom prompt for "CUSTOM", the category otherwise. Stated through the contracts of `Game.MemoryGame.AcquirePairs` and `Game.MemoryGame.InitializeGame` |
| Game.ShuffleCards | site/game.js:146-152 | the deck is a permutation of the expansion, has 12 cards for six pairs, is a well-formed deck, and every card carries its pair |
| Game.MemoryGame.constructor | site/game.js:5-16 | empty deck, nothing flipped or matched, game inactive, and a fresh model wrapper that is not ready |
| Game.MemoryGame.InitLLM | site/game.js:72-79 | a fresh wrapper replaces the field, with the callback installed. It is ready, and holds the model, exactly when the load succeeds; a failure is swallowed and the engine's fields are unchanged |
| Game.MemoryGame.HandleCardClick | site/game.js:186-204 | the new state is `Engine.Click` of the old, and the invariant is kept |
| Game.MemoryGame.CheckForMatch | site/game.js:206-219 | the new state is `Engine.Resolve` of the old: match or scheduled clear |
| Game.MemoryGame.HandleMatch | site/game.js:222-237 | the new state is `Engine.Matched` of the old |
| Game.MemoryGame.HandleMismatch | site/game.js:239-246 | only the clear is scheduled |
| Game.MemoryGame.OnMismatchTimeout | site/game.js:240-245 | the flipped cards are emptied, the matched ids are untouched, and the invariant is kept |
| Game.MemoryGame.HandleGameComplete | site/game.js:248-251 | the game stops with every card matched, and the invariant is kept |
| Game.MemoryGame.ShowRandomHint | site/game.js:253-263 | the hint is one `Engine.IsHintFor` allows ("Try to find the match for: " + the front of some unmatched card). A hint is given exactly when the game runs and some pair is unmatched |
| Game.MemoryGame.AcquirePairs | site/game.js:108-121 | loads the model when it is not ready: a ready wrapper is left as it is, otherwise the callback is installed and readiness follows the load's outcome. It then asks the generator with the custom prompt for "CUSTOM" and with the category otherwise. Pairs are returned exactly when the wrapper is ready and generation succeeds, and they are the generated six |
| Game.MemoryGame.Deal | site/game.js:123-129 | the new deck is a permutation of the pairs' expansion, nothing is flipped or matched, the game is active, and the invariant is kept |
| Game.MemoryGame.InitializeGame | site/game.js:104-136 | the wrapper ends ready exactly when it was ready or the load succeeds, with the callback installed by a load. The game starts exactly when the wrapper is then ready and generation succeeds. Then the deck is a permutation of the six generated pairs' 12 cards, nothing is flipped or matched, and the game is active. On failure the four fields are unchanged |

## Left out

- Rendering is not modelled: the DOM, CSS transforms, match icons, modals, the category grid, the game title and the visibility of the hint and loading boxes. It is display only, except where converting a value to text throws (see the `Game.MemoryGame.ShowRandomHint` line below). `LoadingStatus.Classify` keeps just the branch taken and whether the modal is hidden later.
- Game.MemoryGame.HandleMatch: the hint text shown on a match (the pair's `explanation`) is not returned. Likewise, the congratulation shown by `HandleGameComplete` and the failure notice of `InitializeGame` are not returned. They only reach the screen, under the assumption of the next line.
- Game.MemoryGame.ShowRandomHint: the model assumes every generated member converts to text. `JsonValue.ToText` shows every object as "[object Object]". JavaScript instead throws a TypeError for an object with its own `toString` member, since a parsed value's member is never callable, and for an array that holds such an object. `Llm.ValidPairs` does not examine the elements, so such a pair can reach the game. The source then throws in three places the model does not follow:
  - at site/game.js:262, `showRandomHint` shows no hint, while `ShowRandomHint` promises one whenever the game runs with a pair unmatched;
  - at site/game.js:173, `renderGameGrid` (called at 126) throws after the deck is replaced at 123 and before the resets at 127-129, so the old flipped, matched and active values stay with the new deck;
  - at site/game.js:230 and 266, `showHint(firstCard.explanation)` throws after the push at 229, so completion is not scheduled and the flipped cards are not released.
- Game.MemoryGame.InitializeGame: requires that no timer of the previous game is pending. The source does not cancel its timers, and a stale one firing after a new deal is an event-loop race this model does not cover. The same goes for a second `init` started while the constructor's load is still running.
- `selectRandomCategory`, `generateCustomGame`, the refresh button, the custom-prompt modal, file reading and speech recognition are not modelled. They are entry points that only choose the arguments of `InitializeGame`.
- Loading the model (MediaPipe, the file cache and its progress callbacks) is reduced to the outcome `loadSucceeds`. Generating text is reduced to the answer `response`. JSON.parse is the parameter `parse`. These are foreign calls. The prompt text and console logging are left out.
- Speech synthesis (`speak`, KokoroTTS) is left out as foreign audio I/O.
- The progress-bar width and `Math.round` in `updateLoadingStatus` are left out because they are floating point.
- The `isFlipped: false` member of each card is left out because it is never read.
- JsonValue.Display: a JSON number is shown as the text it was parsed from, not re-formatted the way JavaScript prints numbers.
- `site/sw.js` (cache handlers) and `sst.config.ts` (deployment) are not part of this model.
- The `catch` of `generateCategoryPairs` (site/llm.js:134-140) is written to return a single "Try again" pair for any failure, including an answer with five pairs. As written it rejects instead (see Findings), and the model follows what the code does. `Game.MemoryGame.InitializeGame` therefore leaves the game unchanged on any generation failure.

## Findings

| source | as written | input that shows it | evidently intended | confidence | as-written member | corrected member |
|---|---|---|---|---|---|---|
| site/llm.js:131-140 | The `catch` reads `cleanResponse`, a `let` of the `try` block. The ReferenceError rejects the promise before the "Try again" pair is returned. | an empty generator answer (`""`), with the model loaded | any failure inside the `try` returns the single fallback pair `{front: category, back: "Try again", explanation: ...}` | not executed | Llm.EmptyAnswerRejected | Llm.FailSoftAlwaysDeals |

`Llm.PairsOutcome` is the code as written, and `Llm.PairsOutcomeFailSoft` is the corrected function. The game model keeps using the version as written, because that is what `initializeGame` receives: its `catch` (site/game.js:131-135) turns the rejection into an unchanged game.
