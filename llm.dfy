/**
 * GameLLM (site/llm.js): the readiness flag of the model wrapper and the
 * pipeline that turns the generator's answer into the `pairs` array.
 * JSON.parse is a parameter `parse`, None standing for a SyntaxError; the
 * generator's answer is a parameter `response`, None standing for a
 * rejected `generateResponse`.
 */
module Llm {

  import opened Wrappers
  import opened Text
  import opened JsonValue
  import opened Cleaning
  import LoadingStatus

  /** How the promise of generateCategoryPairs settles: fulfilled with an array, or rejected. */
  datatype Generated = Success(pairs: seq<Json>) | Failure

  const PairCount := 6

  /**
   * `data.pairs` when it is an array of exactly six elements
   * (site/llm.js:107-114 and 122-129). Only the length is checked: the
   * elements are passed on whatever they are.
   */
  function ValidPairs(data: Option<Json>): (r: Option<seq<Json>>)
    ensures r.Some? ==> |r.value| == PairCount
    ensures r.Some? <==> data.Some? && Member(data.value, "pairs").Some?
                         && Member(data.value, "pairs").value.JArray?
                         && |Member(data.value, "pairs").value.items| == PairCount
    ensures r.Some? ==> r.value == Member(data.value, "pairs").value.items
  {
    match data
    case None => None
    case Some(d) =>
      match Member(d, "pairs")
      case Some(JArray(items)) => if |items| == PairCount then Some(items) else None
      case _ => None
  }

  /**
   * The inner part of the `try` block once the answer `raw` has arrived
   * (site/llm.js:90-130): Failure means an exception left it.
   */
  function RepairResponse(raw: string, parse: string -> Option<Json>): (r: Generated)
    ensures r.Success? ==> |r.pairs| == PairCount
    ensures raw == "" ==> r.Failure?
  {
    if raw == "" then Failure
    else
      var clean := Clean(raw);
      match ValidPairs(parse(clean))
      case Some(pairs) => Success(pairs)
      case None =>
        match ExtractObject(clean)
        case None => Failure
        case Some(candidate) =>
          match ValidPairs(parse(candidate))
          case Some(pairs) => Success(pairs)
          case None => Failure
  }

  /** The whole `try` block (site/llm.js:86-130): without a model, `this.llm.generateResponse` throws. */
  function TryBlock(modelLoaded: bool, response: Option<string>, parse: string -> Option<Json>): Generated
  {
    if !modelLoaded then Failure
    else
      match response
      case None => Failure
      case Some(raw) => RepairResponse(raw, parse)
  }

  /**
   * The progress note sent before the `try` (site/llm.js:72) throws when
   * the game's updateLoadingStatus cannot find a digit in it.
   */
  predicate ProgressNoteThrows(callbackSet: bool, category: string)
  {
    callbackSet && LoadingStatus.Classify(LoadingStatus.Note("Generating pairs for " + category)).TypeErrorThrown?
  }

  /**
   * generateCategoryPairs as written (site/llm.js:71-142). Every failure in
   * the `try` reaches the `catch`, whose second statement reads
   * `cleanResponse`, a `let` of the `try` block and out of scope there; the
   * resulting ReferenceError rejects the promise, so the "Try again" pair
   * of lines 134-140 is never returned.
   */
  function PairsOutcome(callbackSet: bool, modelLoaded: bool, category: string,
                                 response: Option<string>, parse: string -> Option<Json>): Generated
  {
    if ProgressNoteThrows(callbackSet, category) then Failure
    else TryBlock(modelLoaded, response, parse)
  }

  /** The single pair lines 134-140 were meant to return. */
  function FallbackPair(category: string): Json
  {
    JObject(map["front" := JString(category),
                "back" := JString("Try again"),
                "explanation" := JString("Something went wrong generating pairs")])
  }

  /**
   * generateCategoryPairs as its `catch` block evidently intends: a failure
   * inside the `try` yields the single fallback pair.
   */
  function PairsOutcomeFailSoft(callbackSet: bool, modelLoaded: bool, category: string,
                                         response: Option<string>, parse: string -> Option<Json>): Generated
  {
    if ProgressNoteThrows(callbackSet, category) then Failure
    else
      match TryBlock(modelLoaded, response, parse)
      case Success(pairs) => Success(pairs)
      case Failure => Success([FallbackPair(category)])
  }

  // ---------------------------------------------------------------------
  // Properties of the pipeline

  /** As written, the promise either rejects or carries exactly six elements: the one-pair fallback never arrives. */
  lemma FallbackNeverReturned(callbackSet: bool, modelLoaded: bool, category: string,
                              response: Option<string>, parse: string -> Option<Json>)
    ensures var r := PairsOutcome(callbackSet, modelLoaded, category, response, parse);
            r.Failure? || (|r.pairs| == PairCount && r.pairs != [FallbackPair(category)])
  {
  }

  /** An empty answer, which the code answers with `throw`, rejects the promise instead of giving the fallback. */
  lemma EmptyAnswerRejected(category: string, parse: string -> Option<Json>)
    requires !ProgressNoteThrows(true, category)
    ensures PairsOutcome(true, true, category, Some(""), parse) == Failure
    ensures PairsOutcomeFailSoft(true, true, category, Some(""), parse) == Success([FallbackPair(category)])
  {
  }

  /**
   * The fail-soft version settles with either six elements or the single
   * fallback pair, and it rejects only when the progress note before the
   * `try` throws.
   */
  lemma FailSoftAlwaysDeals(callbackSet: bool, modelLoaded: bool, category: string,
                            response: Option<string>, parse: string -> Option<Json>)
    ensures var r := PairsOutcomeFailSoft(callbackSet, modelLoaded, category, response, parse);
            && (r.Failure? <==> ProgressNoteThrows(callbackSet, category))
            && (r.Success? ==> |r.pairs| == PairCount || r.pairs == [FallbackPair(category)])
            && (r.Success? && |r.pairs| == PairCount ==>
                  r == PairsOutcome(callbackSet, modelLoaded, category, response, parse))
  {
  }

  /** A direct parse with a six-element `pairs` array wins, and the elements come back untouched whatever their shape. */
  lemma DirectParseAccepted(raw: string, parse: string -> Option<Json>, members: map<string, Json>, items: seq<Json>)
    requires raw != ""
    requires parse(Clean(raw)) == Some(JObject(members))
    requires "pairs" in members && members["pairs"] == JArray(items) && |items| == PairCount
    ensures RepairResponse(raw, parse) == Success(items)
  {
  }

  /**
   * When the direct parse is rejected, the text from the first `{` to the
   * last `}` of the cleaned answer gets the same six-element check.
   */
  lemma FallbackParsesBraceSpan(raw: string, parse: string -> Option<Json>, i: nat, j: nat)
    requires raw != "" && ValidPairs(parse(Clean(raw))).None?
    requires i < j < |Clean(raw)|
    requires Clean(raw)[i] == '{' && '{' !in Clean(raw)[..i]
    requires Clean(raw)[j] == '}' && '}' !in Clean(raw)[j + 1..]
    ensures RepairResponse(raw, parse) ==
              match ValidPairs(parse(Clean(raw)[i..j + 1]))
              case Some(pairs) => Success(pairs)
              case None => Failure
  {
    ExtractObjectSpan(Clean(raw), i, j);
  }

  /** When the direct parse is rejected and no `{` comes before a `}`, the answer is a failure. */
  lemma NoBraceSpanFails(raw: string, parse: string -> Option<Json>)
    requires ValidPairs(parse(Clean(raw))).None?
    requires forall i, j :: 0 <= i < j < |Clean(raw)| ==> !(Clean(raw)[i] == '{' && Clean(raw)[j] == '}')
    ensures RepairResponse(raw, parse) == Failure
  {
    ExtractObjectAbsent(Clean(raw));
  }

  /**
   * An answer fenced as "```json", one line of JSON, "```" and a final
   * newline keeps its closing fence through the cleaning; when JSON.parse
   * rejects that, the brace span recovers exactly the JSON line.
   */
  lemma FencedAnswerWithTrailingNewline(info: string, line: string, parse: string -> Option<Json>, items: seq<Json>)
    requires '\n' !in info && '\r' !in info
    requires |line| >= 2 && line[0] == '{' && line[|line| - 1] == '}'
    requires forall k :: 0 <= k < |line| ==> !IsLineTerminator(line[k])
    requires ValidPairs(parse(line + "\n" + Fence)).None?
    requires ValidPairs(parse(line)) == Some(items)
    ensures RepairResponse(Fence + info + "\n" + line + "\n" + Fence + "\n", parse) == Success(items)
  {
    var raw := Fence + info + "\n" + line + "\n" + Fence + "\n";
    assert !IsWhiteSpace(line[0]);
    FenceWithTrailingNewlineKept(info, line);
    RecoveredFromBraces(raw, line, parse, items);
  }

  /** The brace-span step when the cleaned answer is a JSON line followed by a closing fence. */
  lemma RecoveredFromBraces(raw: string, line: string, parse: string -> Option<Json>, items: seq<Json>)
    requires |line| >= 2 && line[0] == '{' && line[|line| - 1] == '}'
    requires raw != "" && Clean(raw) == line + "\n" + Fence
    requires ValidPairs(parse(line + "\n" + Fence)).None?
    requires ValidPairs(parse(line)) == Some(items)
    ensures RepairResponse(raw, parse) == Success(items)
  {
    BraceSpanOfFencedLine(line);
    assert ExtractObject(Clean(raw)) == Some(line);
  }

  /** The fence after a JSON line holds no brace, so the span is the line. */
  lemma BraceSpanOfFencedLine(line: string)
    requires |line| >= 2 && line[0] == '{' && line[|line| - 1] == '}'
    ensures ExtractObject(line + "\n" + Fence) == Some(line)
  {
    var clean := line + "\n" + Fence;
    var after := "\n" + Fence;
    assert '}' !in after;
    assert clean[|line|..] == after;
    assert clean[0..|line|] == line;
    ExtractObjectSpan(clean, 0, |line| - 1);
  }

  // ---------------------------------------------------------------------
  // The model wrapper's readiness (site/llm.js:12-69)

  class GameLLM {
    /** `loadingCallback` holds the game's progress callback. */
    var hasCallback: bool
    /** `llm` holds a created inference engine. */
    var modelLoaded: bool
    var isReady: bool

    ghost predicate Valid()
      reads this
    {
      isReady ==> hasCallback && modelLoaded
    }

    constructor()
      ensures Valid()
      ensures !hasCallback && !modelLoaded && !isReady
    {
      hasCallback := false;
      modelLoaded := false;
      isReady := false;
    }

    /**
     * init (site/llm.js:19-26): nothing once ready; otherwise keeps the
     * callback and becomes ready exactly when initLLM completes.
     */
    method Init(loadSucceeds: bool) returns (ok: bool)
      requires Valid()
      modifies this
      ensures Valid()
      ensures old(isReady) ==> ok && hasCallback == old(hasCallback) && modelLoaded == old(modelLoaded) && isReady
      ensures !old(isReady) ==>
                hasCallback && ok == loadSucceeds && isReady == loadSucceeds
                && modelLoaded == (old(modelLoaded) || loadSucceeds)
    {
      if isReady {
        return true;
      }
      hasCallback := true;
      ok := InitLLM(loadSucceeds);
      if ok {
        isReady := true;
      }
    }

    /**
     * initLLM (site/llm.js:28-69): `loadSucceeds` stands for the fileset
     * resolver, the model download and the engine creation all completing;
     * otherwise the error is rethrown and `llm` is left as it was.
     */
    method InitLLM(loadSucceeds: bool) returns (ok: bool)
      modifies this`modelLoaded
      ensures ok == loadSucceeds
      ensures modelLoaded == (old(modelLoaded) || loadSucceeds)
    {
      ok := loadSucceeds;
      if loadSucceeds {
        modelLoaded := true;
      }
    }

    /** generateCategoryPairs (site/llm.js:71-142) on this wrapper's state. */
    method GenerateCategoryPairs(category: string, response: Option<string>, parse: string -> Option<Json>)
      returns (r: Generated)
      ensures r == PairsOutcome(hasCallback, modelLoaded, category, response, parse)
      ensures r.Success? ==> |r.pairs| == PairCount
      ensures !modelLoaded || response.None? || response == Some("") ==> r.Failure?
    {
      if ProgressNoteThrows(hasCallback, category) {
        return Failure;
      }
      if !modelLoaded || response.None? {
        return Failure;
      }
      r := RepairResponse(response.value, parse);
    }
  }

}
