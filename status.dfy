/**
 * The branch choice of MemoryGame.updateLoadingStatus (site/game.js:81-101):
 * how a progress notification of the model loader is shown. The progress-bar
 * width and the rounded percentage of the numeric branch are floating point
 * and are not modelled; the branch itself is.
 */
module LoadingStatus {

  import opened Wrappers
  import opened Text

  /** A progress notification: a number, or a text. */
  datatype Status = Number | Note(text: string)

  /** What the loading modal shows for a notification. */
  datatype View =
    | ModelProgress                                  // "Loading model: <n>%"
    | FileProgress(percent: nat, text: string)       // bar at `percent`, text shown as is
    | Plain(text: string, hideAfterDelay: bool)      // text shown; modal hidden 1000 ms later
    | TypeErrorThrown                                // `status.match(/\d+/)` was null

  const FileMarker := "Loading file:"
  const LoadedMarker := "Model loaded successfully"

  function Classify(status: Status): (v: View)
    ensures v.ModelProgress? <==> status.Number?
    ensures v.FileProgress? ==>
      status.Note? && Contains(status.text, FileMarker) && v.text == status.text
      && FirstDigitRun(status.text).Some? && v.percent == DecimalValue(FirstDigitRun(status.text).value)
    ensures v.TypeErrorThrown? <==> status.Note? && Contains(status.text, FileMarker) && NoDigits(status.text)
    ensures v.Plain? <==> status.Note? && !Contains(status.text, FileMarker)
    ensures v.Plain? ==> v.text == status.text && (v.hideAfterDelay <==> Contains(status.text, LoadedMarker))
  {
    match status
    case Number => ModelProgress
    case Note(s) =>
      if Contains(s, FileMarker) then
        match FirstDigitRun(s)
        case None => TypeErrorThrown
        case Some(run) => FileProgress(DecimalValue(run), s)
      // `status === 100` cannot hold for a string, so only the text test decides
      else Plain(s, Contains(s, LoadedMarker))
  }

  /**
   * For a notification "Loading file: <name> <digits>%" whose name holds no
   * digit, the bar is set to the value of <digits>.
   */
  lemma FileProgressReadsPercentage(name: string, digits: string)
    requires NoDigits(name)
    requires |digits| > 0 && AllDigits(digits)
    ensures Classify(Note(FileMarker + " " + name + " " + digits + "%"))
         == FileProgress(DecimalValue(digits), FileMarker + " " + name + " " + digits + "%")
  {
    MarkerLeads(name, digits);
    PercentIsFirstRun(name, digits);
    ClassifyFileNote(FileMarker + " " + name + " " + digits + "%", digits);
  }

  /** A text holding the marker whose first run of digits is `run` sets the bar to its value. */
  lemma ClassifyFileNote(s: string, run: string)
    requires Contains(s, FileMarker)
    requires FirstDigitRun(s) == Some(run)
    ensures Classify(Note(s)) == FileProgress(DecimalValue(run), s)
  {
  }

  lemma MarkerLeads(name: string, digits: string)
    ensures Contains(FileMarker + " " + name + " " + digits + "%", FileMarker)
  {
    var rest := " " + name + " " + digits + "%";
    assert FileMarker + " " + name + " " + digits + "%" == FileMarker + rest;
    StartContained(FileMarker, rest);
  }

  lemma PercentIsFirstRun(name: string, digits: string)
    requires NoDigits(name)
    requires |digits| > 0 && AllDigits(digits)
    ensures FirstDigitRun(FileMarker + " " + name + " " + digits + "%") == Some(digits)
  {
    var pre := FileMarker + " " + name + " ";
    assert FileMarker + " " + name + " " + digits + "%" == pre + (digits + "%");
    MarkerHasNoDigits();
    NoDigitsConcat(FileMarker + " ", name);
    NoDigitsConcat(FileMarker + " " + name, " ");
    DigitsAfterText(pre, digits);
  }

  /** After text without digits, a run of digits ended by "%" is the first run. */
  lemma DigitsAfterText(pre: string, digits: string)
    requires NoDigits(pre)
    requires |digits| > 0 && AllDigits(digits)
    ensures FirstDigitRun(pre + (digits + "%")) == Some(digits)
  {
    FirstDigitRunSkip(pre, digits + "%");
    FirstDigitRunExtend(digits, "%");
    assert LeadingDigits(digits) == |digits|;
    assert digits[..|digits|] == digits;
  }

  /**
   * A digit in the file name is read before the percentage: for
   * "Loading file: <name> <digits>%" the bar is set from the name's first
   * run of digits.
   */
  lemma FileNameDigitsWin(name: string, digits: string)
    requires !NoDigits(name)
    ensures Classify(Note(FileMarker + " " + name + " " + digits + "%")).FileProgress?
    ensures Classify(Note(FileMarker + " " + name + " " + digits + "%")).percent
         == DecimalValue(FirstDigitRun(name).value)
  {
    MarkerLeads(name, digits);
    NameRunIsFirst(name, digits);
    ClassifyFileNote(FileMarker + " " + name + " " + digits + "%", FirstDigitRun(name).value);
  }

  lemma NameRunIsFirst(name: string, digits: string)
    requires !NoDigits(name)
    ensures FirstDigitRun(FileMarker + " " + name + " " + digits + "%") == FirstDigitRun(name)
  {
    var pre := FileMarker + " ";
    var rest := " " + digits + "%";
    assert FileMarker + " " + name + " " + digits + "%" == pre + (name + rest);
    MarkerHasNoDigits();
    FirstDigitRunSkip(pre, name + rest);
    FirstDigitRunExtend(name, rest);
  }

  /** A text contains the text it starts with. */
  lemma StartContained(t: string, rest: string)
    ensures Contains(t + rest, t)
  {
    assert (t + rest)[0..|t|] == t;
    assert OccursAt(t + rest, t, 0);
  }

  lemma MarkerHasNoDigits()
    ensures NoDigits(FileMarker + " ")
  {
    var m := FileMarker + " ";
    assert m == "Loading file: ";
    forall k | 0 <= k < |m| ensures !IsDigit(m[k]) {}
  }

  lemma NoDigitsConcat(a: string, b: string)
    requires NoDigits(a) && NoDigits(b)
    ensures NoDigits(a + b)
  {
    forall k | 0 <= k < |a + b| ensures !IsDigit((a + b)[k]) {
      if k >= |a| { assert (a + b)[k] == b[k - |a|]; }
    }
  }

  /** Text without digits in front of `t` does not change the first run of digits. */
  lemma {:induction false} FirstDigitRunSkip(pre: string, t: string)
    requires NoDigits(pre)
    ensures FirstDigitRun(pre + t) == FirstDigitRun(t)
  {
    if |pre| == 0 {
      assert pre + t == t;
    } else {
      assert !IsDigit((pre + t)[0]);
      assert (pre + t)[1..] == pre[1..] + t;
      FirstDigitRunSkip(pre[1..], t);
    }
  }

  /** Text that starts with a non-digit, after a string that has a digit, does not change its first run. */
  lemma {:induction false} FirstDigitRunExtend(t: string, rest: string)
    requires !NoDigits(t)
    requires |rest| > 0 && !IsDigit(rest[0])
    ensures FirstDigitRun(t + rest) == FirstDigitRun(t)
  {
    if IsDigit(t[0]) {
      LeadingDigitsExtend(t, rest);
      assert (t + rest)[..LeadingDigits(t)] == t[..LeadingDigits(t)];
    } else {
      assert (t + rest)[1..] == t[1..] + rest;
      assert !NoDigits(t[1..]) by {
        var k :| 0 <= k < |t| && IsDigit(t[k]);
        assert t[1..][k - 1] == t[k];
      }
      FirstDigitRunExtend(t[1..], rest);
    }
  }

  /** A run of digits that stops before the end of `s` is not extended by what follows `s`. */
  lemma {:induction false} LeadingDigitsExtend(s: string, rest: string)
    requires LeadingDigits(s) < |s| || (|rest| > 0 && !IsDigit(rest[0]))
    ensures LeadingDigits(s + rest) == LeadingDigits(s)
  {
    if |s| == 0 {
      assert s + rest == rest;
    } else if IsDigit(s[0]) {
      assert (s + rest)[1..] == s[1..] + rest;
      LeadingDigitsExtend(s[1..], rest);
    }
  }

}
