/**
 * The text repair GameLLM.generateCategoryPairs applies to the generator's
 * raw answer before parsing it (site/llm.js:95-102), and the extraction of
 * the first-`{`-to-last-`}` candidate it falls back on (site/llm.js:117).
 * Each regular expression is modelled with JavaScript's semantics: no `m`
 * flag means `^` and `$` match only at the ends of the string; with the `m`
 * flag `^` also matches after any line terminator; `\s` is any white space
 * or line terminator.
 */
module Cleaning {

  import opened Wrappers
  import opened Text

  const Fence := "```"

  // ---------------------------------------------------------------------
  // Step 1: `.replace(/\r\n/g, "\n")`

  function NormalizeNewlines(s: string): string
  {
    if |s| < 2 then s
    else if s[0] == '\r' && s[1] == '\n' then "\n" + NormalizeNewlines(s[2..])
    else [s[0]] + NormalizeNewlines(s[1..])
  }

  /** The replacement never lengthens the text, and text without CR is left alone. */
  lemma {:induction false} NormalizeNewlinesShape(s: string)
    ensures |NormalizeNewlines(s)| <= |s|
    ensures '\r' !in s ==> NormalizeNewlines(s) == s
    decreases |s|
  {
    if |s| >= 2 {
      if s[0] == '\r' && s[1] == '\n' {
        NormalizeNewlinesShape(s[2..]);
      } else {
        NormalizeNewlinesShape(s[1..]);
        assert s == [s[0]] + s[1..];
      }
    }
  }

  /**
   * The replacement works piece by piece: it distributes over a
   * concatenation unless the cut falls inside a CR LF.
   */
  lemma {:induction false} NormalizeNewlinesConcat(a: string, b: string)
    requires !(|a| > 0 && |b| > 0 && a[|a| - 1] == '\r' && b[0] == '\n')
    ensures NormalizeNewlines(a + b) == NormalizeNewlines(a) + NormalizeNewlines(b)
    decreases |a|
  {
    if |a| == 0 {
      assert a + b == b;
    } else if |a| == 1 {
      SingleCharConcat(a, b);
    } else if a[0] == '\r' && a[1] == '\n' {
      NormalizeNewlinesConcat(a[2..], b);
      CrLfConcat(a, b);
    } else {
      NormalizeNewlinesConcat(a[1..], b);
      OtherCharConcat(a, b);
    }
  }

  /** One character in front of `b` that does not start a CR LF with it is kept. */
  lemma SingleCharConcat(a: string, b: string)
    requires |a| == 1 && !(|b| > 0 && a[0] == '\r' && b[0] == '\n')
    ensures NormalizeNewlines(a + b) == NormalizeNewlines(a) + NormalizeNewlines(b)
  {
    if |b| > 0 {
      assert (a + b)[1..] == b;
    } else {
      assert a + b == a;
    }
  }

  /** The step of NormalizeNewlinesConcat past a leading CR LF. */
  lemma CrLfConcat(a: string, b: string)
    requires |a| >= 2 && a[0] == '\r' && a[1] == '\n'
    requires NormalizeNewlines(a[2..] + b) == NormalizeNewlines(a[2..]) + NormalizeNewlines(b)
    ensures NormalizeNewlines(a + b) == NormalizeNewlines(a) + NormalizeNewlines(b)
  {
    assert (a + b)[2..] == a[2..] + b;
  }

  /** The step of NormalizeNewlinesConcat past a leading character that does not start a CR LF. */
  lemma OtherCharConcat(a: string, b: string)
    requires |a| >= 2 && !(a[0] == '\r' && a[1] == '\n')
    requires NormalizeNewlines(a[1..] + b) == NormalizeNewlines(a[1..]) + NormalizeNewlines(b)
    ensures NormalizeNewlines(a + b) == NormalizeNewlines(a) + NormalizeNewlines(b)
  {
    var ab := a + b;
    assert ab[0] == a[0] && ab[1] == a[1];
    assert ab[1..] == a[1..] + b;
    KeepsFirst(ab);
    KeepsFirst(a);
    Associates([a[0]], NormalizeNewlines(a[1..]), NormalizeNewlines(b));
  }

  /** A first character that does not start a CR LF is kept as it is. */
  lemma KeepsFirst(s: string)
    requires |s| >= 2 && !(s[0] == '\r' && s[1] == '\n')
    ensures NormalizeNewlines(s) == [s[0]] + NormalizeNewlines(s[1..])
  {
  }

  /** Every CR LF, wherever it stands, becomes a single LF. */
  lemma EveryCrLfBecomesLf(a: string, b: string)
    ensures NormalizeNewlines(a + "\r\n" + b) == NormalizeNewlines(a) + "\n" + NormalizeNewlines(b)
  {
    var t := "\r\n" + b;
    CrLfLead(b);
    assert t[0] == '\r';
    NormalizeNewlinesConcat(a, t);
    assert a + "\r\n" + b == a + t;
    Associates(NormalizeNewlines(a), "\n", NormalizeNewlines(b));
  }

  lemma CrLfLead(b: string)
    ensures NormalizeNewlines("\r\n" + b) == "\n" + NormalizeNewlines(b)
  {
    var t := "\r\n" + b;
    assert t[0] == '\r' && t[1] == '\n' && t[2..] == b;
  }

  lemma Associates(x: string, y: string, z: string)
    ensures x + (y + z) == x + y + z
  {
  }

  // ---------------------------------------------------------------------
  // Step 2: `.replace(/^```[\s\S]*?\n/, "")`

  function StripOpeningFence(s: string): (r: string)
    ensures |r| <= |s| && r == s[|s| - |r|..]
    ensures r != s <==> StartsWith(s, Fence) && '\n' in s
    ensures r != s ==> s[|s| - |r| - 1] == '\n' && '\n' !in s[..|s| - |r| - 1]
  {
    if StartsWith(s, Fence) then
      match FirstIndexOf(s, '\n')
      case None => s
      case Some(i) => s[i + 1..]
    else s
  }

  /** An opening fence line with any info string is removed, newline included. */
  lemma OpeningFenceRemoved(info: string, rest: string)
    requires '\n' !in info
    ensures StripOpeningFence(Fence + info + "\n" + rest) == rest
  {
    var s := Fence + info + "\n" + rest;
    assert StartsWith(s, Fence);
    var i := |Fence| + |info|;
    assert s[i] == '\n';
    assert s[..i] == Fence + info;
    assert forall k :: 0 <= k < i ==> s[..i][k] == s[k];
    assert s[i + 1..] == rest;
  }

  // ---------------------------------------------------------------------
  // Step 3: `.replace(/\n```$/, "")`

  function StripClosingFence(s: string): (r: string)
    ensures r == s || r + "\n" + Fence == s
    ensures r != s <==> EndsWith(s, "\n" + Fence)
  {
    if EndsWith(s, "\n" + Fence) then s[..|s| - 4] else s
  }

  // ---------------------------------------------------------------------
  // Step 4: `.replace(/^\s*\n/gm, "")`

  /**
   * Where `^\s*\n` ends when it matches at the start of `t`: greedy `\s*`
   * runs over the whole white-space prefix and gives back characters until
   * a `\n` follows, so the match ends at the last `\n` of that prefix.
   */
  function BlankRunEnd(t: string): (r: Option<nat>)
    ensures r.Some? ==> r.value < |t| && t[r.value] == '\n' && AllWhiteSpace(t[..r.value + 1])
    ensures r.None? ==> forall j :: 0 <= j < |t| && t[j] == '\n' ==> !AllWhiteSpace(t[..j + 1])
    ensures r.Some? ==> forall j :: r.value < j < |t| && t[j] == '\n' ==> !AllWhiteSpace(t[..j + 1])
  {
    if |t| == 0 || !IsWhiteSpace(t[0]) then None
    else
      match BlankRunEnd(t[1..])
      case Some(k) =>
        assert t[..k + 2] == [t[0]] + t[1..][..k + 1];
        assert forall j :: k + 1 < j < |t| && t[j] == '\n' ==> !AllWhiteSpace(t[..j + 1]) by {
          forall j | k + 1 < j < |t| && t[j] == '\n' ensures !AllWhiteSpace(t[..j + 1]) {
            assert t[1..][j - 1] == t[j];
            NotAllWhiteSpaceShift(t, j);
          }
        }
        Some(k + 1)
      case None =>
        assert forall j :: 0 < j < |t| && t[j] == '\n' ==> !AllWhiteSpace(t[..j + 1]) by {
          forall j | 0 < j < |t| && t[j] == '\n' ensures !AllWhiteSpace(t[..j + 1]) {
            assert t[1..][j - 1] == t[j];
            NotAllWhiteSpaceShift(t, j);
          }
        }
        if t[0] == '\n' then Some(0) else None
  }

  lemma NotAllWhiteSpaceShift(t: string, j: nat)
    requires 0 < j < |t| && !AllWhiteSpace(t[1..][..j])
    ensures !AllWhiteSpace(t[..j + 1])
  {
    var k :| 0 <= k < j && !IsWhiteSpace(t[1..][..j][k]);
    assert t[..j + 1][k + 1] == t[1..][..j][k];
  }

  /**
   * The global replacement, scanning `t` left to right; `atLineStart` tells
   * whether `^` holds at the start of `t`. After a match the scan resumes
   * just past a `\n`, where `^` holds again.
   */
  function Scan(t: string, atLineStart: bool): string
    decreases |t|
  {
    if |t| == 0 then []
    else if atLineStart && BlankRunEnd(t).Some? then Scan(t[BlankRunEnd(t).value + 1..], true)
    else [t[0]] + Scan(t[1..], IsLineTerminator(t[0]))
  }

  function DeleteBlankLines(s: string): string
  {
    Scan(s, true)
  }

  /**
   * No line of `t` is blank: wherever `^` holds (at the start when
   * `atLineStart`, and after every line terminator), the white space that
   * follows does not reach a `\n`; that is, `/^\s*\n/m` matches nowhere.
   */
  predicate NoBlankLine(t: string, atLineStart: bool)
    decreases |t|
  {
    |t| == 0 || ((atLineStart ==> BlankRunEnd(t).None?) && NoBlankLine(t[1..], IsLineTerminator(t[0])))
  }

  /** A white-space run that reaches no `\n` passes through the scan untouched. */
  lemma {:induction false} ScanKeepsRun(t: string, atLineStart: bool)
    requires BlankRunEnd(t).None?
    ensures BlankRunEnd(Scan(t, atLineStart)).None?
    decreases |t|
  {
    if |t| > 0 && IsWhiteSpace(t[0]) {
      ScanKeepsRun(t[1..], IsLineTerminator(t[0]));
      var u := Scan(t, atLineStart);
      assert u[1..] == Scan(t[1..], IsLineTerminator(t[0]));
    }
  }

  /** After the replacement no blank line is left. */
  lemma {:induction false} ScanRemovesBlankLines(t: string, atLineStart: bool)
    ensures NoBlankLine(Scan(t, atLineStart), atLineStart)
    decreases |t|
  {
    if |t| == 0 {
    } else if atLineStart && BlankRunEnd(t).Some? {
      ScanRemovesBlankLines(t[BlankRunEnd(t).value + 1..], true);
    } else {
      ScanRemovesBlankLines(t[1..], IsLineTerminator(t[0]));
      if atLineStart {
        ScanKeepsRun(t, atLineStart);
      }
      var u := Scan(t, atLineStart);
      assert u[1..] == Scan(t[1..], IsLineTerminator(t[0]));
    }
  }

  /** Text without blank lines is left as it is. */
  lemma {:induction false} ScanKeepsCleanText(t: string, atLineStart: bool)
    requires NoBlankLine(t, atLineStart)
    ensures Scan(t, atLineStart) == t
    decreases |t|
  {
    if |t| > 0 {
      ScanKeepsCleanText(t[1..], IsLineTerminator(t[0]));
      assert [t[0]] + t[1..] == t;
    }
  }

  /** Deleting blank lines a second time changes nothing. */
  lemma DeleteBlankLinesIdempotent(s: string)
    ensures DeleteBlankLines(DeleteBlankLines(s)) == DeleteBlankLines(s)
  {
    ScanRemovesBlankLines(s, true);
    ScanKeepsCleanText(DeleteBlankLines(s), true);
  }

  /** The characters of `s` that are not white space, in order. */
  function NonWhite(s: string): string
    decreases |s|
  {
    if |s| == 0 then []
    else (if IsWhiteSpace(s[0]) then [] else [s[0]]) + NonWhite(s[1..])
  }

  lemma {:induction false} NonWhiteConcat(a: string, b: string)
    ensures NonWhite(a + b) == NonWhite(a) + NonWhite(b)
    decreases |a|
  {
    if |a| == 0 {
      assert a + b == b;
    } else {
      assert (a + b)[0] == a[0];
      assert (a + b)[1..] == a[1..] + b;
      NonWhiteConcat(a[1..], b);
    }
  }

  lemma {:induction false} NonWhiteOfWhite(s: string)
    requires AllWhiteSpace(s)
    ensures NonWhite(s) == []
    decreases |s|
  {
    if |s| > 0 {
      NonWhiteOfWhite(s[1..]);
    }
  }

  /**
   * The replacement drops no character that is not white space, and adds
   * or reorders none: only the white space of `t` may change.
   */
  lemma {:induction false} ScanDropsOnlyWhiteSpace(t: string, atLineStart: bool)
    ensures NonWhite(Scan(t, atLineStart)) == NonWhite(t)
    decreases |t|
  {
    if |t| == 0 {
    } else if atLineStart && BlankRunEnd(t).Some? {
      var k := BlankRunEnd(t).value;
      ScanDropsOnlyWhiteSpace(t[k + 1..], true);
      assert t == t[..k + 1] + t[k + 1..];
      NonWhiteConcat(t[..k + 1], t[k + 1..]);
      NonWhiteOfWhite(t[..k + 1]);
    } else {
      var rest := Scan(t[1..], IsLineTerminator(t[0]));
      ScanDropsOnlyWhiteSpace(t[1..], IsLineTerminator(t[0]));
      NonWhiteConcat([t[0]], rest);
      NonWhiteConcat([t[0]], t[1..]);
      assert [t[0]] + t[1..] == t;
    }
  }

  // ---------------------------------------------------------------------
  // Step 5: `.trim()`

  function TrimStart(s: string): (r: string)
    ensures |r| <= |s| && r == s[|s| - |r|..]
    ensures forall k :: 0 <= k < |s| - |r| ==> IsWhiteSpace(s[k])
    ensures |r| > 0 ==> !IsWhiteSpace(r[0])
  {
    if |s| > 0 && IsWhiteSpace(s[0]) then
      var r := TrimStart(s[1..]);
      assert s[1..][|s| - 1 - |r|..] == s[|s| - |r|..];
      assert forall k :: 1 <= k < |s| - |r| ==> s[k] == s[1..][k - 1];
      r
    else s
  }

  function TrimEnd(s: string): (r: string)
    ensures |r| <= |s| && r == s[..|r|]
    ensures forall k :: |r| <= k < |s| ==> IsWhiteSpace(s[k])
    ensures |r| > 0 ==> !IsWhiteSpace(r[|r| - 1])
  {
    if |s| > 0 && IsWhiteSpace(s[|s| - 1]) then
      var r := TrimEnd(s[..|s| - 1]);
      assert s[..|s| - 1][..|r|] == s[..|r|];
      assert forall k :: |r| <= k < |s| - 1 ==> s[k] == s[..|s| - 1][k];
      r
    else s
  }

  function Trim(s: string): (r: string)
  {
    TrimEnd(TrimStart(s))
  }

  /** Trimming the front removes white space only. */
  lemma TrimStartDropsOnlyWhiteSpace(s: string)
    ensures NonWhite(TrimStart(s)) == NonWhite(s)
  {
    var r := TrimStart(s);
    var w := s[..|s| - |r|];
    assert AllWhiteSpace(w) by {
      forall k | 0 <= k < |w| ensures IsWhiteSpace(w[k]) {
        assert w[k] == s[k];
      }
    }
    assert s == w + r;
    NonWhiteConcat(w, r);
    NonWhiteOfWhite(w);
  }

  /** Trimming the end removes white space only. */
  lemma TrimEndDropsOnlyWhiteSpace(s: string)
    ensures NonWhite(TrimEnd(s)) == NonWhite(s)
  {
    var r := TrimEnd(s);
    var w := s[|r|..];
    assert AllWhiteSpace(w) by {
      forall k | 0 <= k < |w| ensures IsWhiteSpace(w[k]) {
        assert w[k] == s[|r| + k];
      }
    }
    assert s == r + w;
    NonWhiteConcat(r, w);
    NonWhiteOfWhite(w);
  }

  /** Dropping a leading white-space character keeps text free of blank lines. */
  lemma NoBlankLineTail(s: string)
    requires |s| > 0 && IsWhiteSpace(s[0]) && NoBlankLine(s, true)
    ensures NoBlankLine(s[1..], true)
  {
  }

  lemma {:induction false} TrimStartKeepsNoBlankLine(s: string)
    requires NoBlankLine(s, true)
    ensures NoBlankLine(TrimStart(s), true)
    decreases |s|
  {
    if |s| > 0 && IsWhiteSpace(s[0]) {
      NoBlankLineTail(s);
      TrimStartKeepsNoBlankLine(s[1..]);
    }
  }

  lemma {:induction false} BlankRunEndPrefix(t: string, n: nat)
    requires n <= |t| && BlankRunEnd(t).None?
    ensures BlankRunEnd(t[..n]).None?
    decreases n
  {
    if n > 0 && IsWhiteSpace(t[0]) {
      BlankRunEndPrefix(t[1..], n - 1);
      assert t[..n][1..] == t[1..][..n - 1];
    }
  }

  lemma {:induction false} NoBlankLinePrefix(t: string, atLineStart: bool, n: nat)
    requires n <= |t| && NoBlankLine(t, atLineStart)
    ensures NoBlankLine(t[..n], atLineStart)
    decreases n
  {
    if n > 0 {
      if atLineStart {
        BlankRunEndPrefix(t, n);
      }
      NoBlankLinePrefix(t[1..], IsLineTerminator(t[0]), n - 1);
      assert t[..n][1..] == t[1..][..n - 1];
    }
  }

  // ---------------------------------------------------------------------
  // Steps 1-5 together (site/llm.js:95-102)

  function Clean(raw: string): string
  {
    Trim(DeleteBlankLines(StripClosingFence(StripOpeningFence(NormalizeNewlines(raw)))))
  }

  /** The cleaned text has no blank line and no white space at either end. */
  lemma CleanedTextShape(raw: string)
    ensures NoBlankLine(Clean(raw), true)
    ensures |Clean(raw)| > 0 ==> !IsWhiteSpace(Clean(raw)[0]) && !IsWhiteSpace(Clean(raw)[|Clean(raw)| - 1])
  {
    var c := StripClosingFence(StripOpeningFence(NormalizeNewlines(raw)));
    var d := DeleteBlankLines(c);
    ScanRemovesBlankLines(c, true);
    TrimStartKeepsNoBlankLine(d);
    var t := TrimStart(d);
    var e := TrimEnd(t);
    assert Clean(raw) == e;
    NoBlankLinePrefix(t, true, |e|);
    assert t[..|e|] == e;
  }

  /**
   * Deleting blank lines and trimming remove white space only: the cleaned
   * text keeps every other character left after the fences are stripped, in
   * order.
   */
  lemma CleaningKeepsText(raw: string)
    ensures NonWhite(Clean(raw)) == NonWhite(StripClosingFence(StripOpeningFence(NormalizeNewlines(raw))))
  {
    var c := StripClosingFence(StripOpeningFence(NormalizeNewlines(raw)));
    var d := DeleteBlankLines(c);
    ScanDropsOnlyWhiteSpace(c, true);
    TrimStartDropsOnlyWhiteSpace(d);
    TrimEndDropsOnlyWhiteSpace(TrimStart(d));
  }

  /**
   * A fenced block without carriage returns loses its opening line and its
   * closing fence; only blank lines and outer white space of the body go.
   */
  lemma FencedBlockUnwrapped(info: string, body: string)
    requires '\n' !in info && '\r' !in info && '\r' !in body
    ensures Clean(Fence + info + "\n" + body + "\n" + Fence) == Trim(DeleteBlankLines(body))
  {
    var tail := body + "\n" + Fence;
    var raw := Fence + info + "\n" + tail;
    assert Fence + info + "\n" + body + "\n" + Fence == raw;
    NoCarriageReturn(Fence + info + "\n", tail);
    OpeningFenceRemoved(info, tail);
    ClosingFenceRemoved(body);
  }

  /** Text without CR is left alone by the first step. */
  lemma NoCarriageReturn(a: string, b: string)
    requires '\r' !in a && '\r' !in b
    ensures NormalizeNewlines(a + b) == a + b
  {
    assert '\r' !in a + b;
    NormalizeNewlinesShape(a + b);
  }

  /** A closing fence at the very end goes with the LF before it. */
  lemma ClosingFenceRemoved(body: string)
    ensures StripClosingFence(body + "\n" + Fence) == body
  {
    var t := body + "\n" + Fence;
    assert t[|t| - 4..] == "\n" + Fence;
    assert t[..|t| - 4] == body;
  }

  /** A single line that starts with a non-blank character adds no blank line in front of clean text. */
  lemma {:induction false} NoBlankLineSingleLine(u: string, rest: string, atLineStart: bool)
    requires |u| > 0 && forall k :: 0 <= k < |u| ==> !IsLineTerminator(u[k])
    requires atLineStart ==> !IsWhiteSpace(u[0])
    requires NoBlankLine(rest, false)
    ensures NoBlankLine(u + rest, atLineStart)
    decreases |u|
  {
    assert (u + rest)[1..] == u[1..] + rest;
    if |u| > 1 {
      NoBlankLineSingleLine(u[1..], rest, false);
    }
  }

  /** A line terminator at the front adds no blank line when `^` does not hold there. */
  lemma NoBlankLineAfterTerminator(c: char, t: string)
    requires IsLineTerminator(c) && NoBlankLine(t, true)
    ensures NoBlankLine([c] + t, false)
  {
    assert ([c] + t)[1..] == t;
  }

  /** The fence line "```\n" is not blank. */
  lemma FenceLineNotBlank()
    ensures NoBlankLine(Fence + "\n", true)
  {
    var nl := "\n";
    assert NoBlankLine(nl, false) by {
      assert nl[1..] == [];
    }
    NoBlankLineSingleLine(Fence, nl, true);
  }

  /** A non-blank line followed by a fence line and a newline has no blank line. */
  lemma FenceLineIsNotBlank(line: string)
    requires |line| > 0 && forall k :: 0 <= k < |line| ==> !IsLineTerminator(line[k])
    requires !IsWhiteSpace(line[0])
    ensures NoBlankLine(line + "\n" + Fence + "\n", true)
  {
    var fenceLine := Fence + "\n";
    FenceLineNotBlank();
    NoBlankLineAfterTerminator('\n', fenceLine);
    NoBlankLineSingleLine(line, ['\n'] + fenceLine, true);
    assert line + "\n" + Fence + "\n" == line + (['\n'] + fenceLine);
  }

  /** Trimming a non-blank line and its fence line drops only the final newline. */
  lemma FenceLineTrimmed(line: string)
    requires |line| > 0 && !IsWhiteSpace(line[0])
    ensures Trim(line + "\n" + Fence + "\n") == line + "\n" + Fence
  {
    var tail := line + "\n" + Fence + "\n";
    var kept := line + "\n" + Fence;
    assert tail[0] == line[0];
    assert TrimStart(tail) == tail;
    assert tail[..|tail| - 1] == kept;
    assert kept[|kept| - 1] == '`';
    assert TrimEnd(kept) == kept;
  }

  /** The last three steps leave a non-blank line and its fence line, minus the final newline. */
  lemma FenceLineSurvivesCleaning(line: string)
    requires |line| > 0 && forall k :: 0 <= k < |line| ==> !IsLineTerminator(line[k])
    requires !IsWhiteSpace(line[0])
    ensures Trim(DeleteBlankLines(StripClosingFence(line + "\n" + Fence + "\n"))) == line + "\n" + Fence
  {
    var tail := line + "\n" + Fence + "\n";
    assert tail[|tail| - 1] == '\n';
    assert !EndsWith(tail, "\n" + Fence);
    FenceLineIsNotBlank(line);
    ScanKeepsCleanText(tail, true);
    FenceLineTrimmed(line);
  }

  /**
   * A closing fence followed by a newline is not the end of the text, so
   * the fence stays: a one-line body comes out followed by "\n```".
   */
  lemma FenceWithTrailingNewlineKept(info: string, line: string)
    requires '\n' !in info && '\r' !in info
    requires |line| > 0 && forall k :: 0 <= k < |line| ==> !IsLineTerminator(line[k])
    requires !IsWhiteSpace(line[0])
    ensures Clean(Fence + info + "\n" + line + "\n" + Fence + "\n") == line + "\n" + Fence
  {
    var tail := line + "\n" + Fence + "\n";
    var raw := Fence + info + "\n" + line + "\n" + Fence + "\n";
    assert raw == Fence + info + "\n" + tail;
    assert '\r' !in line;
    assert '\r' !in tail;
    NoCarriageReturn(Fence + info + "\n", tail);
    OpeningFenceRemoved(info, tail);
    FenceLineSurvivesCleaning(line);
  }

  // ---------------------------------------------------------------------
  // The fallback candidate: `cleanResponse.match(/(\{[\s\S]*\})/)`

  function ExtractObject(s: string): (r: Option<string>)
    ensures r.Some? ==> |r.value| >= 2 && r.value[0] == '{' && r.value[|r.value| - 1] == '}'
  {
    match FirstIndexOf(s, '{')
    case None => None
    case Some(i) =>
      match LastIndexOf(s, '}')
      case None => None
      case Some(j) => if i < j then Some(s[i..j + 1]) else None
  }

  /** The candidate runs from the first `{` to the last `}`. */
  lemma ExtractObjectSpan(s: string, i: nat, j: nat)
    requires i < j < |s|
    requires s[i] == '{' && '{' !in s[..i]
    requires s[j] == '}' && '}' !in s[j + 1..]
    ensures ExtractObject(s) == Some(s[i..j + 1])
  {
  }

  /** There is no candidate exactly when no `{` comes before a `}`. */
  lemma ExtractObjectAbsent(s: string)
    ensures ExtractObject(s).None? <==> forall i, j :: 0 <= i < j < |s| ==> !(s[i] == '{' && s[j] == '}')
  {
    if ExtractObject(s).Some? {
      var fi := FirstIndexOf(s, '{').value;
      var lj := LastIndexOf(s, '}').value;
      assert s[fi] == '{' && s[lj] == '}';
    }
  }

}
