/**
 * Character classes and searches of JavaScript's string and regular
 * expression built-ins, on strings of Unicode scalar values.
 */
module Text {

  import opened Wrappers

  /** ECMAScript LineTerminator: LF, CR, LINE SEPARATOR, PARAGRAPH SEPARATOR. */
  predicate IsLineTerminator(c: char)
  {
    c == '\n' || c == '\r' || c as int == 0x2028 || c as int == 0x2029
  }

  /**
   * What `\s` matches and what `String.prototype.trim` removes: a line
   * terminator, TAB, VT, FF, ZERO WIDTH NO-BREAK SPACE, or a space separator.
   */
  predicate IsWhiteSpace(c: char)
  {
    IsLineTerminator(c)
    || c as int in {0x09, 0x0B, 0x0C, 0x20, 0xA0, 0x1680, 0x202F, 0x205F, 0x3000, 0xFEFF}
    || 0x2000 <= c as int <= 0x200A
  }

  /** What `\d` matches: an ASCII digit. */
  predicate IsDigit(c: char)
  {
    '0' <= c <= '9'
  }

  predicate AllWhiteSpace(s: string)
  {
    forall k :: 0 <= k < |s| ==> IsWhiteSpace(s[k])
  }

  predicate AllDigits(s: string)
  {
    forall k :: 0 <= k < |s| ==> IsDigit(s[k])
  }

  predicate NoDigits(s: string)
  {
    forall k :: 0 <= k < |s| ==> !IsDigit(s[k])
  }

  predicate StartsWith(s: string, prefix: string)
  {
    |prefix| <= |s| && s[..|prefix|] == prefix
  }

  predicate EndsWith(s: string, suffix: string)
  {
    |suffix| <= |s| && s[|s| - |suffix|..] == suffix
  }

  /** `s.includes(t)` */
  predicate Contains(s: string, t: string)
  {
    exists i | 0 <= i <= |s| - |t| :: OccursAt(s, t, i)
  }

  predicate OccursAt(s: string, t: string, i: nat)
  {
    i + |t| <= |s| && s[i..i + |t|] == t
  }

  /** `s.indexOf(c)`, with None for -1. */
  function FirstIndexOf(s: string, c: char): (r: Option<nat>)
    ensures r.None? <==> c !in s
    ensures r.Some? ==> r.value < |s| && s[r.value] == c && c !in s[..r.value]
  {
    if |s| == 0 then None
    else if s[0] == c then Some(0)
    else
      match FirstIndexOf(s[1..], c)
      case None => None
      case Some(i) => Some(i + 1)
  }

  /** `s.lastIndexOf(c)`, with None for -1. */
  function LastIndexOf(s: string, c: char): (r: Option<nat>)
    ensures r.None? <==> c !in s
    ensures r.Some? ==> r.value < |s| && s[r.value] == c && c !in s[r.value + 1..]
  {
    if |s| == 0 then None
    else if s[|s| - 1] == c then Some(|s| - 1)
    else LastIndexOf(s[..|s| - 1], c)
  }

  /** The length of the run of digits that `s` starts with. */
  function LeadingDigits(s: string): (n: nat)
    ensures n <= |s| && AllDigits(s[..n])
    ensures n < |s| ==> !IsDigit(s[n])
  {
    if |s| == 0 || !IsDigit(s[0]) then 0 else 1 + LeadingDigits(s[1..])
  }

  /** `s.match(/\d+/)[0]`: the first maximal run of digits, None when `match` gives null. */
  function FirstDigitRun(s: string): (r: Option<string>)
    ensures r.None? <==> NoDigits(s)
    ensures r.Some? ==> |r.value| > 0 && AllDigits(r.value)
  {
    if |s| == 0 then None
    else if IsDigit(s[0]) then Some(s[..LeadingDigits(s)])
    else FirstDigitRun(s[1..])
  }

  /** The run FirstDigitRun finds starts at the first digit of `s` and extends as far as the digits go. */
  lemma {:induction false} FirstDigitRunAt(s: string, p: nat)
    requires p < |s| && IsDigit(s[p]) && NoDigits(s[..p])
    ensures FirstDigitRun(s) == Some(s[p..p + LeadingDigits(s[p..])])
  {
    if p > 0 {
      assert !IsDigit(s[0]) by { assert s[..p][0] == s[0]; }
      assert s[1..][p - 1..] == s[p..];
      assert s[1..][..p - 1] == s[..p][1..];
      FirstDigitRunAt(s[1..], p - 1);
      var n := LeadingDigits(s[p..]);
      assert s[1..][p - 1..p - 1 + n] == s[p..p + n];
    }
  }

  /** `parseInt` of a string of decimal digits. */
  function DecimalValue(digits: string): nat
    requires AllDigits(digits)
  {
    if |digits| == 0 then 0
    else 10 * DecimalValue(digits[..|digits| - 1]) + (digits[|digits| - 1] as int - '0' as int)
  }

}
