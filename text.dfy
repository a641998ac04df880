/** String rules of the .NET base library that the bot relies on, restricted to
    what the model needs: invariant-culture case mapping (ASCII letters only),
    ordinal prefix tests, `String.Replace`, `String.IndexOf`, the white space that
    number parsing skips, and decimal and hexadecimal digit values. */
module Text {
  import opened Wrappers

  function UpperChar(c: char): char {
    if 'a' <= c <= 'z' then (c as int - 32) as char else c
  }

  function LowerChar(c: char): char {
    if 'A' <= c <= 'Z' then (c as int + 32) as char else c
  }

  /** `ToUpperInvariant`, character by character. */
  function Upper(s: string): (r: string)
    ensures |r| == |s| && forall i :: 0 <= i < |s| ==> r[i] == UpperChar(s[i])
  {
    seq(|s|, i requires 0 <= i < |s| => UpperChar(s[i]))
  }

  /** `ToLowerInvariant`, character by character. */
  function Lower(s: string): (r: string)
    ensures |r| == |s| && forall i :: 0 <= i < |s| ==> r[i] == LowerChar(s[i])
  {
    seq(|s|, i requires 0 <= i < |s| => LowerChar(s[i]))
  }

  /** Upper-casing works character by character, so it splits over a
      concatenation. */
  lemma UpperConcat(a: string, b: string)
    ensures Upper(a + b) == Upper(a) + Upper(b)
  {
    assert forall i :: 0 <= i < |a + b| ==> Upper(a + b)[i] == (Upper(a) + Upper(b))[i];
  }

  /** Text without lower-case ASCII letters is its own upper case. */
  lemma UpperOfNoLower(s: string)
    requires forall i :: 0 <= i < |s| ==> !('a' <= s[i] <= 'z')
    ensures Upper(s) == s
  {
  }

  /** `StringComparer.OrdinalIgnoreCase` equality. */
  predicate SameIgnoringCase(a: string, b: string) {
    Upper(a) == Upper(b)
  }

  predicate StartsWith(s: string, prefix: string) {
    |prefix| <= |s| && s[..|prefix|] == prefix
  }

  /** `s.IndexOf(c)`, with `None` for the source's -1. */
  function IndexOf(s: string, c: char): (r: Option<nat>)
    ensures r.Some? ==> r.value < |s| && s[r.value] == c && c !in s[..r.value]
    ensures r.None? <==> c !in s
  {
    var k := FirstIndex(s, x => x == c);
    if k.Some? then
      assert forall j :: 0 <= j < k.value ==> s[..k.value][j] == s[j];
      k
    else
      assert forall j :: 0 <= j < |s| ==> s[j] != c;
      k
  }

  /** `s.Replace(pattern, replacement)`: every non-overlapping occurrence of
      `pattern`, scanning from the left, is replaced. */
  function ReplaceAll(s: string, pattern: string, replacement: string): (r: string)
    requires pattern != []
    ensures pattern[0] !in s ==> r == s
    ensures replacement == pattern ==> r == s
    ensures |s| < |pattern| ==> r == s
    decreases |s|
  {
    if |s| < |pattern| then s
    else if s[..|pattern|] == pattern then
      var tail := ReplaceAll(s[|pattern|..], pattern, replacement);
      assert pattern[0] in s by { assert s[0] == pattern[0]; }
      assert s == s[..|pattern|] + s[|pattern|..];
      replacement + tail
    else
      var tail := ReplaceAll(s[1..], pattern, replacement);
      assert pattern[0] !in s ==> pattern[0] !in s[1..];
      assert s == [s[0]] + s[1..];
      [s[0]] + tail
  }

  /** A prefix that does not contain the first character of the pattern passes
      through `ReplaceAll` unchanged. */
  lemma {:induction false} ReplaceAllSkipsPlainPrefix(plain: string, rest: string, pattern: string, replacement: string)
    requires pattern != [] && pattern[0] !in plain
    ensures ReplaceAll(plain + rest, pattern, replacement) == plain + ReplaceAll(rest, pattern, replacement)
    decreases |plain|
  {
    if plain != [] {
      var s := plain + rest;
      assert s[0] == plain[0] != pattern[0];
      if |s| < |pattern| {
        assert ReplaceAll(rest, pattern, replacement) == rest;
      } else {
        assert s[..|pattern|] != pattern by { assert s[..|pattern|][0] != pattern[0]; }
        assert s[1..] == plain[1..] + rest;
        ReplaceAllSkipsPlainPrefix(plain[1..], rest, pattern, replacement);
        assert [plain[0]] + plain[1..] == plain;
      }
    } else {
      assert plain + rest == rest;
    }
  }

  /** Regrouping a concatenation at a position of its left operand. */
  lemma ConcatSplitAt(s: string, i: nat, t: string)
    requires i <= |s|
    ensures s + t == s[..i] + (s[i..] + t)
  {
    assert s == s[..i] + s[i..];
  }

  /** A character at which no occurrence starts is kept and scanning resumes
      after it; `k` is a position where the text and the pattern differ, when
      enough text is left for an occurrence. */
  lemma ReplaceAllPassesChar(c: char, rest: string, pattern: string, replacement: string, k: nat)
    requires pattern != []
    requires |rest| + 1 >= |pattern| ==> k < |pattern| && ([c] + rest)[k] != pattern[k]
    ensures ReplaceAll([c] + rest, pattern, replacement) == [c] + ReplaceAll(rest, pattern, replacement)
  {
    var s := [c] + rest;
    assert s[1..] == rest;
    if |s| >= |pattern| {
      assert s[..|pattern|][k] != pattern[k];
    }
  }

  /** A word that starts like the pattern but differs from it at its second
      character, and holds the pattern's first character nowhere else, is
      kept and scanning resumes after it. */
  lemma ReplaceAllPassesWord(w: string, tail: string, pattern: string, replacement: string)
    requires 2 <= |w| && 2 <= |pattern| && w[1] != pattern[1] && pattern[0] !in w[1..]
    ensures ReplaceAll(w + tail, pattern, replacement) == w + ReplaceAll(tail, pattern, replacement)
  {
    var rest := w[1..] + tail;
    ReplaceAllSkipsPlainPrefix(w[1..], tail, pattern, replacement);
    ReplaceAllPassesChar(w[0], rest, pattern, replacement, 1);
    ConcatSplitAt(w, 1, tail);
    ConcatSplitAt(w, 1, ReplaceAll(tail, pattern, replacement));
    assert w[..1] == [w[0]];
  }

  /** An occurrence at the front is replaced and scanning resumes after it. */
  lemma ReplaceAllAtFront(rest: string, pattern: string, replacement: string)
    requires pattern != []
    ensures ReplaceAll(pattern + rest, pattern, replacement) == replacement + ReplaceAll(rest, pattern, replacement)
  {
    var s := pattern + rest;
    assert s[..|pattern|] == pattern;
    assert s[|pattern|..] == rest;
  }

  /** The white space `NumberStyles.AllowLeadingWhite`/`AllowTrailingWhite`
      skip: U+0009 to U+000D and U+0020. */
  predicate IsWhite(c: char) {
    c == ' ' || '\t' <= c <= '\r'
  }

  function TrimStartWhite(s: string): (r: string)
    ensures |r| <= |s| && r == s[|s| - |r|..]
    ensures r != [] ==> !IsWhite(r[0])
    ensures forall i :: 0 <= i < |s| - |r| ==> IsWhite(s[i])
    decreases |s|
  {
    if s != [] && IsWhite(s[0]) then TrimStartWhite(s[1..]) else s
  }

  function TrimEndWhite(s: string): (r: string)
    ensures |r| <= |s| && r == s[..|r|]
    ensures r != [] ==> !IsWhite(r[|r| - 1])
    ensures forall i :: |r| <= i < |s| ==> IsWhite(s[i])
    decreases |s|
  {
    if s != [] && IsWhite(s[|s| - 1]) then TrimEndWhite(s[..|s| - 1]) else s
  }

  /** Leading and trailing white space removed, as number parsing does. */
  function TrimWhite(s: string): string {
    TrimEndWhite(TrimStartWhite(s))
  }

  lemma TrimWhiteOfNoWhite(s: string)
    requires forall i :: 0 <= i < |s| ==> !IsWhite(s[i])
    ensures TrimWhite(s) == s
  {
  }

  /** Trimming removes exactly the white space around a text that neither starts
      nor ends with white space. */
  lemma TrimWhiteOfPadded(lead: string, s: string, trail: string)
    requires forall i :: 0 <= i < |lead| ==> IsWhite(lead[i])
    requires forall i :: 0 <= i < |trail| ==> IsWhite(trail[i])
    requires s != [] && !IsWhite(s[0]) && !IsWhite(s[|s| - 1])
    ensures TrimWhite(lead + s + trail) == s
  {
    var all := lead + (s + trail);
    assert lead + s + trail == all;
    var front := TrimStartWhite(all);
    assert all[|lead|] == s[0];
    assert front == s + trail;
    assert front[|s| - 1] == s[|s| - 1];
    assert TrimEndWhite(front) == s;
  }

  predicate IsDigit(c: char) {
    '0' <= c <= '9'
  }

  predicate AllDigits(s: string) {
    forall i :: 0 <= i < |s| ==> IsDigit(s[i])
  }

  /** The value of a string of decimal digits, most significant first. */
  function DecimalValue(s: string): nat
    requires AllDigits(s)
    decreases |s|
  {
    if s == [] then 0 else DecimalValue(s[..|s| - 1]) * 10 + (s[|s| - 1] as int - '0' as int)
  }

  /** A digit of `NumberStyles.HexNumber`, in either case. */
  predicate IsHexDigit(c: char) {
    IsDigit(c) || 'A' <= c <= 'F' || 'a' <= c <= 'f'
  }

  predicate AllHexDigits(s: string) {
    forall i :: 0 <= i < |s| ==> IsHexDigit(s[i])
  }

  function HexDigitValue(c: char): (r: nat)
    requires IsHexDigit(c)
    ensures r < 16
  {
    if IsDigit(c) then c as int - '0' as int
    else if 'A' <= c <= 'F' then c as int - 'A' as int + 10
    else c as int - 'a' as int + 10
  }

  /** The value of a string of hexadecimal digits, most significant first. */
  function HexValue(s: string): nat
    requires AllHexDigits(s)
    decreases |s|
  {
    if s == [] then 0 else HexValue(s[..|s| - 1]) * 16 + HexDigitValue(s[|s| - 1])
  }

  function Pow16(n: nat): (r: nat)
    ensures r >= 1
  {
    if n == 0 then 1 else 16 * Pow16(n - 1)
  }

  /** `n` hexadecimal digits hold a value below 16^n. */
  lemma {:induction false} HexValueBound(s: string)
    requires AllHexDigits(s)
    ensures HexValue(s) < Pow16(|s|)
    decreases |s|
  {
    if s != [] {
      var init := s[..|s| - 1];
      HexValueBound(init);
      assert HexValue(init) + 1 <= Pow16(|init|);
      assert HexValue(s) == HexValue(init) * 16 + HexDigitValue(s[|s| - 1]);
      assert HexValue(s) < (HexValue(init) + 1) * 16;
    }
  }

  /** Upper-case hexadecimal digit of a value below 16. */
  function HexChar(d: nat): (c: char)
    requires d < 16
    ensures IsHexDigit(c) && HexDigitValue(c) == d && UpperChar(c) == c
  {
    if d < 10 then ('0' as int + d) as char else ('A' as int + d - 10) as char
  }

  /** `v` written with exactly `n` upper-case hexadecimal digits (leading zeros
      kept), the format the bot's users type colours in. */
  function HexDigits(v: nat, n: nat): (r: string)
    ensures |r| == n && AllHexDigits(r)
    ensures forall i :: 0 <= i < n ==> IsDigit(r[i]) || 'A' <= r[i] <= 'F'
    decreases n
  {
    if n == 0 then [] else HexDigits(v / 16, n - 1) + [HexChar(v % 16)]
  }

  /** Printing with `n` digits and reading back recovers any value below 16^n. */
  lemma {:induction false} HexDigitsRoundTrip(v: nat, n: nat)
    requires v < Pow16(n)
    ensures HexValue(HexDigits(v, n)) == v
    decreases n
  {
    if n > 0 {
      var s := HexDigits(v, n);
      assert s[..n - 1] == HexDigits(v / 16, n - 1);
      assert v / 16 < Pow16(n - 1);
      HexDigitsRoundTrip(v / 16, n - 1);
      assert HexValue(s) == HexValue(HexDigits(v / 16, n - 1)) * 16 + HexDigitValue(HexChar(v % 16));
    }
  }
}
