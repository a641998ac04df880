/** `DiscordUtils.ToHex` (Bot.Core/Utils.cs): reads a colour written as at most six
    hexadecimal digits. */
module DiscordUtils {
  import Text

  /** What a call of `ToHex` comes to: it returns its boolean together with the
      `out` value, or `uint.Parse` throws a `FormatException`. */
  datatype HexOutcome = Returned(ok: bool, outVal: nat) | FormatException

  /** What `uint.Parse(s, NumberStyles.HexNumber)` accepts: hexadecimal digits
      with optional leading and trailing white space, and at least one digit. */
  predicate HexParsable(s: string) {
    var digits := Text.TrimWhite(s);
    digits != [] && Text.AllHexDigits(digits)
  }

  /** Six hexadecimal digits never exceed 0xFFFFFF. */
  lemma AtMostSixHexDigits(s: string)
    requires Text.AllHexDigits(s) && |s| <= 6
    ensures Text.HexValue(s) <= 0xFF_FFFF
  {
    Text.HexValueBound(s);
    assert Text.Pow16(1) == 16;
    assert Text.Pow16(3) == 4096;
    assert Text.Pow16(6) == 0x100_0000;
    assert Text.Pow16(|s|) <= Text.Pow16(6);
  }

  function ToHex(input: string): (r: HexOutcome)
    ensures r == Returned(false, 0) <==> |input| > 6
    ensures r.Returned? && r.ok ==> r.outVal <= 0xFF_FFFF
    ensures r == FormatException <==> |input| <= 6 && !HexParsable(Text.Upper(input))
  {
    var upper := Text.Upper(input);
    if |upper| > 6 then Returned(false, 0)
    else if HexParsable(upper) then
      var digits := Text.TrimWhite(upper);
      AtMostSixHexDigits(digits);
      Returned(true, Text.HexValue(digits))
    else FormatException
  }

  /** Reading is case-insensitive: inputs that agree after upper-casing read alike. */
  lemma ToHexIgnoresCase(a: string, b: string)
    requires Text.Upper(a) == Text.Upper(b)
    ensures ToHex(a) == ToHex(b)
  {
  }

  /** Upper-case hexadecimal digits are left alone by upper-casing and survive a
      round through lower case. */
  lemma UpperHexDigitsKeepCase(h: string)
    requires forall i :: 0 <= i < |h| ==> Text.IsDigit(h[i]) || 'A' <= h[i] <= 'F'
    ensures Text.Upper(h) == h && Text.Upper(Text.Lower(h)) == h
  {
    forall i | 0 <= i < |h| ensures Text.Upper(h)[i] == h[i] {
    }
    forall i | 0 <= i < |h| ensures Text.Upper(Text.Lower(h))[i] == h[i] {
      assert Text.Lower(h)[i] == Text.LowerChar(h[i]);
    }
  }

  /** Upper-case hexadecimal digits, at most six, are read as their value, and
      so are the same digits in lower case. */
  lemma ToHexOfUpperDigits(h: string)
    requires 0 < |h| <= 6
    requires forall i :: 0 <= i < |h| ==> Text.IsDigit(h[i]) || 'A' <= h[i] <= 'F'
    ensures Text.AllHexDigits(h)
    ensures ToHex(h) == Returned(true, Text.HexValue(h))
    ensures ToHex(Text.Lower(h)) == Returned(true, Text.HexValue(h))
  {
    UpperHexDigitsKeepCase(h);
    Text.TrimWhiteOfNoWhite(h);
    ToHexIgnoresCase(h, Text.Lower(h));
  }

  /** White space and upper-case hexadecimal digits have no lower-case letter
      to map. */
  lemma UpperOfPaddedDigits(lead: string, h: string, trail: string)
    requires forall i :: 0 <= i < |lead| ==> Text.IsWhite(lead[i])
    requires forall i :: 0 <= i < |trail| ==> Text.IsWhite(trail[i])
    requires forall i :: 0 <= i < |h| ==> Text.IsDigit(h[i]) || 'A' <= h[i] <= 'F'
    ensures Text.Upper(lead + h + trail) == lead + h + trail
  {
    Text.UpperConcat(lead + h, trail);
    Text.UpperConcat(lead, h);
    Text.UpperOfNoLower(lead);
    Text.UpperOfNoLower(h);
    Text.UpperOfNoLower(trail);
  }

  /** An upper-case input of at most six characters that trims to hexadecimal
      digits is read as their value. */
  lemma ToHexOfTrimmed(input: string, h: string)
    requires |input| <= 6 && Text.Upper(input) == input
    requires Text.TrimWhite(input) == h && h != [] && Text.AllHexDigits(h)
    ensures ToHex(input) == Returned(true, Text.HexValue(h))
  {
  }

  /** Upper-casing and trimming white space reduce the padded digits to the
      digits alone. */
  lemma PaddedDigitsNormalise(lead: string, h: string, trail: string)
    requires h != []
    requires forall i :: 0 <= i < |lead| ==> Text.IsWhite(lead[i])
    requires forall i :: 0 <= i < |trail| ==> Text.IsWhite(trail[i])
    requires forall i :: 0 <= i < |h| ==> Text.IsDigit(h[i]) || 'A' <= h[i] <= 'F'
    ensures Text.Upper(lead + h + trail) == lead + h + trail
    ensures Text.TrimWhite(lead + h + trail) == h
  {
    UpperOfPaddedDigits(lead, h, trail);
    assert !Text.IsWhite(h[0]) && !Text.IsWhite(h[|h| - 1]);
    Text.TrimWhiteOfPadded(lead, h, trail);
  }

  /** Hexadecimal digits between white space read as the digits alone. */
  lemma ToHexOfPaddedDigits(lead: string, h: string, trail: string)
    requires 0 < |lead| + |h| + |trail| <= 6 && h != []
    requires forall i :: 0 <= i < |lead| ==> Text.IsWhite(lead[i])
    requires forall i :: 0 <= i < |trail| ==> Text.IsWhite(trail[i])
    requires forall i :: 0 <= i < |h| ==> Text.IsDigit(h[i]) || 'A' <= h[i] <= 'F'
    ensures Text.AllHexDigits(h)
    ensures ToHex(lead + h + trail) == Returned(true, Text.HexValue(h))
  {
    PaddedDigitsNormalise(lead, h, trail);
    ToHexOfTrimmed(lead + h + trail, h);
  }

  /** Every colour value, written as six hexadecimal digits in upper or lower
      case, is read back as itself. */
  lemma ToHexReadsSixDigits(v: nat)
    requires v <= 0xFF_FFFF
    ensures ToHex(Text.HexDigits(v, 6)) == Returned(true, v)
    ensures ToHex(Text.Lower(Text.HexDigits(v, 6))) == Returned(true, v)
  {
    assert Text.Pow16(6) == 0x100_0000;
    Text.HexDigitsRoundTrip(v, 6);
    ToHexOfUpperDigits(Text.HexDigits(v, 6));
  }
}
