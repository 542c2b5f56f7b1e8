/**
 * The two string helpers of the widget: `clampDigits`, which strips a formatted phone
 * number down to the characters a dial string may hold, and `isoToEmojiFlag`, which turns
 * an ISO 3166-1 alpha-2 country code into the pair of Regional Indicator Symbols that
 * Unicode Technical Standard #51 (definition ED-14) calls an emoji flag sequence.
 * Strings are `seq<char>`; the flag is given as its sequence of Unicode code points.
 */
module Utils {
  import opened Wrappers
  import opened Sequences

  // ---------------------------------------------------------------------------
  // clampDigits
  // ---------------------------------------------------------------------------

  /** The characters the clamp keeps: the ASCII digits and the plus sign. */
  predicate IsDialChar(c: char) {
    '0' <= c <= '9' || c == '+'
  }

  predicate OnlyDialChars(s: string) {
    forall i :: 0 <= i < |s| ==> IsDialChar(s[i])
  }

  /** Deletes every character that is neither `0`-`9` nor `+` (a global replace of `[^0-9+]`). */
  function ClampDigits(value: string): (r: string)
    ensures OnlyDialChars(r)
    ensures |r| <= |value|
  {
    Filter(value, IsDialChar)
  }

  /**
   * The clamp keeps each digit and each `+` as often as it occurs and nothing else;
   * together with ClampIsSubsequence this says the result is exactly the dial characters
   * of the input in their original order (so its length is their number).
   */
  lemma {:induction false} ClampKeepsDialChars(value: string, c: char)
    ensures multiset(ClampDigits(value))[c] == if IsDialChar(c) then multiset(value)[c] else 0
  {
    FilterCount(value, IsDialChar, c);
  }

  lemma {:induction false} ClampIsSubsequence(value: string)
    ensures IsSubsequence(ClampDigits(value), value)
  {
    FilterIsSubsequence(value, IsDialChar);
  }

  /** A string is unchanged by the clamp exactly when it holds only dial characters. */
  lemma {:induction false} ClampFixedPoints(value: string)
    ensures ClampDigits(value) == value <==> OnlyDialChars(value)
  {
    FilterFixedPoint(value, IsDialChar);
  }

  lemma {:induction false} ClampIdempotent(value: string)
    ensures ClampDigits(ClampDigits(value)) == ClampDigits(value)
  {
    FilterIdempotent(value, IsDialChar);
  }

  lemma {:induction false} ClampDistributes(a: string, b: string)
    ensures ClampDigits(a + b) == ClampDigits(a) + ClampDigits(b)
  {
    FilterAppend(a, b, IsDialChar);
  }

  /** The clamp does not normalise `+`: interior and repeated plus signs survive. */
  lemma PlusSignsSurvive()
    ensures ClampDigits("1+2") == "1+2"
    ensures ClampDigits("++64") == "++64"
  {
    ClampFixedPoints("1+2");
    ClampFixedPoints("++64");
  }

  // ---------------------------------------------------------------------------
  // isoToEmojiFlag
  // ---------------------------------------------------------------------------

  /** 127397 + code('A') == 0x1F1E6, REGIONAL INDICATOR SYMBOL LETTER A. */
  const RegionalIndicatorOffset: int := 127397
  const RegionalIndicatorA: int := 0x1F1E6
  const RegionalIndicatorZ: int := 0x1F1FF

  /** The fallback glyph: U+1F3F3 WAVING WHITE FLAG followed by U+FE0F VARIATION SELECTOR-16. */
  const WhiteFlag: seq<int> := [0x1F3F3, 0xFE0F]

  /** The model's domain: ASCII strings, whose JavaScript length and upper case agree with Dafny's. */
  predicate IsAscii(s: string) {
    forall i :: 0 <= i < |s| ==> s[i] as int < 128
  }

  predicate IsAsciiLetter(c: char) {
    'A' <= c <= 'Z' || 'a' <= c <= 'z'
  }

  /** `toUpperCase` on one ASCII character. */
  function UpperAscii(c: char): char {
    if 'a' <= c <= 'z' then (c as int - 32) as char else c
  }

  function ToUpperAscii(s: string): string {
    seq(|s|, i requires 0 <= i < |s| => UpperAscii(s[i]))
  }

  /** Position of a letter in the alphabet, ignoring case: `a` and `A` are 0, `z` and `Z` are 25. */
  function LetterIndex(c: char): (n: int)
    requires IsAsciiLetter(c)
    ensures 0 <= n < 26
  {
    if 'a' <= c <= 'z' then c as int - 'a' as int else c as int - 'A' as int
  }

  /** Two Regional Indicator Symbols: an emoji flag sequence. */
  predicate IsFlagSequence(r: seq<int>) {
    |r| == 2 && forall k :: 0 <= k < 2 ==> RegionalIndicatorA <= r[k] <= RegionalIndicatorZ
  }

  /** `String.fromCodePoint(...iso.toUpperCase().split('').map(c => 127397 + c.charCodeAt(0)))`. */
  function FlagCodePoints(upper: string): seq<int> {
    seq(|upper|, i requires 0 <= i < |upper| => RegionalIndicatorOffset + upper[i] as int)
  }

  function IsoToEmojiFlag(iso: string): (r: seq<int>)
    requires IsAscii(iso)
    ensures |iso| != 2 ==> r == WhiteFlag
    ensures |iso| == 2 ==> |r| == 2
    ensures |iso| == 2 ==> forall k :: 0 <= k < 2 ==> r[k] == RegionalIndicatorOffset + UpperAscii(iso[k]) as int
    ensures |iso| == 2 && IsAsciiLetter(iso[0]) && IsAsciiLetter(iso[1]) ==>
      IsFlagSequence(r) && r == [RegionalIndicatorA + LetterIndex(iso[0]), RegionalIndicatorA + LetterIndex(iso[1])]
  {
    if |iso| != 2 then WhiteFlag
    else FlagCodePoints(ToUpperAscii(iso))
  }

  /** Reads the two letters back from an emoji flag sequence; `None` for anything else. */
  function FlagLetters(r: seq<int>): (letters: Option<string>)
    ensures letters.Some? <==> IsFlagSequence(r)
    ensures letters.Some? ==> |letters.value| == 2 && forall k :: 0 <= k < 2 ==> 'A' <= letters.value[k] <= 'Z'
  {
    if IsFlagSequence(r)
    then Some([(r[0] - RegionalIndicatorOffset) as char, (r[1] - RegionalIndicatorOffset) as char])
    else None
  }

  /** A two-letter code's flag reads back as the code in upper case. */
  lemma FlagRoundTrip(iso: string)
    requires IsAscii(iso) && |iso| == 2 && IsAsciiLetter(iso[0]) && IsAsciiLetter(iso[1])
    ensures FlagLetters(IsoToEmojiFlag(iso)) == Some(ToUpperAscii(iso))
  {
    var r := IsoToEmojiFlag(iso);
    assert FlagLetters(r).value == ToUpperAscii(iso);
  }

  /** Every emoji flag sequence is the flag of the two letters it encodes. */
  lemma FlagFromLetters(r: seq<int>)
    requires IsFlagSequence(r)
    ensures FlagLetters(r).Some? && IsAscii(FlagLetters(r).value)
    ensures IsoToEmojiFlag(FlagLetters(r).value) == r
  {
    var letters := FlagLetters(r).value;
    assert IsoToEmojiFlag(letters)[0] == r[0];
    assert IsoToEmojiFlag(letters)[1] == r[1];
  }

  /** The fallback glyph is not a flag, so it can never be confused with a country's flag. */
  lemma FallbackIsNoFlag(iso: string)
    requires IsAscii(iso) && |iso| != 2
    ensures FlagLetters(IsoToEmojiFlag(iso)).None?
  {
  }

  /** Codes that agree up to ASCII case get the same glyph. */
  lemma FlagIgnoresCase(a: string, b: string)
    requires IsAscii(a) && IsAscii(b)
    requires ToUpperAscii(a) == ToUpperAscii(b)
    ensures IsoToEmojiFlag(a) == IsoToEmojiFlag(b)
  {
    assert |a| == |ToUpperAscii(a)| == |b|;
  }

  /** Different two-letter codes (ignoring case) get different flags. */
  lemma FlagInjective(a: string, b: string)
    requires IsAscii(a) && |a| == 2 && IsAsciiLetter(a[0]) && IsAsciiLetter(a[1])
    requires IsAscii(b) && |b| == 2 && IsAsciiLetter(b[0]) && IsAsciiLetter(b[1])
    requires IsoToEmojiFlag(a) == IsoToEmojiFlag(b)
    ensures ToUpperAscii(a) == ToUpperAscii(b)
  {
    FlagRoundTrip(a);
    FlagRoundTrip(b);
  }

  lemma NewZealandFlag()
    ensures IsoToEmojiFlag("nz") == IsoToEmojiFlag("NZ") == [0x1F1F3, 0x1F1FF]
  {
    FlagIgnoresCase("nz", "NZ");
  }
}
