/**
 * The pieces of java.lang that the booking core relies on: nullable strings,
 * the 32-bit `int`, `String.equalsIgnoreCase` and the decimal rendering of an
 * `int` inside a string concatenation.
 */
module JavaText {
  import opened Wrappers

  /** A Java `String` reference: null, or a sequence of characters. */
  datatype JString = Null | Str(chars: string)

  /** What string concatenation appends for a `String` operand ("null" for a null reference). */
  function Show(s: JString): string
  {
    match s
    case Null => "null"
    case Str(cs) => cs
  }

  /** Java's `int`. */
  newtype int32 = x: int | -0x8000_0000 <= x < 0x8000_0000

  // ---------------------------------------------------------------------------
  // Case-insensitive comparison

  predicate IsAsciiUpper(c: char) { 'A' <= c <= 'Z' }
  predicate IsAsciiLower(c: char) { 'a' <= c <= 'z' }
  predicate IsAsciiLetter(c: char) { IsAsciiUpper(c) || IsAsciiLower(c) }
  predicate IsAsciiWord(w: string) { forall i :: 0 <= i < |w| ==> IsAsciiLetter(w[i]) }

  /** The four non-ASCII characters whose Java case mapping is an ASCII letter. */
  const DottedCapitalI: char := '\U{0130}'  // 'İ', lower case 'i'
  const DotlessSmallI: char := '\U{0131}'   // 'ı', upper case 'I'
  const LongSmallS: char := '\U{017F}'      // 'ſ', upper case 'S'
  const KelvinSign: char := '\U{212A}'      // 'K', lower case 'k'

  /**
   * `Character.toUpperCase` on every character whose upper case is an ASCII
   * letter; every other character is returned unchanged. The real mapping
   * sends such characters to non-ASCII characters too, so the two agree on
   * every comparison with the upper case of an ASCII letter.
   */
  function ToUpperCase(c: char): char
  {
    if IsAsciiLower(c) then (c as int - 32) as char
    else if c == DotlessSmallI then 'I'
    else if c == LongSmallS then 'S'
    else c
  }

  /** `Character.toLowerCase`, restricted in the same way as `ToUpperCase`. */
  function ToLowerCase(c: char): char
  {
    if IsAsciiUpper(c) then (c as int + 32) as char
    else if c == DottedCapitalI then 'i'
    else if c == KelvinSign then 'k'
    else c
  }

  /**
   * The per-character test of `String.regionMatches(true, ...)`, on which
   * `equalsIgnoreCase` is built: equal, or equal upper cases, or equal lower
   * cases of the upper cases. Exact whenever `b` is an ASCII letter.
   */
  predicate CharEqualsIgnoreCase(a: char, b: char)
  {
    a == b
    || ToUpperCase(a) == ToUpperCase(b)
    || ToLowerCase(ToUpperCase(a)) == ToLowerCase(ToUpperCase(b))
  }

  /** `s.equalsIgnoreCase(t)` for a non-null `t`: same length, then character by character. */
  function EqualsIgnoreCase(s: string, t: string): (r: bool)
    ensures r <==> |s| == |t| && forall i :: 0 <= i < |s| ==> CharEqualsIgnoreCase(s[i], t[i])
  {
    if |s| != |t| then false
    else if |s| == 0 then true
    else
      var rest := EqualsIgnoreCase(s[1..], t[1..]);
      assert forall i :: 1 <= i < |s| ==> s[1..][i - 1] == s[i] && t[1..][i - 1] == t[i];
      CharEqualsIgnoreCase(s[0], t[0]) && rest
  }

  /**
   * Reference definition: every way of writing the ASCII letter `c` that
   * Java's case-insensitive comparison accepts.
   */
  function CaseVariants(c: char): (v: set<char>)
    requires IsAsciiLetter(c)
  {
    var lower := if IsAsciiUpper(c) then (c as int + 32) as char else c;
    var upper := (lower as int - 32) as char;
    {lower, upper}
    + (if lower == 'i' then {DottedCapitalI, DotlessSmallI} else {})
    + (if lower == 's' then {LongSmallS} else {})
    + (if lower == 'k' then {KelvinSign} else {})
  }

  /** `s` is `w` with the case of each letter chosen freely. */
  predicate IsCaseVariant(s: string, w: string)
    requires IsAsciiWord(w)
  {
    |s| == |w| && forall i :: 0 <= i < |s| ==> s[i] in CaseVariants(w[i])
  }

  /** Every ASCII word is a case variant of itself. */
  lemma CaseVariantOfItself(w: string)
    requires IsAsciiWord(w)
    ensures IsCaseVariant(w, w)
  {
    forall i | 0 <= i < |w| ensures w[i] in CaseVariants(w[i]) {
    }
  }

  /** Java's character test against an ASCII letter accepts exactly its case variants. */
  lemma CharEqualsIgnoreCaseLetter(a: char, b: char)
    requires IsAsciiLetter(b)
    ensures CharEqualsIgnoreCase(a, b) <==> a in CaseVariants(b)
  {
  }

  /** `equalsIgnoreCase` against an ASCII word accepts exactly its case variants. */
  lemma EqualsIgnoreCaseIsCaseVariant(s: string, w: string)
    requires IsAsciiWord(w)
    ensures EqualsIgnoreCase(s, w) <==> IsCaseVariant(s, w)
  {
    if |s| == |w| {
      forall i | 0 <= i < |s|
        ensures CharEqualsIgnoreCase(s[i], w[i]) <==> s[i] in CaseVariants(w[i])
      {
        CharEqualsIgnoreCaseLetter(s[i], w[i]);
      }
    }
  }

  // ---------------------------------------------------------------------------
  // Decimal rendering of an int

  predicate IsDigit(c: char) { '0' <= c <= '9' }
  predicate AllDigits(s: string) { forall i :: 0 <= i < |s| ==> IsDigit(s[i]) }

  function DigitChar(d: nat): char
    requires d < 10
  {
    ('0' as int + d) as char
  }

  /** The decimal digits of `n`, most significant first, without leading zeros. */
  function NatDigits(n: nat): (r: string)
    ensures |r| >= 1 && AllDigits(r)
    ensures |r| == 1 || r[0] != '0'
    ensures n < 10 ==> |r| == 1
    decreases n
  {
    if n < 10 then [DigitChar(n)]
    else NatDigits(n / 10) + [DigitChar(n % 10)]
  }

  /** What `"..." + n` appends for an `int` n (`Integer.toString`). */
  function DecimalString(n: int): (r: string)
    ensures |r| >= 1 && ' ' !in r
  {
    if n < 0 then "-" + NatDigits(-n) else NatDigits(n)
  }

  /** The value of a string of decimal digits. */
  function DigitsValue(s: string): nat
    requires AllDigits(s)
  {
    if |s| == 0 then 0
    else DigitsValue(s[..|s| - 1]) * 10 + (s[|s| - 1] as int - '0' as int)
  }

  /** Reads back an optionally signed decimal integer; `None` for anything else. */
  function ParseDecimal(s: string): Option<int>
  {
    if |s| >= 2 && s[0] == '-' && AllDigits(s[1..]) then Some(-(DigitsValue(s[1..]) as int))
    else if |s| >= 1 && AllDigits(s) then Some(DigitsValue(s))
    else None
  }

  lemma {:induction false} NatDigitsValue(n: nat)
    ensures DigitsValue(NatDigits(n)) == n
    decreases n
  {
    if n >= 10 {
      var p := NatDigits(n / 10);
      var s := p + [DigitChar(n % 10)];
      assert s[..|s| - 1] == p;
      NatDigitsValue(n / 10);
    }
  }

  /** A minus sign followed by digits parses as the negated value of the digits. */
  lemma ParseNegative(d: string)
    requires |d| >= 1 && AllDigits(d)
    ensures ParseDecimal("-" + d) == Some(-(DigitsValue(d) as int))
  {
    assert ("-" + d)[1..] == d;
  }

  /** A non-empty string of digits parses as its value. */
  lemma ParseNonNegative(d: string)
    requires |d| >= 1 && AllDigits(d)
    ensures ParseDecimal(d) == Some(DigitsValue(d) as int)
  {
    assert IsDigit(d[0]);
  }

  /** The decimal rendering of an int reads back as that int. */
  lemma DecimalStringRoundTrip(n: int)
    ensures ParseDecimal(DecimalString(n)) == Some(n)
  {
    if n < 0 {
      ParseNegative(NatDigits(-n));
      NatDigitsValue(-n);
    } else {
      ParseNonNegative(NatDigits(n));
      NatDigitsValue(n);
    }
  }
}
