/** The value helpers of the viewer parser: date and time reformatting, value
    and code cleaning, tolerant integer and amount conversion, and the safe
    element accessor. */
module Values {
  import opened Wrappers
  import opened Text

  /** `YYYYMMDD` becomes `YYYY-MM-DD`; any other length is returned as is. */
  function ParseDate(s: string): (r: string)
    ensures |s| == 8 ==> |r| == 10 && r[4] == '-' && r[7] == '-' && r[..4] + r[5..7] + r[8..] == s
    ensures |s| != 8 ==> r == s
  {
    if |s| != 8 then s
    else
      var r := s[..4] + "-" + s[4..6] + "-" + s[6..];
      assert r[..4] + r[5..7] + r[8..] == s[..4] + s[4..6] + s[6..];
      assert s[..4] + s[4..6] + s[6..] == s;
      r
  }

  /** `HHMM...` becomes `HH:MM` (anything after the fourth character is
      dropped); shorter text is returned as is. */
  function ParseTime(s: string): (r: string)
    ensures |s| >= 4 ==> |r| == 5 && r[2] == ':' && r[..2] + r[3..] == s[..4]
    ensures |s| < 4 ==> r == s
  {
    if |s| < 4 then s else s[..2] + ":" + s[2..4]
  }

  /** Every `~` removed, then surrounding whitespace stripped. */
  function CleanValue(v: string): (r: string) {
    Strip(Remove(v, '~'))
  }

  /** A cleaned value has no `~`, no surrounding whitespace and no character
      the input lacks; a value without either is already clean. */
  lemma CleanValueShape(v: string)
    ensures var r := CleanValue(v);
      && '~' !in r
      && (r == [] || (!IsSpace(r[0]) && !IsSpace(r[|r| - 1])))
      && (forall c :: c in r ==> c in v)
      && ('~' !in v && (v == [] || (!IsSpace(v[0]) && !IsSpace(v[|v| - 1]))) ==> r == v)
  {
    RemoveChar(v, '~');
    StripShape(Remove(v, '~'));
  }

  /** Cleaning an already cleaned value changes nothing. */
  lemma CleanValueIdempotent(v: string)
    ensures CleanValue(CleanValue(v)) == CleanValue(v)
  {
    CleanValueShape(v);
    CleanValueShape(CleanValue(v));
  }

  /** A code with qualifier prefixes keeps only its last `:`-separated
      component. */
  function CleanCode(code: string): (r: string) {
    var cleaned := CleanValue(code);
    if ':' in cleaned then LastPiece(cleaned, ':') else cleaned
  }

  /** The cleaned code is the part of the cleaned value after its last `:`,
      the whole cleaned value when it has none. */
  lemma CleanCodeLastComponent(code: string)
    ensures var r := CleanCode(code); var cleaned := CleanValue(code);
      && ':' !in r
      && |r| <= |cleaned| && r == cleaned[|cleaned| - |r|..]
      && (|r| < |cleaned| ==> cleaned[|cleaned| - |r| - 1] == ':')
  {
    var cleaned := CleanValue(code);
    if ':' in cleaned {
      LastPieceSuffix(cleaned, ':');
    }
  }

  /** `s.split(c)[-1]`. */
  function LastPiece(s: string, c: char): (r: string) {
    var parts := Split(s, c);
    parts[|parts| - 1]
  }

  /** The last piece is the longest suffix free of `c`. */
  lemma LastPieceSuffix(s: string, c: char)
    ensures var r := LastPiece(s, c);
      && c !in r
      && |r| <= |s| && r == s[|s| - |r|..] && (|r| < |s| ==> s[|s| - |r| - 1] == c)
  {
    SplitLast(s, c);
  }

  /** `elements[index]` when the index is in range, otherwise `default`. */
  function El(elements: seq<string>, index: nat, default: string): (r: string)
    ensures index < |elements| ==> r == elements[index]
    ensures index >= |elements| ==> r == default
  {
    if |elements| > index then elements[index] else default
  }

  // ---------------------------------------------------------------------------
  // Integers
  // ---------------------------------------------------------------------------

  function DigitValue(c: char): (d: nat)
    requires IsDigit(c)
  {
    c as int - '0' as int
  }

  function DigitChar(d: nat): (c: char)
    requires d < 10
    ensures IsDigit(c) && DigitValue(c) == d
  {
    ('0' as int + d) as char
  }

  /** The value of a string of decimal digits, most significant first. */
  function DigitsValue(s: string): (n: nat)
    requires forall i :: 0 <= i < |s| ==> IsDigit(s[i])
  {
    if s == [] then 0 else DigitsValue(s[..|s| - 1]) * 10 + DigitValue(s[|s| - 1])
  }

  /** Decimal digits where a single `_` may stand between two digits, the
      grouping Python's `int()` accepts. */
  predicate GroupedDigits(s: string) {
    |s| > 0 && forall i :: 0 <= i < |s| ==> DigitOrGroupMark(s, i)
  }

  predicate DigitOrGroupMark(s: string, i: nat)
    requires i < |s|
  {
    IsDigit(s[i]) || (s[i] == '_' && 0 < i < |s| - 1 && IsDigit(s[i - 1]) && IsDigit(s[i + 1]))
  }

  function UnsignedValue(s: string): (n: nat)
    requires GroupedDigits(s)
  {
    var digits := Remove(s, '_');
    assert forall i :: 0 <= i < |digits| ==> IsDigit(digits[i]) by {
      RemoveChar(s, '_');
      forall i | 0 <= i < |digits|
        ensures IsDigit(digits[i])
      {
        assert digits[i] in s && digits[i] != '_';
        var j :| 0 <= j < |s| && s[j] == digits[i];
        assert DigitOrGroupMark(s, j);
      }
    }
    DigitsValue(digits)
  }

  /** Python's `int(s)` in base 10 on ASCII text: surrounding whitespace, an
      optional sign, then grouped digits; `None` where Python raises. */
  function ParseInt(s: string): (r: Option<int>) {
    ParseSigned(Strip(s))
  }

  function ParseSigned(t: string): (r: Option<int>) {
    if |t| > 0 && (t[0] == '+' || t[0] == '-') then
      if GroupedDigits(t[1..]) then
        var magnitude: int := UnsignedValue(t[1..]);
        Some(if t[0] == '-' then -magnitude else magnitude)
      else None
    else if GroupedDigits(t) then Some(UnsignedValue(t))
    else None
  }

  /** `int(clean_value(value)) or default`, and `default` when the conversion
      fails: a value of zero is replaced by the default as well. */
  function SafeInt(value: string, default: int): (r: int)
    ensures value == [] ==> r == default
    ensures r == 0 ==> default == 0
    ensures r != default ==> ParseInt(CleanValue(value)) == Some(r)
    ensures value != [] && ParseInt(CleanValue(value)).Some? && ParseInt(CleanValue(value)).value != 0
      ==> r == ParseInt(CleanValue(value)).value
    ensures ParseInt(CleanValue(value)).None? || ParseInt(CleanValue(value)) == Some(0) ==> r == default
  {
    if value == [] then default
    else
      match ParseInt(CleanValue(value))
      case Some(n) => if n != 0 then n else default
      case None => default
  }

  /** The decimal text of a natural number, without leading zeros. */
  function NatText(n: nat): (r: string)
    ensures |r| > 0
    ensures forall i :: 0 <= i < |r| ==> IsDigit(r[i])
  {
    if n < 10 then [DigitChar(n)] else NatText(n / 10) + [DigitChar(n % 10)]
  }

  /** The decimal text of an integer, `-` first when it is negative. */
  function IntText(n: int): (r: string) {
    if n < 0 then "-" + NatText(-n) else NatText(n)
  }

  lemma {:induction false} NatTextValue(n: nat)
    ensures DigitsValue(NatText(n)) == n
  {
    if n >= 10 {
      var t := NatText(n);
      NatTextValue(n / 10);
      assert t[..|t| - 1] == NatText(n / 10);
    }
  }

  /** Python's `int()` reads back the decimal text of every integer. */
  lemma ParseIntText(n: int)
    ensures ParseInt(IntText(n)) == Some(n)
  {
    var t := IntText(n);
    IntTextUnspaced(n);
    StripShape(t);
    var m: nat := if n < 0 then -n else n;
    var digits := NatText(m);
    PlainDigitsValue(digits);
    NatTextValue(m);
    if n < 0 {
      assert t[1..] == digits;
      assert ParseSigned(t) == Some(n);
    } else {
      assert ParseSigned(t) == Some(n);
    }
  }

  /** The decimal text of an integer is neither empty nor padded with
      whitespace, and has no `~`. */
  lemma IntTextUnspaced(n: int)
    ensures var t := IntText(n);
      |t| > 0 && !IsSpace(t[0]) && !IsSpace(t[|t| - 1]) && '~' !in t
  {
    var t := IntText(n);
    var m: nat := if n < 0 then -n else n;
    var digits := NatText(m);
    DigitIsNotSpace(digits[|digits| - 1]);
    assert t[|t| - 1] == digits[|digits| - 1];
    if n >= 0 {
      DigitIsNotSpace(digits[0]);
    }
    assert forall i :: 0 <= i < |t| ==> t[i] != '~';
  }

  /** Digits without group marks are read as their plain decimal value. */
  lemma PlainDigitsValue(digits: string)
    requires |digits| > 0 && forall i :: 0 <= i < |digits| ==> IsDigit(digits[i])
    ensures GroupedDigits(digits) && UnsignedValue(digits) == DigitsValue(digits)
  {
    assert forall i :: 0 <= i < |digits| ==> DigitOrGroupMark(digits, i);
    assert '_' !in digits;
    RemoveChar(digits, '_');
  }

  /** `safe_int` reads back every non-zero integer it is given as text, and
      turns zero into the default. */
  lemma SafeIntText(n: int, default: int)
    ensures SafeInt(IntText(n), default) == if n == 0 then default else n
  {
    var t := IntText(n);
    IntTextUnspaced(n);
    CleanValueShape(t);
    ParseIntText(n);
  }

  // ---------------------------------------------------------------------------
  // Amounts
  // ---------------------------------------------------------------------------

  /** A monetary amount or unit count. `IntZero` is the integer literal `0`
      the parser starts service lines with; `FloatOf(t)` stands for
      `safe_float`'s value for the cleaned text `t` (0.0 when `t` is empty or
      not a number). */
  datatype Amount = IntZero | FloatOf(text: string)

  function SafeFloat(value: string): (r: Amount) {
    FloatOf(CleanValue(value))
  }
}
