/**
 * The pieces of Python's text handling that the loader relies on:
 * `str.strip()`, `str(n)` for integers and floats, and the grammars that
 * `int(text)` and `float(text)` accept. Floats are exact decimals here.
 */
module PyText {
  import opened Wrappers

  /** The characters for which Python's `str.isspace()` holds. */
  predicate IsSpace(c: char)
  {
    var n := c as int;
    (9 <= n <= 13) || (28 <= n <= 32) || n == 0x85 || n == 0xA0 || n == 0x1680
    || (0x2000 <= n <= 0x200A) || n == 0x2028 || n == 0x2029 || n == 0x202F
    || n == 0x205F || n == 0x3000
  }

  /**
   * The white space that `int()` and `float()` skip around a number: that
   * of `str.isspace()` except the separators U+001C to U+001F, which the
   * number parsers leave in place and then reject.
   */
  predicate IsNumberSpace(c: char)
  {
    IsSpace(c) && !(28 <= c as int <= 31)
  }

  /** `s` without its leading white space. */
  function StripLeading(s: string): (r: string)
    ensures |r| <= |s| && r == s[|s| - |r|..]
    ensures r == [] || !IsSpace(r[0])
  {
    if s != [] && IsSpace(s[0]) then StripLeading(s[1..]) else s
  }

  /** `s` without its trailing white space. */
  function StripTrailing(s: string): (r: string)
    ensures |r| <= |s| && r == s[..|r|]
    ensures r == [] || !IsSpace(r[|r| - 1])
  {
    if s != [] && IsSpace(s[|s| - 1]) then StripTrailing(s[..|s| - 1]) else s
  }

  /** What `StripLeading` drops is white space. */
  lemma {:induction false} StripLeadingSpaces(s: string)
    ensures forall i :: 0 <= i < |s| - |StripLeading(s)| ==> IsSpace(s[i])
  {
    if s != [] && IsSpace(s[0]) {
      StripLeadingSpaces(s[1..]);
      forall i | 0 <= i < |s| - |StripLeading(s)| ensures IsSpace(s[i]) {
        if i > 0 {
          assert s[i] == s[1..][i - 1];
        }
      }
    }
  }

  /** What `StripTrailing` drops is white space. */
  lemma {:induction false} StripTrailingSpaces(s: string)
    ensures forall i :: |StripTrailing(s)| <= i < |s| ==> IsSpace(s[i])
  {
    if s != [] && IsSpace(s[|s| - 1]) {
      StripTrailingSpaces(s[..|s| - 1]);
    }
  }

  /** `s.strip()`: `s` without its leading and trailing white space. */
  function Strip(s: string): (r: string)
    ensures r == [] || (!IsSpace(r[0]) && !IsSpace(r[|r| - 1]))
  {
    StripTrailing(StripLeading(s))
  }

  /** `s` without its leading number white space. */
  function NumberStripLeading(s: string): (r: string)
    ensures |r| <= |s| && r == s[|s| - |r|..]
    ensures r == [] || !IsNumberSpace(r[0])
  {
    if s != [] && IsNumberSpace(s[0]) then NumberStripLeading(s[1..]) else s
  }

  /** `s` without its trailing number white space. */
  function NumberStripTrailing(s: string): (r: string)
    ensures |r| <= |s| && r == s[..|r|]
    ensures r == [] || !IsNumberSpace(r[|r| - 1])
  {
    if s != [] && IsNumberSpace(s[|s| - 1]) then NumberStripTrailing(s[..|s| - 1]) else s
  }

  /** The text `int()` and `float()` go on to read: `s` without the number white space around it. */
  function NumberStrip(s: string): (r: string)
    ensures r == [] || (!IsNumberSpace(r[0]) && !IsNumberSpace(r[|r| - 1]))
  {
    NumberStripTrailing(NumberStripLeading(s))
  }

  /** `r` is the slice of `s` starting at `a`, and only white space surrounds it. */
  ghost predicate IsStripOf(s: string, a: int, r: string)
  {
    && 0 <= a <= a + |r| <= |s|
    && r == s[a..a + |r|]
    && (forall i :: 0 <= i < a ==> IsSpace(s[i]))
    && (forall i :: a + |r| <= i < |s| ==> IsSpace(s[i]))
  }

  /** The stripped text is a slice of the text with only white space cut off either end. */
  lemma StripMeaning(s: string)
    ensures exists a :: IsStripOf(s, a, Strip(s))
  {
    var l := StripLeading(s);
    var a := |s| - |l|;
    StripLeadingSpaces(s);
    TrailingSpacesIn(s, a, l);
    assert IsStripOf(s, a, Strip(s));
  }

  /** Stripping the trailing white space of the suffix `l == s[a..]` leaves a slice of `s` followed by white space. */
  lemma TrailingSpacesIn(s: string, a: nat, l: string)
    requires a <= |s| && l == s[a..]
    ensures var r := StripTrailing(l);
            && a + |r| <= |s| && r == s[a..a + |r|]
            && forall i :: a + |r| <= i < |s| ==> IsSpace(s[i])
  {
    var r := StripTrailing(l);
    StripTrailingSpaces(l);
    forall i | a + |r| <= i < |s| ensures IsSpace(s[i]) {
      assert s[i] == l[i - a];
    }
    assert r == l[..|r|];
  }

  lemma StripUnchanged(s: string)
    requires s == [] || (!IsSpace(s[0]) && !IsSpace(s[|s| - 1]))
    ensures Strip(s) == s
  {
  }

  lemma NumberStripUnchanged(s: string)
    requires s == [] || (!IsNumberSpace(s[0]) && !IsNumberSpace(s[|s| - 1]))
    ensures NumberStrip(s) == s
  {
  }

  /**
   * The number parsers keep a leading separator that `strip()` removes:
   * `int()` and `float()` both reject "\x1c5", which `strip()` turns into "5".
   */
  lemma SeparatorIsNotNumberSpace()
    ensures Strip("\U{1C}5") == "5"
    ensures ParseIntText("\U{1C}5") == None
    ensures ParseFloatText("\U{1C}5") == None
  {
    var s := "\U{1C}5";
    assert s[1..] == "5";
    SeparatorStripped(s);
    SeparatorKept(s);
    assert !IsDigit(s[0]);
    SeparatorIsNotFloat(s);
  }

  lemma SeparatorStripped(s: string)
    requires |s| == 2 && s[0] == '\U{1C}' && s[1] == '5'
    ensures Strip(s) == s[1..]
  {
    LeadingSpaceDropped(s);
    StripUnchanged(s[1..]);
  }

  lemma LeadingSpaceDropped(s: string)
    requires s != [] && IsSpace(s[0])
    ensures Strip(s) == Strip(s[1..])
  {
  }

  lemma SeparatorKept(s: string)
    requires |s| == 2 && s[0] == '\U{1C}' && s[1] == '5'
    ensures NumberStrip(s) == s
    ensures SplitSign(s) == (false, s)
  {
    NumberStripUnchanged(s);
  }

  lemma SeparatorIsNotFloat(s: string)
    requires |s| == 2 && s[0] == '\U{1C}' && s[1] == '5'
    ensures ParseMantissa(s) == None
    ensures IndexOfAny(s, {'e', 'E'}) == 2
  {
    assert s[..2] == s;
  }

  // ---------------------------------------------------------------------
  // Decimal digits

  predicate IsDigit(c: char)
  {
    '0' <= c <= '9'
  }

  predicate AllDigits(s: string)
  {
    forall i :: 0 <= i < |s| ==> IsDigit(s[i])
  }

  function DigitsValue(s: string): nat
    requires AllDigits(s)
  {
    if s == [] then 0
    else DigitsValue(s[..|s| - 1]) * 10 + (s[|s| - 1] as int - '0' as int)
  }

  function DigitChar(d: nat): char
    requires d < 10
  {
    ('0' as int + d) as char
  }

  /** `str(n)` for a non-negative integer: its decimal digits, no leading zero. */
  function NatToString(n: nat): (r: string)
    ensures r != [] && AllDigits(r)
    ensures r[0] == '0' ==> n == 0
  {
    if n < 10 then [DigitChar(n)] else NatToString(n / 10) + [DigitChar(n % 10)]
  }

  /** `str(n)` for an integer. */
  function IntToString(n: int): (r: string)
    ensures r != []
  {
    if n < 0 then "-" + NatToString(-n) else NatToString(n)
  }

  /** `str(n)` starts with a sign or a digit and ends with a digit. */
  lemma IntToStringShape(n: int)
    ensures var r := IntToString(n);
            (r[0] == '-' || IsDigit(r[0])) && IsDigit(r[|r| - 1])
  {
    var d := NatToString(if n < 0 then -n else n);
    assert IsDigit(d[0]) && IsDigit(d[|d| - 1]);
  }

  lemma {:induction false} NatToStringValue(n: nat)
    ensures DigitsValue(NatToString(n)) == n
  {
    var r := NatToString(n);
    if n >= 10 {
      NatToStringValue(n / 10);
      assert r[..|r| - 1] == NatToString(n / 10);
    }
  }

  // ---------------------------------------------------------------------
  // What int(text) accepts

  /** An optional leading sign: whether it was '-', and the rest. */
  function SplitSign(t: string): (bool, string)
  {
    if t != [] && (t[0] == '+' || t[0] == '-') then (t[0] == '-', t[1..]) else (false, t)
  }

  /** `[+-]digits`, the whole of `t`. */
  function ParseSignedDigits(t: string): Option<int>
  {
    var (negative, body) := SplitSign(t);
    if body != [] && AllDigits(body) then
      Some(if negative then -(DigitsValue(body) as int) else DigitsValue(body))
    else None
  }

  /** `int(text)` in base 10: white space around an optionally signed run of digits. */
  function ParseIntText(s: string): Option<int>
  {
    ParseSignedDigits(NumberStrip(s))
  }

  /** Base-10 `int()` reads back what `str()` writes. */
  lemma IntTextRoundTrip(n: int)
    ensures ParseIntText(IntToString(n)) == Some(n)
  {
    var t := IntToString(n);
    IntToStringShape(n);
    NumberStripUnchanged(t);
    if n < 0 {
      NegativeText(n);
    } else {
      NonNegativeText(n);
    }
  }

  lemma NegativeText(n: int)
    requires n < 0
    ensures ParseSignedDigits(IntToString(n)) == Some(n)
  {
    var d := NatToString(-n);
    var t := "-" + d;
    assert t[0] == '-' && t[1..] == d;
    assert SplitSign(t) == (true, d);
    NatToStringValue(-n);
  }

  lemma NonNegativeText(n: nat)
    ensures ParseSignedDigits(IntToString(n)) == Some(n)
  {
    var d := NatToString(n);
    assert IsDigit(d[0]);
    assert SplitSign(d) == (false, d);
    NatToStringValue(n);
  }

  // ---------------------------------------------------------------------
  // Exact decimals and what float(text) accepts

  /** The number `digits / 10^scale`. */
  datatype Decimal = Decimal(digits: int, scale: nat)

  function Pow10(n: nat): (r: nat)
    ensures r >= 1
  {
    if n == 0 then 1 else 10 * Pow10(n - 1)
  }

  function Value(d: Decimal): real
  {
    d.digits as real / Pow10(d.scale) as real
  }

  /** The number `m / 10^scale * 10^exponent`. */
  function Shift(m: int, scale: nat, exponent: int): Decimal
  {
    if exponent >= scale then Decimal(m * Pow10(exponent - scale), 0)
    else Decimal(m, scale - exponent)
  }

  /** The index of the first character of `s` in `cs`, or `|s|`. */
  function IndexOfAny(s: string, cs: set<char>): (r: nat)
    ensures r <= |s|
    ensures r < |s| ==> s[r] in cs
    ensures forall i :: 0 <= i < r ==> s[i] !in cs
  {
    if s == [] then 0 else if s[0] in cs then 0 else 1 + IndexOfAny(s[1..], cs)
  }

  /**
   * `float(text)` for a finite decimal: white space around an optional
   * sign, digits with at most one '.' (at least one digit in all), and an
   * optional exponent `e`/`E` with signed digits. `None` for anything else.
   */
  function ParseFloatText(s: string): Option<Decimal>
  {
    ParseSignedDecimal(NumberStrip(s))
  }

  /** `[+-]mantissa[(e|E)[+-]digits]`, the whole of `t`. */
  function ParseSignedDecimal(t: string): Option<Decimal>
  {
    var (negative, body) := SplitSign(t);
    var e := IndexOfAny(body, {'e', 'E'});
    var exponent := if e < |body| then ParseSignedDigits(body[e + 1..]) else Some(0);
    match ParseMantissa(body[..e])
    case Some((m, places)) =>
      if exponent.Some? then Some(Shift(if negative then -(m as int) else m, places, exponent.value))
      else None
    case None => None
  }

  /**
   * Digits with at most one '.', at least one digit in all: the digits as
   * one number, and how many of them follow the point.
   */
  function ParseMantissa(t: string): Option<(nat, nat)>
  {
    var dot := IndexOfAny(t, {'.'});
    var whole := t[..dot];
    var frac := if dot < |t| then t[dot + 1..] else "";
    if AllDigits(whole) && AllDigits(frac) && |whole| + |frac| > 0 then
      assert AllDigits(whole + frac);
      Some((DigitsValue(whole + frac), |frac|))
    else None
  }

  /** Whatever `int(text)` accepts, `float(text)` accepts with the same value. */
  lemma IntTextIsFloatText(s: string)
    requires ParseIntText(s).Some?
    ensures ParseFloatText(s) == Some(Decimal(ParseIntText(s).value, 0))
  {
    SignedDigitsAreDecimal(NumberStrip(s));
  }

  lemma SignedDigitsAreDecimal(t: string)
    requires ParseSignedDigits(t).Some?
    ensures ParseSignedDecimal(t) == Some(Decimal(ParseSignedDigits(t).value, 0))
  {
    var (negative, body) := SplitSign(t);
    assert body != [] && AllDigits(body);
    NoneOfAny(body, {'e', 'E'});
    assert body[..|body|] == body;
    DigitsMantissa(body);
  }

  lemma DigitsMantissa(t: string)
    requires t != [] && AllDigits(t)
    ensures ParseMantissa(t) == Some((DigitsValue(t), 0))
  {
    NoneOfAny(t, {'.'});
    assert t[..|t|] == t;
    assert t + "" == t;
  }

  lemma NoneOfAny(s: string, cs: set<char>)
    requires AllDigits(s)
    requires forall c :: c in cs ==> !IsDigit(c)
    ensures IndexOfAny(s, cs) == |s|
  {
  }

  // ---------------------------------------------------------------------
  // int(x) of a float: truncation toward zero

  /** `n` is `v` with its fractional part dropped (rounded toward zero). */
  predicate IsTruncation(n: int, v: real)
  {
    if v >= 0.0 then n as real <= v < n as real + 1.0 else n as real - 1.0 < v <= n as real
  }

  lemma DivisionBounds(a: nat, p: nat)
    requires p >= 1
    ensures (a / p) as real <= a as real / p as real < (a / p) as real + 1.0
  {
    var q, r := a / p, a % p;
    assert a == q * p + r;
    assert a as real == q as real * p as real + r as real;
    assert a as real / p as real == q as real + r as real / p as real;
    assert 0.0 <= r as real / p as real < 1.0;
  }

  /** `int(f)` for a float `f`. */
  function Truncate(d: Decimal): (n: int)
    ensures IsTruncation(n, Value(d))
  {
    var p := Pow10(d.scale);
    if d.digits >= 0 then
      DivisionBounds(d.digits, p);
      d.digits / p
    else
      DivisionBounds(-d.digits, p);
      assert Value(d) == -((-d.digits) as real / p as real);
      -((-d.digits) / p)
  }

  // ---------------------------------------------------------------------
  // str(f) for a float

  function PadZeros(s: string, width: nat): (r: string)
    ensures |r| >= width && |r| >= |s|
    ensures AllDigits(s) ==> AllDigits(r)
    decreases width - |s|
  {
    if |s| >= width then s else PadZeros("0" + s, width)
  }

  function StripTrailingZeros(s: string): (r: string)
    ensures |r| <= |s| && r == s[..|r|]
    ensures r == [] || r[|r| - 1] != '0'
  {
    if s != [] && s[|s| - 1] == '0' then StripTrailingZeros(s[..|s| - 1]) else s
  }

  /**
   * `str(f)` for a float in positional notation: the sign, the integer
   * part, '.', and the fractional digits without trailing zeros (at least
   * one digit).
   */
  function FloatToString(d: Decimal): (r: string)
    ensures '.' in r
    ensures r[0] == '-' || IsDigit(r[0])
    ensures IsDigit(r[|r| - 1])
  {
    Positional(d.digits < 0, if d.digits < 0 then -d.digits else d.digits, Pow10(d.scale), d.scale)
  }

  /** The magnitude `a / p`, with `p == 10^scale`, written out with its sign. */
  function Positional(negative: bool, a: nat, p: nat, scale: nat): (r: string)
    requires p >= 1
    ensures '.' in r
    ensures r[0] == '-' || IsDigit(r[0])
    ensures IsDigit(r[|r| - 1])
  {
    var whole := (if negative then "-" else "") + NatToString(a / p);
    var tail := FractionDigits(a % p, scale);
    var r := whole + "." + tail;
    assert r[|whole|] == '.';
    assert r[|r| - 1] == tail[|tail| - 1];
    r
  }

  /** The digits after the point: `f` written with `width` places, trailing zeros dropped, at least "0". */
  function FractionDigits(f: nat, width: nat): (r: string)
    ensures r != [] && AllDigits(r)
  {
    var t := StripTrailingZeros(PadZeros(NatToString(f), width));
    if t == [] then "0" else t
  }

  // ---------------------------------------------------------------------
  // Case

  function AsciiLower(c: char): char
  {
    if 'A' <= c <= 'Z' then (c as int + 32) as char else c
  }

  /** `s.lower()` on ASCII letters. */
  function Lower(s: string): (r: string)
    ensures |r| == |s|
  {
    if s == [] then [] else [AsciiLower(s[0])] + Lower(s[1..])
  }

  /** Lower-casing works character by character. */
  lemma {:induction false} LowerChars(s: string)
    ensures forall i :: 0 <= i < |s| ==> Lower(s)[i] == AsciiLower(s[i])
  {
    if s != [] {
      LowerChars(s[1..]);
      forall i | 0 <= i < |s| ensures Lower(s)[i] == AsciiLower(s[i]) {
        if i > 0 {
          assert s[i] == s[1..][i - 1];
        }
      }
    }
  }
}
