/**
 * The loader's coercion helpers `safe_int` and `safe_float`, and `str()`
 * of a spreadsheet cell. A cell is missing (the NaN that `read_excel`
 * yields for a blank cell, for which `pd.isna` holds), an integer, a float
 * (an exact decimal here), or text.
 */
module Coercion {
  import opened Wrappers
  import opened PyText

  datatype Cell = Missing | IntVal(i: int) | RealVal(d: Decimal) | Text(s: string)

  /** `str(x)`: NaN prints as "nan". */
  function CellText(x: Cell): string
  {
    match x
    case Missing => "nan"
    case IntVal(i) => IntToString(i)
    case RealVal(d) => FloatToString(d)
    case Text(s) => s
  }

  /**
   * `safe_int(x, default)`: the default for a missing cell; otherwise
   * `int(x)`, or failing that `int(float(x))`, or failing that the default.
   */
  function SafeInt(x: Cell, default: Option<int>): (r: Option<int>)
    ensures default.Some? ==> r.Some?
  {
    match x
    case Missing => default
    case IntVal(i) => Some(i)
    case RealVal(d) => Some(Truncate(d))
    case Text(s) =>
      match ParseIntText(s)
      case Some(n) => Some(n)
      case None =>
        match ParseFloatText(s)
        case Some(d) => Some(Truncate(d))
        case None => default
  }

  /** `safe_float(x, default)`: the default for a missing or unreadable cell, else `float(x)`. */
  function SafeFloat(x: Cell, default: real): real
  {
    match x
    case Missing => default
    case IntVal(i) => i as real
    case RealVal(d) => Value(d)
    case Text(s) =>
      match ParseFloatText(s)
      case Some(d) => Value(d)
      case None => default
  }

  /** Whether `float(x)` succeeds on a cell that is not missing. */
  predicate FloatReadable(x: Cell)
  {
    match x
    case Missing => false
    case Text(s) => ParseFloatText(s).Some?
    case _ => true
  }

  /**
   * Both helpers fall back on their default for exactly the same cells,
   * and otherwise `safe_int` is `safe_float` rounded toward zero: the
   * first fallback, `int(float(x))`, never disagrees with a successful
   * `int(x)`.
   */
  lemma SafeIntTruncatesSafeFloat(x: Cell, intDefault: Option<int>, floatDefault: real)
    ensures !FloatReadable(x) ==> SafeInt(x, intDefault) == intDefault
                                  && SafeFloat(x, floatDefault) == floatDefault
    ensures FloatReadable(x) ==> SafeInt(x, intDefault).Some?
                                 && IsTruncation(SafeInt(x, intDefault).value, SafeFloat(x, floatDefault))
  {
    match x
    case Missing =>
    case IntVal(i) =>
      assert IsTruncation(i, i as real);
    case RealVal(d) =>
    case Text(s) =>
      TextTruncation(s, intDefault, floatDefault);
  }

  lemma TextTruncation(s: string, intDefault: Option<int>, floatDefault: real)
    ensures ParseFloatText(s).None? ==> SafeInt(Text(s), intDefault) == intDefault
    ensures ParseFloatText(s).Some? ==>
              SafeInt(Text(s), intDefault).Some?
              && IsTruncation(SafeInt(Text(s), intDefault).value, SafeFloat(Text(s), floatDefault))
  {
    if ParseIntText(s).Some? {
      IntTextIsFloatText(s);
      var n := ParseIntText(s).value;
      assert Value(Decimal(n, 0)) == n as real;
    }
  }

  /** What the loader does with Quantity: a float cell's fraction is dropped, a blank one reads 0. */
  lemma QuantityCoercion(x: Cell)
    ensures SafeInt(x, Some(0)).Some?
    ensures IsTruncation(SafeInt(x, Some(0)).value, SafeFloat(x, 0.0))
  {
    SafeIntTruncatesSafeFloat(x, Some(0), 0.0);
  }

  /**
   * A number behind a U+001C separator is unreadable to both helpers, though
   * `strip()` would remove the separator: the cell reads as the default.
   */
  lemma SeparatorFallsBack(intDefault: Option<int>, floatDefault: real)
    ensures SafeInt(Text("\U{1C}5"), intDefault) == intDefault
    ensures SafeFloat(Text("\U{1C}5"), floatDefault) == floatDefault
  {
    SeparatorIsNotNumberSpace();
  }

  /** An integer that `str()` wrote into a text cell reads back as itself. */
  lemma SafeIntReadsIntText(n: int, default: Option<int>)
    ensures SafeInt(Text(CellText(IntVal(n))), default) == Some(n)
  {
    IntTextRoundTrip(n);
  }
}
