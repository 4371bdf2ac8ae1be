/**
 * `is_number` and `format_currency` (report_generator.py:13-28): which values
 * Python's `float()` accepts, and the `$1,234.50` text the report prints.
 */
module Numbers {
  import opened Values
  import opened Text
  import opened Money

  /** `float(v)`, or None where `float` raises. */
  function ToFloat(v: Value): (r: Option<real>)
    ensures v.VNum? ==> r == Some(v.n)
    ensures v.VBool? ==> r == Some(if v.b then 1.0 else 0.0)
    ensures v.VStr? ==> r == ParseDecimal(v.s)
    ensures v.VNone? || v.VList? || v.VDict? ==> r == None
  {
    match v
    case VNum(n) => Some(n)
    case VBool(b) => Some(if b then 1.0 else 0.0)
    case VStr(s) => ParseDecimal(s)
    case VNone => None
    case VList(_) => None
    case VDict(_) => None
  }

  /** `is_number(v)`: `float(v)` does not raise. */
  predicate IsNumber(v: Value)
  {
    ToFloat(v).Some?
  }

  /** Two digits, zero padded: the fractional part of a `.2f` format. */
  function Pad2(r: nat): (s: string)
    requires r < 100
    ensures |s| == 2 && AllDigits(s) && DigitsToNat(s) == r
  {
    var s := [DigitChar(r / 10), DigitChar(r % 10)];
    DigitsToNatSnoc([], DigitChar(r / 10));
    assert [DigitChar(r / 10)] == [] + [DigitChar(r / 10)];
    DigitsToNatSnoc([DigitChar(r / 10)], DigitChar(r % 10));
    s
  }

  function Sign(negative: bool): string
  {
    if negative then "-" else ""
  }

  /** `$`, the sign, the grouped units, `.` and two digits of cents. */
  function CurrencyText(negative: bool, units: nat, cents: nat): string
    requires cents < 100
  {
    "$" + Sign(negative) + (Group(NatText(units)) + "." + Pad2(cents))
  }

  /** The two-decimal, comma-grouped currency text of a whole number of cents `c`. */
  function FormatCents(c: int): string
  {
    var m: nat := if c < 0 then -c else c;
    CurrencyText(c < 0, m / 100, m % 100)
  }

  /** The whole-dollar, comma-grouped currency text of an integer `n`. */
  function FormatWhole(n: int): string
  {
    var m: nat := if n < 0 then -n else n;
    "$" + Sign(n < 0) + Group(NatText(m))
  }

  /** Reads a grouped amount: digits and commas, then optionally `.` and exactly two digits. */
  function ParseAmount(mag: string): Option<real>
  {
    match FindChar(mag, '.')
    case None =>
      var ds := Ungroup(mag);
      if ds != [] && AllDigits(ds) then Some(DigitsToNat(ds) as real) else None
    case Some(i) =>
      var ds, fs := Ungroup(mag[..i]), mag[i + 1..];
      if ds != [] && AllDigits(ds) && |fs| == 2 && AllDigits(fs) then
        Some(DigitsToNat(ds) as real + DigitsToNat(fs) as real / 100.0)
      else None
  }

  /** Reads currency text back: `$`, an optional `-`, then a grouped amount. */
  function ParseCurrency(s: string): Option<real>
  {
    if s == [] || s[0] != '$' then None
    else
      var body := s[1..];
      var negative := body != [] && body[0] == '-';
      match ParseAmount(if negative then body[1..] else body)
      case None => None
      case Some(a) => Some(if negative then -a else a)
  }

  /** The grouped digits of a currency text hold no `.`, no `-` and start with a digit. */
  lemma GroupedShape(n: nat)
    ensures '.' !in Group(NatText(n))
    ensures |Group(NatText(n))| > 0 && IsDigit(Group(NatText(n))[0])
    ensures Ungroup(Group(NatText(n))) == NatText(n)
  {
    var g := Group(NatText(n));
    GroupStartsWithDigit(NatText(n));
    UngroupGroup(NatText(n));
    forall k | 0 <= k < |g| ensures g[k] != '.' {
      assert IsDigit(g[k]) || g[k] == ',';
    }
  }

  /** Reading `$`, a sign, then an amount. */
  lemma ParseSigned(negative: bool, mag: string, a: real)
    requires mag != [] && mag[0] != '-'
    requires ParseAmount(mag) == Some(a)
    ensures ParseCurrency("$" + Sign(negative) + mag) == Some(if negative then -a else a)
  {
    if negative {
      ParseNegative(mag, a);
    } else {
      assert "$" + Sign(negative) + mag == "$" + mag;
      ParsePositive(mag, a);
    }
  }

  lemma ParsePositive(mag: string, a: real)
    requires mag != [] && mag[0] != '-'
    requires ParseAmount(mag) == Some(a)
    ensures ParseCurrency("$" + mag) == Some(a)
  {
    assert ("$" + mag)[1..] == mag;
  }

  lemma ParseNegative(mag: string, a: real)
    requires ParseAmount(mag) == Some(a)
    ensures ParseCurrency("$" + "-" + mag) == Some(-a)
  {
    var s := "$" + "-" + mag;
    assert s[1..] == "-" + mag;
    assert s[1..][1..] == mag;
  }

  /** Reading grouped digits, a `.` and two more digits. */
  lemma ParseAmountWithCents(g: string, p: string)
    requires '.' !in g && Ungroup(g) != [] && AllDigits(Ungroup(g))
    requires |p| == 2 && AllDigits(p)
    ensures ParseAmount(g + "." + p) ==
      Some(DigitsToNat(Ungroup(g)) as real + DigitsToNat(p) as real / 100.0)
  {
    var mag := g + "." + p;
    assert mag[..|g|] == g;
    assert mag[|g| + 1..] == p;
    assert FindChar(mag, '.') == Some(|g|);
  }

  /** Currency text reads back as its sign, units and cents. */
  lemma ParseCurrencyText(negative: bool, units: nat, cents: nat, x: real)
    requires cents < 100
    requires x == var a := units as real + cents as real / 100.0; if negative then -a else a
    ensures ParseCurrency(CurrencyText(negative, units, cents)) == Some(x)
  {
    var a := units as real + cents as real / 100.0;
    var mag := Group(NatText(units)) + "." + Pad2(cents);
    MagnitudeText(units, cents, Group(NatText(units)), Pad2(cents), mag);
    SignedText(negative, units, cents, mag, a, x);
  }

  /** The currency text is `$`, the sign and a magnitude that reads back as `a`. */
  lemma SignedText(negative: bool, units: nat, cents: nat, mag: string, a: real, x: real)
    requires cents < 100 && mag == Group(NatText(units)) + "." + Pad2(cents)
    requires mag != [] && mag[0] != '-' && ParseAmount(mag) == Some(a)
    requires x == if negative then -a else a
    ensures ParseCurrency(CurrencyText(negative, units, cents)) == Some(x)
  {
    ParseSigned(negative, mag, a);
    CurrencyTextParts(negative, units, cents, mag);
  }

  lemma CurrencyTextParts(negative: bool, units: nat, cents: nat, mag: string)
    requires cents < 100 && mag == Group(NatText(units)) + "." + Pad2(cents)
    ensures CurrencyText(negative, units, cents) == "$" + Sign(negative) + mag
  {
  }

  /** The grouped units, `.` and the cents read back as the amount they spell. */
  lemma MagnitudeText(units: nat, cents: nat, g: string, p: string, mag: string)
    requires cents < 100 && g == Group(NatText(units)) && p == Pad2(cents) && mag == g + "." + p
    ensures mag != [] && mag[0] != '-'
    ensures ParseAmount(mag) == Some(units as real + cents as real / 100.0)
  {
    GroupedShape(units);
    ParseAmountWithCents(g, p);
    assert mag[0] == g[0];
  }

  /** The amount that `FormatCents(c)` spells out, digit group by digit group. */
  function SpelledCents(c: int): real
  {
    var m: nat := if c < 0 then -c else c;
    var a := (m / 100) as real + (m % 100) as real / 100.0;
    if c < 0 then -a else a
  }

  lemma SpelledCentsValue(c: int)
    ensures SpelledCents(c) == c as real / 100.0
  {
    var m: nat := if c < 0 then -c else c;
    var q, r := m / 100, m % 100;
    assert m == q * 100 + r;
    assert m as real == q as real * 100.0 + r as real;
  }

  lemma ParseFormatCentsSpelled(c: int)
    ensures ParseCurrency(FormatCents(c)) == Some(SpelledCents(c))
  {
    var m: nat := if c < 0 then -c else c;
    ParseCurrencyText(c < 0, m / 100, m % 100, SpelledCents(c));
  }

  /** The `.2f` text reads back as exactly the amount it prints. */
  lemma ParseFormatCents(c: int)
    ensures ParseCurrency(FormatCents(c)) == Some(c as real / 100.0)
  {
    ParseFormatCentsSpelled(c);
    SpelledCentsValue(c);
  }

  /** The `.0f` text has no `.`. */
  lemma FormatWholeNoDot(n: int)
    ensures '.' !in FormatWhole(n)
  {
    var m: nat := if n < 0 then -n else n;
    GroupedShape(m);
    assert '.' !in "$" + Sign(n < 0);
  }

  /** The `.0f` text reads back as the integer it prints. */
  lemma ParseFormatWhole(n: int)
    ensures ParseCurrency(FormatWhole(n)) == Some(n as real)
  {
    var m: nat := if n < 0 then -n else n;
    var g := Group(NatText(m));
    GroupedShape(m);
    assert DigitsToNat(Ungroup(g)) == m;
    assert ParseAmount(g) == Some(m as real);
    ParseSigned(n < 0, g, m as real);
  }

  /** The text `format_currency` prints for a number `x`. */
  function FormatNumber(x: real, decimals: nat): (s: string)
    ensures |s| > 0 && s[0] == '$'
  {
    var y := Round(x, decimals);
    if decimals == 0 then FormatWhole(RoundHalfEven(y))
    else FormatCents(RoundHalfEven(y * 100.0))
  }

  /**
   * `format_currency(v, decimals)`. A value `float` rejects comes back as its
   * `str`: a string is itself and `None` is "None".
   */
  function FormatCurrency(v: Value, decimals: nat): (r: Value)
    ensures IsNumber(v) ==> r.VStr? && |r.s| > 0 && r.s[0] == '$'
    ensures ToFloat(v).Some? ==> r == VStr(FormatNumber(ToFloat(v).value, decimals))
    ensures !IsNumber(v) ==> r == if v.VNone? then VStr("None") else v
  {
    match ToFloat(v)
    case None => if v.VNone? then VStr("None") else v
    case Some(x) => VStr(FormatNumber(x, decimals))
  }

  lemma Round2AsCents(y: real)
    ensures Round2(y) == RoundHalfEven(y * 100.0) as real / 100.0
  {
    assert Pow10(2) == 100 by { assert Pow10(1) == 10; }
  }

  /** Rounded to whole units, the text has no fractional part and reads back as the rounded value. */
  lemma FormatNumberWhole(x: real)
    ensures '.' !in FormatNumber(x, 0)
    ensures ParseCurrency(FormatNumber(x, 0)) == Some(Round(x, 0))
  {
    var y := Round(x, 0);
    var k := RoundHalfEven(x * 1.0);
    assert Pow10(0) == 1;
    assert y == k as real / 1.0 == k as real;
    RoundHalfEvenOfInt(k);
    assert FormatNumber(x, 0) == FormatWhole(k);
    ParseFormatWhole(k);
    FormatWholeNoDot(k);
  }

  /** With decimals, the text reads back as the value rounded to `decimals` places and then to cents. */
  lemma FormatNumberCents(x: real, decimals: nat)
    requires decimals != 0
    ensures ParseCurrency(FormatNumber(x, decimals)) == Some(Round2(Round(x, decimals)))
  {
    var c := RoundHalfEven(Round(x, decimals) * 100.0);
    FormatNumberIsCents(x, decimals, c);
    RoundedCents(Round(x, decimals), c);
    ParseFormatCents(c);
  }

  lemma FormatNumberIsCents(x: real, decimals: nat, c: int)
    requires decimals != 0 && c == RoundHalfEven(Round(x, decimals) * 100.0)
    ensures FormatNumber(x, decimals) == FormatCents(c)
  {
  }

  lemma RoundedCents(y: real, c: int)
    requires c == RoundHalfEven(y * 100.0)
    ensures Round2(y) == c as real / 100.0
  {
    Round2AsCents(y);
  }

  lemma Round2Twice(x: real)
    ensures Round2(Round(x, 2)) == Round2(x)
  {
    Round2OfCents(Round2(x));
  }

  lemma FormatNumberTwoDecimals(x: real)
    ensures ParseCurrency(FormatNumber(x, 2)) == Some(Round2(x))
  {
    FormatNumberCents(x, 2);
    Round2Twice(x);
  }

  /** With the default two decimals the text reads back as the value rounded to cents. */
  lemma FormatCurrencyCents(v: Value, x: real)
    requires ToFloat(v) == Some(x)
    ensures FormatCurrency(v, 2) == VStr(FormatNumber(x, 2))
    ensures ParseCurrency(FormatNumber(x, 2)) == Some(Round2(x))
  {
    FormatNumberTwoDecimals(x);
  }

  /** Currency text is not itself a number, so it is never formatted twice. */
  lemma FormattedIsNotNumber(v: Value, decimals: nat)
    requires IsNumber(v)
    ensures !IsNumber(FormatCurrency(v, decimals))
  {
  }

  lemma NatText1234()
    ensures NatText(1234) == "1234"
  {
    assert NatText(1) == "1";
    assert NatText(12) == "12";
    assert NatText(123) == "123";
  }

  lemma CurrencyText1234()
    ensures CurrencyText(false, 1234, 50) == "$1,234.50"
  {
    NatText1234();
    assert Group("1234") == "1,234" by {
      assert "1234"[..1] == "1" && "1234"[1..] == "234";
    }
    assert Pad2(50) == "50";
  }

  lemma FormatNumber1234()
    ensures FormatNumber(1234.5, 2) == FormatCents(123450)
  {
    assert Pow10(2) == 100 by { assert Pow10(1) == 10; }
    RoundHalfEvenOfInt(123450);
    assert 1234.5 * 100.0 == 123450 as real;
    assert Round(1234.5, 2) == 1234.5;
  }

  /** `format_currency(1234.5)` is `"$1,234.50"`. */
  lemma FormatCurrencyExample()
    ensures FormatCurrency(VNum(1234.5), 2) == VStr("$1,234.50")
  {
    FormatNumber1234();
    FormatCents123450();
    CurrencyText1234();
  }

  lemma FormatCents123450()
    ensures FormatCents(123450) == CurrencyText(false, 1234, 50)
  {
    assert 123450 / 100 == 1234 && 123450 % 100 == 50;
  }
}
