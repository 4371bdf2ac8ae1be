/**
 * Decimal text: the digit strings Python's `str(int)` writes, the `,` thousands
 * grouping of the comma format option, and the decimal numbers `float(str)` reads.
 */
module Text {
  import opened Values

  predicate IsDigit(c: char) { '0' <= c <= '9' }

  predicate AllDigits(s: string) { forall i :: 0 <= i < |s| ==> IsDigit(s[i]) }

  function DigitValue(c: char): int { c as int - '0' as int }

  function DigitChar(d: nat): (c: char)
    requires d < 10
    ensures IsDigit(c) && DigitValue(c) == d
  {
    ('0' as int + d) as char
  }

  function Pow10(d: nat): (p: nat)
    ensures p >= 1
  {
    if d == 0 then 1 else 10 * Pow10(d - 1)
  }

  /** The number a string of decimal digits denotes. */
  function DigitsToNat(s: string): nat
    requires AllDigits(s)
  {
    if s == [] then 0 else DigitsToNat(s[..|s| - 1]) * 10 + DigitValue(s[|s| - 1])
  }

  lemma DigitsToNatSnoc(s: string, c: char)
    requires AllDigits(s) && IsDigit(c)
    ensures AllDigits(s + [c])
    ensures DigitsToNat(s + [c]) == DigitsToNat(s) * 10 + DigitValue(c)
  {
    assert (s + [c])[..|s|] == s;
  }

  /** Python's `str(n)` for a non-negative integer: shortest decimal digits, no leading zero. */
  function NatText(n: nat): (s: string)
    ensures |s| >= 1 && AllDigits(s)
    ensures DigitsToNat(s) == n
    ensures s[0] == '0' ==> n == 0
    ensures s[0] == '0' ==> s == "0"
  {
    if n < 10 then
      var s := [DigitChar(n)];
      assert s == [] + [DigitChar(n)];
      DigitsToNatSnoc([], DigitChar(n));
      s
    else
      var p := NatText(n / 10);
      DigitsToNatSnoc(p, DigitChar(n % 10));
      p + [DigitChar(n % 10)]
  }

  /** Python's `str(i)` for any integer. */
  function IntText(i: int): (s: string)
    ensures |s| >= 1
    ensures i < 0 <==> s[0] == '-'
    ensures i >= 0 ==> s == NatText(i)
    ensures i < 0 ==> s == "-" + NatText(-i)
  {
    if i < 0 then "-" + NatText(-i) else NatText(i)
  }

  /**
   * `str(n)` is the only way to write `n` in digits without a leading zero:
   * any such numeral is the one `NatText` writes for its value.
   */
  lemma {:induction false} NatTextCanonical(s: string)
    requires AllDigits(s) && s != [] && (s[0] == '0' ==> s == "0")
    ensures NatText(DigitsToNat(s)) == s
  {
    var n := DigitsToNat(s);
    var c := s[|s| - 1];
    var p := s[..|s| - 1];
    assert s == p + [c];
    DigitsToNatSnoc(p, c);
    if p == [] {
      assert s == [c];
      assert NatText(n) == [DigitChar(n)];
    } else {
      assert p[0] == s[0] && p[0] != '0';
      LeadingDigitPositive(p);
      NatTextCanonical(p);
      assert n / 10 == DigitsToNat(p) && n % 10 == DigitValue(c);
      assert NatText(n) == NatText(n / 10) + [DigitChar(n % 10)];
    }
  }

  /** Digits that do not start with `0` denote a positive number. */
  lemma {:induction false} LeadingDigitPositive(p: string)
    requires AllDigits(p) && p != [] && p[0] != '0'
    ensures DigitsToNat(p) > 0
  {
    var q := p[..|p| - 1];
    if q != [] {
      assert q[0] == p[0];
      LeadingDigitPositive(q);
    }
  }

  /** Removes every `,` from a string. */
  function Ungroup(s: string): (r: string)
    ensures ',' !in r
  {
    if s == [] then [] else (if s[0] == ',' then [] else [s[0]]) + Ungroup(s[1..])
  }

  /** Digits alone have no `,` to remove. */
  lemma {:induction false} UngroupDigits(s: string)
    requires AllDigits(s)
    ensures Ungroup(s) == s
  {
    if s != [] {
      assert AllDigits(s[1..]);
      UngroupDigits(s[1..]);
      assert [s[0]] + s[1..] == s;
    }
  }

  lemma {:induction false} UngroupAppend(a: string, b: string)
    ensures Ungroup(a + b) == Ungroup(a) + Ungroup(b)
  {
    if a != [] {
      assert (a + b)[1..] == a[1..] + b;
      UngroupAppend(a[1..], b);
    } else {
      assert a + b == b;
    }
  }

  /** Removing the commas from `g`, a comma and digits leaves `g`'s digits and then those digits. */
  lemma UngroupCommaThen(g: string, tail: string)
    requires AllDigits(tail)
    ensures Ungroup(g + ([','] + tail)) == Ungroup(g) + tail
  {
    var sep := [','] + tail;
    assert sep[1..] == tail;
    UngroupDigits(tail);
    UngroupAppend(g, sep);
  }

  /** The `,` option of Python's format mini-language: a comma before every group of three digits, counted from the right. */
  function Group(ds: string): (r: string)
    requires AllDigits(ds)
    ensures forall i :: 0 <= i < |r| ==> IsDigit(r[i]) || r[i] == ','
  {
    if |ds| <= 3 then ds
    else
      var head, tail := ds[..|ds| - 3], ds[|ds| - 3..];
      assert AllDigits(head);
      var g := Group(head);
      var r := g + ([','] + tail);
      assert forall i :: 0 <= i < |g| ==> r[i] == g[i];
      assert forall i :: |g| < i < |r| ==> r[i] == ds[|ds| - 3 + (i - |g| - 1)];
      r
  }

  /** Removing the commas gives the digits back. */
  lemma {:induction false} UngroupGroup(ds: string)
    requires AllDigits(ds)
    ensures Ungroup(Group(ds)) == ds
  {
    if |ds| <= 3 {
      UngroupDigits(ds);
    } else {
      var head, tail := ds[..|ds| - 3], ds[|ds| - 3..];
      assert AllDigits(head) && AllDigits(tail);
      UngroupGroup(head);
      UngroupCommaThen(Group(head), tail);
      assert head + tail == ds;
    }
  }

  /** Grouped digits start with a digit, never with `,`. */
  lemma {:induction false} GroupStartsWithDigit(ds: string)
    requires AllDigits(ds) && |ds| > 0
    ensures |Group(ds)| > 0 && IsDigit(Group(ds)[0])
  {
    if |ds| > 3 {
      var head := ds[..|ds| - 3];
      assert AllDigits(head);
      GroupStartsWithDigit(head);
    }
  }

  /**
   * Where the commas go: one before every group of three digits counted from
   * the right, so a comma stands exactly at the positions a multiple of four
   * from the end, and there are `(|ds| - 1) / 3` of them.
   */
  lemma {:induction false} GroupCommas(ds: string)
    requires AllDigits(ds) && |ds| > 0
    ensures |Group(ds)| == |ds| + (|ds| - 1) / 3
    ensures forall i :: 0 <= i < |Group(ds)| ==> (Group(ds)[i] == ',' <==> (|Group(ds)| - i) % 4 == 0)
  {
    if |ds| <= 3 {
      GroupShortCommas(ds);
    } else {
      var head := ds[..|ds| - 3];
      assert AllDigits(head);
      GroupCommas(head);
      GroupStepCommas(ds, head, ds[|ds| - 3..], Group(head));
    }
  }

  lemma GroupShortCommas(ds: string)
    requires AllDigits(ds) && 0 < |ds| <= 3
    ensures |Group(ds)| == |ds| + (|ds| - 1) / 3
    ensures forall i :: 0 <= i < |Group(ds)| ==> (Group(ds)[i] == ',' <==> (|Group(ds)| - i) % 4 == 0)
  {
    forall i | 0 <= i < |ds|
      ensures ds[i] == ',' <==> (|ds| - i) % 4 == 0
    {
      assert IsDigit(ds[i]);
    }
  }

  /** Commas every four places from the end of `g`, then `,` and three digits: still every four places. */
  lemma CommasStep(g: string, tail: string, r: string)
    requires forall i :: 0 <= i < |g| ==> (g[i] == ',' <==> (|g| - i) % 4 == 0)
    requires AllDigits(tail) && |tail| == 3 && r == g + ([','] + tail)
    ensures forall i :: 0 <= i < |r| ==> (r[i] == ',' <==> (|r| - i) % 4 == 0)
  {
    forall i | 0 <= i < |r|
      ensures r[i] == ',' <==> (|r| - i) % 4 == 0
    {
      if i < |g| {
        assert r[i] == g[i] && |r| - i == (|g| - i) + 4;
      } else if i > |g| {
        assert r[i] == tail[i - |g| - 1] && IsDigit(tail[i - |g| - 1]);
      }
    }
  }

  /** One step of `Group`: the head's grouping, `,` and the last three digits. */
  lemma GroupStepCommas(ds: string, head: string, tail: string, g: string)
    requires AllDigits(ds) && |ds| > 3
    requires head == ds[..|ds| - 3] && tail == ds[|ds| - 3..] && AllDigits(head) && g == Group(head)
    requires |g| == |head| + (|head| - 1) / 3
    requires forall i :: 0 <= i < |g| ==> (g[i] == ',' <==> (|g| - i) % 4 == 0)
    ensures |Group(ds)| == |ds| + (|ds| - 1) / 3
    ensures forall i :: 0 <= i < |Group(ds)| ==> (Group(ds)[i] == ',' <==> (|Group(ds)| - i) % 4 == 0)
  {
    var r := g + ([','] + tail);
    assert Group(ds) == r;
    assert AllDigits(tail);
    CommasStep(g, tail, r);
  }

  /** Seven digits group as `1,234,567`. */
  lemma GroupExample()
    ensures Group("1234567") == "1,234,567"
  {
    assert "1234567"[..4] == "1234" && "1234567"[4..] == "567";
    assert "1234"[..1] == "1" && "1234"[1..] == "234";
  }

  /** The first position of `c` in `s`. */
  function FindChar(s: string, c: char): (r: Option<nat>)
    ensures r.None? <==> c !in s
    ensures r.Some? ==> r.value < |s| && s[r.value] == c && c !in s[..r.value]
  {
    if s == [] then None
    else if s[0] == c then Some(0)
    else
      match FindChar(s[1..], c)
      case None => None
      case Some(i) =>
        assert s[..i + 1] == [s[0]] + s[1..][..i];
        Some(i + 1)
  }

  /** The number written as the digits `ip`, a point and the digits `fp`. */
  function DecimalValue(ip: string, fp: string): real
    requires AllDigits(ip) && AllDigits(fp)
  {
    DigitsToNat(ip) as real + DigitsToNat(fp) as real / Pow10(|fp|) as real
  }

  /**
   * Unsigned decimal text as `float` accepts it: digits alone, or digits, one
   * point and digits with at least one digit in all.
   */
  ghost predicate UnsignedShape(u: string)
  {
    || (u != [] && AllDigits(u))
    || exists a, b :: AllDigits(a) && AllDigits(b) && |a| + |b| > 0 && u == a + "." + b
  }

  /** Decimal text: unsigned decimal text after an optional `-` or `+`. */
  ghost predicate DecimalShape(s: string)
  {
    if s != [] && (s[0] == '-' || s[0] == '+') then UnsignedShape(s[1..]) else UnsignedShape(s)
  }

  /** Reads unsigned decimal text: digits, optionally a `.` and more digits, at least one digit in all. */
  function ParseUnsigned(s: string): Option<real>
  {
    match FindChar(s, '.')
    case None =>
      if s != [] && AllDigits(s) then Some(DigitsToNat(s) as real) else None
    case Some(i) =>
      var ip, fp := s[..i], s[i + 1..];
      if |ip| + |fp| > 0 && AllDigits(ip) && AllDigits(fp) then
        Some(DecimalValue(ip, fp))
      else None
  }

  /** What `float(s)` accepts and yields for plain decimal text: an optional sign, then unsigned decimal text. */
  function ParseDecimal(s: string): (r: Option<real>)
    ensures r.Some? ==> s != [] && (IsDigit(s[0]) || s[0] in "+-.")
  {
    if s != [] && (s[0] == '-' || s[0] == '+') then
      match ParseUnsigned(s[1..])
      case None => None
      case Some(x) => Some(if s[0] == '-' then -x else x)
    else
      var r := ParseUnsigned(s);
      assert r.Some? && s != [] ==> s[0] == '.' || IsDigit(s[0]) by {
        if r.Some? && s != [] && FindChar(s, '.') != Some(0) {
          var i := FindChar(s, '.');
          assert i.Some? ==> i.value > 0 && IsDigit(s[..i.value][0]);
        }
      }
      r
  }

  /** Digits, a point and digits, with at least one digit on either side, read as their value. */
  lemma ParseUnsignedFraction(a: string, b: string, s: string)
    requires AllDigits(a) && AllDigits(b) && |a| + |b| > 0
    requires s == a + "." + b
    ensures s[0] != '-' && s[0] != '+'
    ensures ParseUnsigned(s) == Some(DecimalValue(a, b))
  {
    FindCharAfterDigits(a, "." + b);
    assert a + "." + b == a + ("." + b);
    assert s[..|a|] == a && s[|a| + 1..] == b;
    ParseUnsignedAt(s, |a|);
    if a != [] {
      assert s[0] == a[0] && IsDigit(a[0]);
    }
  }

  /** The first point after a run of digits is where the rest begins. */
  lemma {:induction false} FindCharAfterDigits(a: string, t: string)
    requires AllDigits(a) && t != [] && t[0] == '.'
    ensures FindChar(a + t, '.') == Some(|a|)
  {
    if a != [] {
      assert (a + t)[1..] == a[1..] + t;
      FindCharAfterDigits(a[1..], t);
    }
  }

  /** `float` accepts exactly the decimal text: an optional sign, then unsigned decimal text. */
  lemma ParseDecimalShape(s: string)
    ensures ParseDecimal(s).Some? <==> DecimalShape(s)
  {
    if s != [] && (s[0] == '-' || s[0] == '+') {
      ParseUnsignedShape(s[1..]);
    } else {
      ParseUnsignedShape(s);
    }
  }

  /** `ParseUnsigned` accepts exactly the unsigned decimal text. */
  lemma ParseUnsignedShape(u: string)
    ensures ParseUnsigned(u).Some? <==> UnsignedShape(u)
  {
    if ParseUnsigned(u).Some? {
      match FindChar(u, '.')
      case None =>
      case Some(i) =>
        var a, b := u[..i], u[i + 1..];
        assert u == a + "." + b;
        assert AllDigits(a) && AllDigits(b) && |a| + |b| > 0;
    }
    if UnsignedShape(u) {
      if u != [] && AllDigits(u) {
        NoPointInDigits(u);
      } else {
        var a, b :| AllDigits(a) && AllDigits(b) && |a| + |b| > 0 && u == a + "." + b;
        ParseUnsignedFraction(a, b, u);
      }
    }
  }

  /** Digits contain no point. */
  lemma NoPointInDigits(a: string)
    requires AllDigits(a)
    ensures '.' !in a && FindChar(a, '.') == None
  {
    forall k | 0 <= k < |a| ensures a[k] != '.' { assert IsDigit(a[k]); }
  }

  /** A non-empty digit string, optionally signed, parses to the number it denotes: "007" and "+7" are 7. */
  lemma ParseDigitsText(a: string)
    requires AllDigits(a) && a != []
    ensures ParseDecimal(a) == Some(DigitsToNat(a) as real)
    ensures ParseDecimal("-" + a) == Some(-(DigitsToNat(a) as real))
    ensures ParseDecimal("+" + a) == Some(DigitsToNat(a) as real)
  {
    NoPointInDigits(a);
    assert ParseUnsigned(a) == Some(DigitsToNat(a) as real);
    assert IsDigit(a[0]);
    ParseSigned('-', a, DigitsToNat(a) as real, "-" + a);
    ParseSigned('+', a, DigitsToNat(a) as real, "+" + a);
  }

  /** Text `float` refuses: trailing words, a second point, a doubled sign, an inner sign. */
  lemma ParseDecimalRejects()
    ensures ParseDecimal("12 months") == None
    ensures ParseDecimal("1.2.3") == None
    ensures ParseDecimal("--5") == None
    ensures ParseDecimal("1-2") == None
  {
    RejectsAt("12 months", 2);
    RejectsSecondPoint();
    RejectsDoubledSign();
    RejectsAt("1-2", 1);
  }

  /** Unsigned-looking text with a stray character at `k` is refused. */
  lemma RejectsAt(s: string, k: nat)
    requires 0 < k < |s| && IsDigit(s[0]) && !IsDigit(s[k]) && s[k] != '.'
    ensures ParseDecimal(s) == None
  {
    UnsignedRejectsChar(s, k);
  }

  lemma RejectsSecondPoint()
    ensures ParseDecimal("1.2.3") == None
  {
    var s := "1.2.3";
    assert s[1..] == ".2.3";
    assert FindChar(s, '.') == Some(1);
    UnsignedRejectsSecondPoint(s, 1, 3);
  }

  lemma RejectsDoubledSign()
    ensures ParseDecimal("--5") == None
  {
    var s := "--5";
    assert s[0] == '-' && s[1..][0] == '-';
    UnsignedRejectsChar(s[1..], 0);
  }

  /** A character that is neither a digit nor a point makes unsigned text unreadable. */
  lemma UnsignedRejectsChar(u: string, k: nat)
    requires k < |u| && !IsDigit(u[k]) && u[k] != '.'
    ensures ParseUnsigned(u) == None
  {
    match FindChar(u, '.')
    case None =>
    case Some(i) =>
      if k < i {
        assert u[..i][k] == u[k];
      } else {
        assert u[i + 1..][k - i - 1] == u[k];
      }
  }

  /** A second point, after the first one at `i`, makes unsigned text unreadable. */
  lemma UnsignedRejectsSecondPoint(u: string, i: nat, j: nat)
    requires FindChar(u, '.') == Some(i) && i < j < |u| && u[j] == '.'
    ensures ParseUnsigned(u) == None
  {
    assert u[i + 1..][j - i - 1] == '.';
  }

  /** Text with its first point at `i` and digits on either side parses as those digits. */
  lemma ParseUnsignedAt(s: string, i: nat)
    requires FindChar(s, '.') == Some(i)
    requires |s| > 1 && AllDigits(s[..i]) && AllDigits(s[i + 1..])
    ensures ParseUnsigned(s) == Some(DecimalValue(s[..i], s[i + 1..]))
  {
  }

  /**
   * Decimal text with a fractional part, optionally signed, parses to its value:
   * the integer digits plus the fraction digits scaled by ten to their count.
   */
  lemma ParseFractionText(a: string, b: string)
    requires AllDigits(a) && AllDigits(b) && |a| + |b| > 0
    ensures ParseDecimal(a + "." + b) == Some(DecimalValue(a, b))
    ensures ParseDecimal("-" + a + "." + b) == Some(-DecimalValue(a, b))
    ensures ParseDecimal("+" + a + "." + b) == Some(DecimalValue(a, b))
  {
    ParseUnsignedFraction(a, b, a + "." + b);
    ParseSignedFractionText('-', a, b);
    ParseSignedFractionText('+', a, b);
  }

  lemma ParseSignedFractionText(c: char, a: string, b: string)
    requires c == '-' || c == '+'
    requires AllDigits(a) && AllDigits(b) && |a| + |b| > 0
    ensures ParseDecimal([c] + a + "." + b) == Some(if c == '-' then -DecimalValue(a, b) else DecimalValue(a, b))
  {
    var u := a + "." + b;
    assert [c] + a + "." + b == [c] + u;
    ParseSignedFraction(c, a, b, u, [c] + u);
  }

  /** Signed decimal text with a fractional part. */
  lemma ParseSignedFraction(c: char, a: string, b: string, u: string, s: string)
    requires c == '-' || c == '+'
    requires AllDigits(a) && AllDigits(b) && |a| + |b| > 0
    requires u == a + "." + b && s == [c] + u
    ensures ParseDecimal(s) == Some(if c == '-' then -DecimalValue(a, b) else DecimalValue(a, b))
  {
    ParseUnsignedFraction(a, b, u);
    ParseSigned(c, u, DecimalValue(a, b), s);
  }

  /** A sign followed by unsigned text parses to the signed value. */
  lemma ParseSigned(c: char, u: string, x: real, s: string)
    requires c == '-' || c == '+'
    requires ParseUnsigned(u) == Some(x)
    requires s == [c] + u
    ensures ParseDecimal(s) == Some(if c == '-' then -x else x)
  {
    assert s[0] == c && s[1..] == u;
  }

  /** Decimal text read back: `float(str(i)) == i`. */
  lemma ParseIntText(i: int)
    ensures ParseDecimal(IntText(i)) == Some(i as real)
  {
    var n: nat := if i < 0 then -i else i;
    var t := NatText(n);
    assert FindChar(t, '.') == None by {
      assert '.' !in t by {
        forall k | 0 <= k < |t| ensures t[k] != '.' { assert IsDigit(t[k]); }
      }
    }
    if i < 0 {
      assert IntText(i)[1..] == t;
    }
  }
}
