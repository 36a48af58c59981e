/**
 * Exact decimals as `java.math.BigDecimal` holds them: an unscaled integer and a
 * scale, standing for unscaled / 10^scale. Every value the invoice code builds
 * comes from a literal without an exponent or from adding and subtracting such
 * values, so the scale is never negative here.
 */
module Decimal {
  import opened Common

  datatype Dec = Dec(unscaled: int, scale: nat)

  /** `BigDecimal.ZERO`. */
  const Zero: Dec := Dec(0, 0)

  /** The number a decimal stands for. */
  ghost function Val(d: Dec): real {
    d.unscaled as real / Pow10(d.scale) as real
  }

  function Max(a: nat, b: nat): nat {
    if a < b then b else a
  }

  function Abs(x: int): nat {
    if x < 0 then -x else x
  }

  /** The unscaled value of `d` rewritten at the larger scale `s`. */
  function Align(d: Dec, s: nat): int
    requires d.scale <= s
  {
    d.unscaled * Pow10(s - d.scale)
  }

  lemma AlignValue(d: Dec, s: nat)
    requires d.scale <= s
    ensures Align(d, s) as real / Pow10(s) as real == Val(d)
  {
    var q, r := Pow10(s - d.scale), Pow10(d.scale);
    Pow10Split(s, d.scale);
    CancelCommonFactor(d.unscaled, q, r);
  }

  /** 10^s splits into 10^(s - t) times 10^t. */
  lemma Pow10Split(s: nat, t: nat)
    requires t <= s
    ensures Pow10(s) == Pow10(s - t) * Pow10(t)
  {
    Pow10Add(s - t, t);
  }

  lemma CancelCommonFactor(u: int, q: nat, r: nat)
    requires q > 0 && r > 0
    ensures (u * q) as real / (q * r) as real == u as real / r as real
  {
    var x := u as real / r as real;
    assert x * r as real == u as real;
    assert (u * q) as real == u as real * q as real;
    assert (q * r) as real == q as real * r as real;
    assert x * (q as real * r as real) == u as real * q as real;
  }

  /** `BigDecimal.add`: the exact sum, at the larger of the two scales. */
  function Add(a: Dec, b: Dec): (r: Dec)
    ensures r.scale == Max(a.scale, b.scale)
    ensures Val(r) == Val(a) + Val(b)
  {
    var s := Max(a.scale, b.scale);
    AlignValue(a, s);
    AlignValue(b, s);
    DivideSum(Align(a, s), Align(b, s), Pow10(s));
    Dec(Align(a, s) + Align(b, s), s)
  }

  /** `BigDecimal.subtract`: the exact difference, at the larger of the two scales. */
  function Sub(a: Dec, b: Dec): (r: Dec)
    ensures r.scale == Max(a.scale, b.scale)
    ensures Val(r) == Val(a) - Val(b)
  {
    var s := Max(a.scale, b.scale);
    AlignValue(a, s);
    AlignValue(b, s);
    DivideSum(Align(a, s), -Align(b, s), Pow10(s));
    Dec(Align(a, s) - Align(b, s), s)
  }

  /** Division by a positive integer distributes over a sum and commutes with negation. */
  lemma DivideSum(x: int, y: int, p: nat)
    requires p > 0
    ensures (x + y) as real / p as real == x as real / p as real + y as real / p as real
    ensures (-y) as real / p as real == -(y as real / p as real)
  {
  }

  lemma AddZero(d: Dec)
    ensures Add(Zero, d) == d
  {
  }

  lemma AddCommutes(a: Dec, b: Dec)
    ensures Add(a, b) == Add(b, a)
  {
  }

  lemma AlignAdd(a: Dec, b: Dec, s: nat)
    requires Max(a.scale, b.scale) <= s
    ensures Align(Add(a, b), s) == Align(a, s) + Align(b, s)
  {
    var m := Max(a.scale, b.scale);
    Pow10Add(m - a.scale, s - m);
    Pow10Add(m - b.scale, s - m);
    Distribute(a.unscaled, Pow10(m - a.scale), b.unscaled, Pow10(m - b.scale), Pow10(s - m));
  }

  lemma Distribute(x: int, p: int, y: int, q: int, k: int)
    ensures (x * p + y * q) * k == x * (p * k) + y * (q * k)
  {
  }

  lemma AddAssociates(a: Dec, b: Dec, c: Dec)
    ensures Add(Add(a, b), c) == Add(a, Add(b, c))
  {
    var s := Max(Max(a.scale, b.scale), c.scale);
    AlignAdd(a, b, s);
    AlignAdd(b, c, s);
  }

  // ---------------------------------------------------------------- literals

  function Signed(negative: bool, n: nat): int {
    if negative then -(n as int) else n
  }

  /**
   * `new BigDecimal(s)` for literals without an exponent: an optional '+' or '-',
   * then digits with at most one '.', at least one digit in all. The scale is the
   * number of digits after the point. Anything else is None (the constructor
   * throws NumberFormatException).
   */
  function ParseLiteral(s: string): (r: Option<Dec>)
    ensures r.Some? ==> s != []
  {
    var negative := |s| > 0 && s[0] == '-';
    var body := if |s| > 0 && (s[0] == '-' || s[0] == '+') then s[1..] else s;
    match ParseUnsigned(body)
    case None => None
    case Some((n, scale)) => Some(Dec(Signed(negative, n), scale))
  }

  /** The digits of an unsigned literal as a number, and the count of digits after its point. */
  function ParseUnsigned(body: string): (r: Option<(nat, nat)>)
    ensures r.Some? ==> body != []
  {
    if '.' in body then
      var i := IndexOf(body, '.');
      var ip, fp := body[..i], body[i + 1..];
      if AllDigits(ip) && AllDigits(fp) && |ip| + |fp| > 0 then
        AllDigitsConcat(ip, fp);
        Some((DigitsValue(ip + fp), |fp|))
      else None
    else if AllDigits(body) && |body| > 0 then Some((DigitsValue(body), 0))
    else None
  }

  /** A sign in front of an unsigned literal negates it or leaves it as it is. */
  lemma LiteralWithSign(sign: string, body: string)
    requires sign == "" || sign == "+" || sign == "-"
    requires body != [] && body[0] != '+' && body[0] != '-'
    ensures ParseLiteral(sign + body) ==
      match ParseUnsigned(body)
      case None => None
      case Some((n, scale)) => Some(Dec(Signed(sign == "-", n), scale))
  {
    var s := sign + body;
    if sign != "" {
      assert s[0] == sign[0];
      assert s[1..] == body;
    } else {
      assert s == body;
    }
  }

  lemma UnsignedWithPoint(ip: string, fp: string)
    requires AllDigits(ip) && AllDigits(fp) && |ip| + |fp| > 0
    ensures AllDigits(ip + fp)
    ensures ParseUnsigned(ip + "." + fp) == Some((DigitsValue(ip + fp), |fp|))
  {
    AllDigitsConcat(ip, fp);
    var body := ip + "." + fp;
    assert body[|ip|] == '.';
    assert body[..|ip|] == ip;
    assert body[|ip| + 1..] == fp;
    IndexOfIsFirst(body, '.', |ip|);
  }

  /** A literal made of a sign, integer digits, a point and fraction digits has exactly the value they spell. */
  lemma LiteralWithPoint(sign: string, ip: string, fp: string)
    requires sign == "" || sign == "+" || sign == "-"
    requires AllDigits(ip) && AllDigits(fp) && |ip| + |fp| > 0
    ensures AllDigits(ip + fp)
    ensures ParseLiteral(sign + ip + "." + fp) == Some(Dec(Signed(sign == "-", DigitsValue(ip + fp)), |fp|))
  {
    UnsignedWithPoint(ip, fp);
    var body := ip + "." + fp;
    assert body[0] == if |ip| > 0 then ip[0] else '.';
    ConcatRegroup(sign, ip, ".", fp);
    LiteralWithSign(sign, body);
  }

  /** A literal made of a sign and digits only has scale zero and the value they spell. */
  lemma LiteralWithoutPoint(sign: string, ip: string)
    requires sign == "" || sign == "+" || sign == "-"
    requires AllDigits(ip) && |ip| > 0
    ensures ParseLiteral(sign + ip) == Some(Dec(Signed(sign == "-", DigitsValue(ip)), 0))
  {
    assert IsDigit(ip[0]);
    assert '.' !in ip by { assert forall k | 0 <= k < |ip| :: IsDigit(ip[k]); }
    LiteralWithSign(sign, ip);
  }

  /** `sign ip.fp`: a sign or none, digits, a point, digits, at least one digit in all. */
  predicate PointForm(s: string, sign: string, ip: string, fp: string) {
    (sign == "" || sign == "+" || sign == "-") && AllDigits(ip) && AllDigits(fp) && |ip| + |fp| > 0 &&
    s == sign + ip + "." + fp
  }

  /** `sign ip`: a sign or none, then at least one digit. */
  predicate IntegerForm(s: string, sign: string, ip: string) {
    (sign == "" || sign == "+" || sign == "-") && AllDigits(ip) && |ip| > 0 && s == sign + ip
  }

  /** Exactly the texts of the two forms are literals: "1.2.3", "--1", "+", "." and "" are not. */
  lemma LiteralAccepts(s: string)
    ensures ParseLiteral(s).Some? <==>
      (exists sign, ip, fp :: PointForm(s, sign, ip, fp)) || (exists sign, ip :: IntegerForm(s, sign, ip))
  {
    if ParseLiteral(s).Some? {
      LiteralHasForm(s);
    } else {
      if exists sign, ip, fp :: PointForm(s, sign, ip, fp) {
        var sign, ip, fp :| PointForm(s, sign, ip, fp);
        LiteralWithPoint(sign, ip, fp);
        assert false;
      }
      if exists sign, ip :: IntegerForm(s, sign, ip) {
        var sign, ip :| IntegerForm(s, sign, ip);
        LiteralWithoutPoint(sign, ip);
        assert false;
      }
    }
  }

  lemma LiteralHasForm(s: string)
    requires ParseLiteral(s).Some?
    ensures (exists sign, ip, fp :: PointForm(s, sign, ip, fp)) || (exists sign, ip :: IntegerForm(s, sign, ip))
  {
    var signed := |s| > 0 && (s[0] == '-' || s[0] == '+');
    var sign := if signed then s[..1] else "";
    var body := if signed then s[1..] else s;
    if signed {
      SplitAround(s, 0);
      assert s[..0] == [];
    } else {
      assert s == "" + s;
    }
    SignedBodyHasForm(s, sign, body);
  }

  lemma SignedBodyHasForm(s: string, sign: string, body: string)
    requires sign == "" || sign == "+" || sign == "-"
    requires s == sign + body && ParseUnsigned(body).Some?
    ensures (exists sign, ip, fp :: PointForm(s, sign, ip, fp)) || (exists sign, ip :: IntegerForm(s, sign, ip))
  {
    UnsignedHasForm(body);
    if '.' in body {
      var i := IndexOf(body, '.');
      PointFormOf(s, sign, body[..i], body[i + 1..]);
    } else {
      assert IntegerForm(s, sign, body);
    }
  }

  lemma PointFormOf(s: string, sign: string, ip: string, fp: string)
    requires sign == "" || sign == "+" || sign == "-"
    requires AllDigits(ip) && AllDigits(fp) && |ip| + |fp| > 0 && s == sign + (ip + "." + fp)
    ensures PointForm(s, sign, ip, fp)
  {
    assert sign + ip + "." + fp == sign + (ip + "." + fp);
  }

  lemma UnsignedHasForm(body: string)
    requires ParseUnsigned(body).Some?
    ensures '.' in body ==>
      var i := IndexOf(body, '.');
      && AllDigits(body[..i]) && AllDigits(body[i + 1..]) && |body| > 1
      && body == body[..i] + "." + body[i + 1..]
    ensures '.' !in body ==> AllDigits(body) && |body| > 0
  {
    if '.' in body {
      var i := IndexOf(body, '.');
      SplitAround(body, i);
    }
  }

  lemma SplitAround(s: string, i: nat)
    requires i < |s|
    ensures s == s[..i] + [s[i]] + s[i + 1..]
  {
  }

  /** A character other than a digit, a sign or a point makes the literal invalid. */
  lemma LiteralRejectsStrayChar(s: string, k: nat)
    requires k < |s| && !IsDigit(s[k]) && s[k] != '+' && s[k] != '-' && s[k] != '.'
    ensures ParseLiteral(s) == None
  {
    var body := if |s| > 0 && (s[0] == '-' || s[0] == '+') then s[1..] else s;
    var j := if |s| > 0 && (s[0] == '-' || s[0] == '+') then k - 1 else k;
    assert 0 <= j < |body| && body[j] == s[k];
    UnsignedRejectsStrayChar(body, j);
  }

  lemma UnsignedRejectsStrayChar(body: string, j: nat)
    requires j < |body| && !IsDigit(body[j]) && body[j] != '.'
    ensures ParseUnsigned(body) == None
  {
    if '.' in body {
      var i := IndexOf(body, '.');
      if j < i {
        assert body[..i][j] == body[j];
      } else {
        assert body[i + 1..][j - i - 1] == body[j];
      }
    }
  }

  // ---------------------------------------------------------------- rendering

  /** The precision minus one minus the scale: the exponent `toString` would print. */
  function AdjustedExponent(d: Dec): int {
    |NatToDigits(Abs(d.unscaled))| - 1 - d.scale
  }

  /** `toString` switches to scientific notation for a positive scale and an adjusted exponent below -6. */
  predicate UsesExponent(d: Dec) {
    d.scale > 0 && AdjustedExponent(d) < -6
  }

  /** Characters that can occur in a rendered decimal. */
  predicate NumberChars(s: string) {
    forall k | 0 <= k < |s| :: IsDigit(s[k]) || s[k] == '-' || s[k] == '.' || s[k] == 'E'
  }

  lemma NumberCharsConcat(a: string, b: string)
    requires NumberChars(a) && NumberChars(b)
    ensures NumberChars(a + b)
  {
    forall k | 0 <= k < |a + b|
      ensures IsDigit((a + b)[k]) || (a + b)[k] == '-' || (a + b)[k] == '.' || (a + b)[k] == 'E'
    {
      if k < |a| { assert (a + b)[k] == a[k]; } else { assert (a + b)[k] == b[k - |a|]; }
    }
  }

  /** The sign, the leading digit and the point-and-fraction of the scientific form. */
  function ScientificRender(sign: string, coeff: string, exponent: nat): string
    requires |coeff| >= 1
  {
    sign + [coeff[0]] + (if |coeff| > 1 then "." + coeff[1..] else "") + "E-" + NatToDigits(exponent)
  }

  /** The sign, the integer digits and the point-and-fraction of the plain form. */
  function PlainRender(sign: string, mag: nat, scale: nat): string {
    var p := Pow10(scale);
    DivModSplit(mag, p);
    sign + NatToDigits(mag / p) + (if scale == 0 then "" else "." + PadZeros(NatToDigits(mag % p), scale))
  }

  /**
   * `BigDecimal.toString` for a non-negative scale: the plain form ("-12.30",
   * "0.05", "970.87") unless `UsesExponent`, then the digits with one before
   * the point and an exponent ("1.5E-7", "0E-8").
   */
  function Render(d: Dec): (s: string)
    ensures s != [] && (s[0] == '-' <==> d.unscaled < 0)
  {
    var sign := if d.unscaled < 0 then "-" else "";
    if UsesExponent(d) then
      var coeff := NatToDigits(Abs(d.unscaled));
      var s := ScientificRender(sign, coeff, -AdjustedExponent(d));
      assert s[0] == if sign == "" then coeff[0] else '-';
      s
    else
      var s := PlainRender(sign, Abs(d.unscaled), d.scale);
      assert s[0] == if sign == "" then NatToDigits(Abs(d.unscaled) / Pow10(d.scale))[0] else '-';
      s
  }

  /** A rendered decimal is one non-empty token of digits, sign, point and exponent marker,
      ending in a digit; in particular it holds no comma and nothing `trim` removes. */
  lemma RenderShape(d: Dec)
    ensures Render(d) != [] && NumberChars(Render(d)) && ',' !in Render(d)
    ensures !IsTrimmable(Render(d)[0]) && IsDigit(Render(d)[|Render(d)| - 1])
  {
    var sign := if d.unscaled < 0 then "-" else "";
    if UsesExponent(d) {
      ScientificShape(sign, NatToDigits(Abs(d.unscaled)), -AdjustedExponent(d));
    } else {
      PlainShape(sign, Abs(d.unscaled), d.scale);
    }
  }

  lemma ScientificShape(sign: string, coeff: string, exponent: nat)
    requires sign == "" || sign == "-"
    requires |coeff| >= 1 && AllDigits(coeff)
    ensures var s := ScientificRender(sign, coeff, exponent);
      s != [] && NumberChars(s) && ',' !in s && (s[0] == '-' || IsDigit(s[0])) && IsDigit(s[|s| - 1])
  {
    var s := ScientificRender(sign, coeff, exponent);
    var frac := if |coeff| > 1 then "." + coeff[1..] else "";
    var e := NatToDigits(exponent);
    assert NumberChars(sign) && NumberChars(frac) && NumberChars([coeff[0]]) && NumberChars("E-");
    NumberCharsConcat(sign, [coeff[0]]);
    NumberCharsConcat(sign + [coeff[0]], frac);
    NumberCharsConcat(sign + [coeff[0]] + frac, "E-");
    NumberCharsConcat(sign + [coeff[0]] + frac + "E-", e);
    assert s == sign + [coeff[0]] + frac + "E-" + e;
    assert s[|s| - 1] == e[|e| - 1];
    assert s[0] == (sign + [coeff[0]])[0];
  }

  lemma PlainShape(sign: string, mag: nat, scale: nat)
    requires sign == "" || sign == "-"
    ensures var s := PlainRender(sign, mag, scale);
      s != [] && NumberChars(s) && ',' !in s && (s[0] == '-' || IsDigit(s[0])) && IsDigit(s[|s| - 1])
  {
    var s := PlainRender(sign, mag, scale);
    var p := Pow10(scale);
    var ip := NatToDigits(mag / p);
    var fp := if scale == 0 then "" else "." + PadZeros(NatToDigits(mag % p), scale);
    assert NumberChars(sign) && NumberChars(fp);
    NumberCharsConcat(sign, ip);
    NumberCharsConcat(sign + ip, fp);
    assert s == sign + ip + fp;
    assert s[0] == (sign + ip)[0];
    if scale == 0 {
      assert s[|s| - 1] == ip[|ip| - 1];
    } else {
      assert s[|s| - 1] == fp[|fp| - 1];
    }
  }

  /** Reading back a rendered decimal gives the same unscaled value and scale, outside the exponent range. */
  lemma ParseRender(d: Dec)
    requires !UsesExponent(d)
    ensures ParseLiteral(Render(d)) == Some(d)
  {
    var sign := if d.unscaled < 0 then "-" else "";
    assert Render(d) == PlainRender(sign, Abs(d.unscaled), d.scale);
    ParsePlainRender(sign, Abs(d.unscaled), d.scale);
  }

  lemma ParsePlainRender(sign: string, mag: nat, scale: nat)
    requires sign == "" || sign == "-"
    ensures ParseLiteral(PlainRender(sign, mag, scale)) == Some(Dec(Signed(sign == "-", mag), scale))
  {
    if scale == 0 {
      assert PlainRender(sign, mag, scale) == sign + NatToDigits(mag);
      LiteralWithoutPoint(sign, NatToDigits(mag));
    } else {
      ParseFractionRender(sign, mag, scale);
    }
  }

  lemma ParseFractionRender(sign: string, mag: nat, scale: nat)
    requires sign == "" || sign == "-"
    requires scale > 0
    ensures ParseLiteral(PlainRender(sign, mag, scale)) == Some(Dec(Signed(sign == "-", mag), scale))
  {
    var p := Pow10(scale);
    DivModSplit(mag, p);
    var ip := NatToDigits(mag / p);
    var fp := PadZeros(NatToDigits(mag % p), scale);
    var text := sign + ip + "." + fp;
    assert PlainRender(sign, mag, scale) == text;
    NatToDigitsWidth(mag % p, scale);
    assert |fp| == scale;
    PadZerosValue(NatToDigits(mag % p), scale);
    DigitsValueConcat(ip, fp);
    var v := DigitsValue(ip + fp);
    assert v == (mag / p) * p + mag % p;
    assert v == mag;
    LiteralWithPoint(sign, ip, fp);
    assert ParseLiteral(text) == Some(Dec(Signed(sign == "-", v), |fp|));
  }

  lemma DivModSplit(n: nat, p: nat)
    requires p > 0
    ensures n / p >= 0 && 0 <= n % p < p
    ensures (n / p) * p + n % p == n
  {
  }
}
