/** `quote_bound_value` of the MySQL adapter: how a value bound into a query
    is written as an SQL literal.

    Numbers are written as their decimal text inside single quotes, `true` as
    `'1'` and `false` as `'0'`. An exact decimal is written the way Active
    Support formats a `BigDecimal`: plain notation, no exponent, trailing
    fractional zeros dropped but at least one fractional digit kept. Decimals
    are modelled exactly, as an integer count of units of 10^-scale; there is
    no floating point here.
 */
module BoundQuoting {

  /** 10^k. */
  function Pow10(k: nat): (p: nat)
    ensures p >= 1
  {
    if k == 0 then 1 else 10 * Pow10(k - 1)
  }

  predicate IsDigit(c: char) {
    '0' <= c <= '9'
  }

  predicate AllDigits(s: string) {
    forall i :: 0 <= i < |s| ==> IsDigit(s[i])
  }

  function DigitValue(c: char): (d: nat)
    requires IsDigit(c)
    ensures d < 10
  {
    c as int - '0' as int
  }

  function DigitChar(d: nat): (c: char)
    requires d < 10
    ensures IsDigit(c) && DigitValue(c) == d
  {
    ('0' as int + d) as char
  }

  /** The value of a string of decimal digits, most significant first. */
  function ParseNat(s: string): (n: nat)
    requires AllDigits(s)
    decreases |s|
  {
    if |s| == 0 then 0 else 10 * ParseNat(s[..|s| - 1]) + DigitValue(s[|s| - 1])
  }

  /** `Integer#to_s` of a natural number: its decimal digits, with no leading
      zero unless the number is zero. */
  function NatToString(n: nat): (s: string)
    ensures |s| > 0 && AllDigits(s)
    ensures s[0] == '0' ==> n == 0 && s == "0"
    decreases n
  {
    if n < 10 then [DigitChar(n)] else NatToString(n / 10) + [DigitChar(n % 10)]
  }

  /** `Integer#to_s`: a minus sign for negative numbers, then the digits. */
  function IntToString(i: int): (s: string)
    ensures |s| > 0
    ensures i < 0 <==> s[0] == '-'
    ensures AllDigits(if i < 0 then s[1..] else s)
  {
    if i < 0 then "-" + NatToString(-i) else NatToString(i)
  }

  /** Reads back the text `IntToString` writes. */
  function ParseInt(s: string): (i: int)
    requires |s| > 0 && AllDigits(if s[0] == '-' then s[1..] else s)
  {
    if s[0] == '-' then 0 - ParseNat(s[1..]) else ParseNat(s)
  }

  /** Exactly `k` digits for `f`, padded with leading zeros. */
  function Digits(f: nat, k: nat): (s: string)
    requires f < Pow10(k)
    ensures |s| == k && AllDigits(s)
    ensures ParseNat(s) == f
    decreases k
  {
    if k == 0 then ""
    else
      var s := Digits(f / 10, k - 1) + [DigitChar(f % 10)];
      assert s[..k - 1] == Digits(f / 10, k - 1);
      s
  }

  /** `s` without its trailing zeros. */
  function StripTrailingZeros(s: string): (t: string)
    ensures |t| <= |s| && t == s[..|t|]
    ensures forall i :: |t| <= i < |s| ==> s[i] == '0'
    ensures |t| == 0 || t[|t| - 1] != '0'
    decreases |s|
  {
    if |s| > 0 && s[|s| - 1] == '0' then StripTrailingZeros(s[..|s| - 1]) else s
  }

  /** The fractional digits of `f` units of 10^-k, trailing zeros dropped,
      at least one digit kept. */
  function FractionText(f: nat, k: nat): (t: string)
    requires f < Pow10(k)
    ensures |t| > 0 && AllDigits(t)
    ensures t == "0" || t[|t| - 1] != '0'
  {
    var s := StripTrailingZeros(Digits(f, k));
    if |s| == 0 then "0" else s
  }

  /** An exact decimal: `unscaled` units of 10^-`scale`. */
  datatype Decimal = Decimal(unscaled: int, scale: nat)

  function Abs(i: int): nat {
    if i < 0 then -i else i
  }

  /** Euclidean division by a positive divisor. */
  lemma DivMod(a: int, p: int)
    requires a >= 0 && p > 0
    ensures 0 <= a / p && 0 <= a % p < p && a == (a / p) * p + a % p
  {
  }

  /** The integer part and the remainder of `a` units of 10^-k. */
  function SplitUnits(a: nat, k: nat): (r: (nat, nat))
    ensures r.1 < Pow10(k)
    ensures a == r.0 * Pow10(k) + r.1
  {
    var p: int := Pow10(k);
    DivMod(a, p);
    var q: nat := a / p;
    var m: nat := a % p;
    (q, m)
  }

  /** `BigDecimal#to_s` as Active Support formats it: sign, integer part,
      point, fractional part. */
  function DecimalToString(d: Decimal): (s: string)
    ensures |s| > 0
    ensures d.unscaled < 0 <==> s[0] == '-'
  {
    var (whole, units) := SplitUnits(Abs(d.unscaled), d.scale);
    var body := NatToString(whole) + ("." + FractionText(units, d.scale));
    assert body[0] == NatToString(whole)[0];
    (if d.unscaled < 0 then "-" else "") + body
  }

  /** A value bound into a query. */
  datatype BoundValue = IntegerValue(i: int) | DecimalValue(d: Decimal) | BoolValue(b: bool)

  /** Wraps text in single quotes. The texts quoted here are digits, signs and a
      point, none of which MySQL escapes. */
  function Quote(s: string): (q: string)
    ensures |q| == |s| + 2 && q[0] == '\'' && q[|q| - 1] == '\'' && q[1..|q| - 1] == s
  {
    "'" + s + "'"
  }

  /** `quote_bound_value`: numbers are quoted as their text, booleans as
      `'1'` and `'0'`. */
  function QuoteBoundValue(v: BoundValue): (q: string)
    ensures |q| >= 3 && q[0] == '\'' && q[|q| - 1] == '\''
    ensures v.BoolValue? ==> q == (if v.b then "'1'" else "'0'")
  {
    match v
    case IntegerValue(i) => Quote(IntToString(i))
    case DecimalValue(d) => Quote(DecimalToString(d))
    case BoolValue(b) => if b then "'1'" else "'0'"
  }

  /** Reading the digits of a natural number gives the number back. */
  lemma {:induction false} ParseNatToString(n: nat)
    ensures ParseNat(NatToString(n)) == n
    decreases n
  {
    if n >= 10 {
      var s := NatToString(n);
      assert s[..|s| - 1] == NatToString(n / 10);
      ParseNatToString(n / 10);
    }
  }

  /** Reading the text of an integer gives the integer back. */
  lemma IntRoundTrip(i: int)
    ensures ParseInt(IntToString(i)) == i
  {
    if i < 0 {
      assert IntToString(i)[1..] == NatToString(-i);
      ParseNatToString(-i);
    } else {
      ParseNatToString(i);
    }
  }

  /** Different integers are written differently. */
  lemma IntToStringInjective(i: int, j: int)
    requires IntToString(i) == IntToString(j)
    ensures i == j
  {
    IntRoundTrip(i);
    IntRoundTrip(j);
  }

  /** Dropping trailing zeros divides the value by a power of ten. */
  lemma {:induction false} StripScales(s: string)
    requires AllDigits(s)
    ensures AllDigits(StripTrailingZeros(s))
    ensures ParseNat(s) == ParseNat(StripTrailingZeros(s)) * Pow10(|s| - |StripTrailingZeros(s)|)
    decreases |s|
  {
    if |s| > 0 && s[|s| - 1] == '0' {
      var s' := s[..|s| - 1];
      StripScales(s');
      var t := StripTrailingZeros(s');
      var v, p := ParseNat(t), Pow10(|s'| - |t|);
      assert DigitValue(s[|s| - 1]) == 0;
      assert ParseNat(s) == 10 * (v * p);
      assert Pow10(|s| - |t|) == 10 * p;
      MulAssoc(v, 10, p);
      MulSwapFirst(10, v, p);
    }
  }

  lemma MulAssoc(x: int, y: int, z: int)
    ensures x * (y * z) == (x * y) * z
  {
  }

  lemma MulDistrib(x: int, y: int, z: int)
    ensures (x + y) * z == x * z + y * z
  {
  }

  lemma MulSwapFirst(x: int, y: int, z: int)
    ensures x * (y * z) == y * (x * z)
  {
  }

  lemma MulSwapLast(x: int, y: int, z: int)
    ensures x * y * z == x * z * y
  {
  }

  /** The fractional text of `f` units of 10^-k denotes the same fraction:
      `value(t) / 10^|t| == f / 10^k`. */
  lemma FractionTextValue(f: nat, k: nat)
    requires f < Pow10(k)
    ensures var t := FractionText(f, k);
      ParseNat(t) * Pow10(k) == f * Pow10(|t|)
  {
    var s := Digits(f, k);
    var t := StripTrailingZeros(s);
    StripScales(s);
    var x := ParseNat(t);
    if |t| == 0 {
      assert x == 0;
      assert f == 0;
      assert ParseNat("0") == 0;
    } else {
      var y := Pow10(k - |t|);
      var z := Pow10(|t|);
      assert f == x * y;
      PowAdd(|t|, k - |t|);
      assert Pow10(k) == y * z;
      MulAssoc(x, y, z);
    }
  }

  lemma {:induction false} PowAdd(a: nat, b: nat)
    ensures Pow10(a + b) == Pow10(b) * Pow10(a)
    decreases a
  {
    if a > 0 {
      PowAdd(a - 1, b);
      assert Pow10(a + b) == 10 * Pow10(a - 1 + b);
      MulAssoc(10, Pow10(b), Pow10(a - 1));
      MulSwapLast(10, Pow10(b), Pow10(a - 1));
    }
  }

  /** The text of a decimal is a sign, an integer part, a point and a
      fractional part whose digits, read back, denote the same number:
      `(int * 10^|frac| + frac) / 10^|frac| == |unscaled| / 10^scale`. */
  lemma DecimalTextDenotesValue(d: Decimal)
    ensures var (w, m) := SplitUnits(Abs(d.unscaled), d.scale);
      var whole := NatToString(w);
      var frac := FractionText(m, d.scale);
      && DecimalToString(d) == (if d.unscaled < 0 then "-" else "") + (whole + ("." + frac))
      && (ParseNat(whole) * Pow10(|frac|) + ParseNat(frac)) * Pow10(d.scale) == Abs(d.unscaled) * Pow10(|frac|)
  {
    var a := Abs(d.unscaled);
    var p := Pow10(d.scale);
    var (w, m) := SplitUnits(a, d.scale);
    var frac := FractionText(m, d.scale);
    ParseNatToString(w);
    FractionTextValue(m, d.scale);
    ScaledSum(w, m, p, ParseNat(frac), Pow10(|frac|));
  }

  /** If `x / q == m / p` then `w + x / q == (w * p + m) / p`, cross-multiplied. */
  lemma ScaledSum(w: int, m: int, p: int, x: int, q: int)
    requires x * p == m * q
    ensures (w * q + x) * p == (w * p + m) * q
  {
    MulDistrib(w * q, x, p);
    MulSwapLast(w, q, p);
    MulDistrib(w * p, m, q);
  }

  /** 42 is bound as `'42'`. */
  lemma QuotedInteger()
    ensures QuoteBoundValue(IntegerValue(42)) == "'42'"
  {
    assert NatToString(4) == "4";
    assert NatToString(42) == "4" + "2";
  }

  /** 4.2, held as 42 tenths or as 420 hundredths, is bound as `'4.2'`. */
  lemma QuotedDecimal()
    ensures QuoteBoundValue(DecimalValue(Decimal(42, 1))) == "'4.2'"
    ensures QuoteBoundValue(DecimalValue(Decimal(420, 2))) == "'4.2'"
  {
    assert Pow10(1) == 10;
    assert Pow10(2) == 100;
    assert SplitUnits(42, 1) == (4, 2);
    assert SplitUnits(420, 2) == (4, 20);
    assert NatToString(4) == "4";
    assert Digits(0, 0) == "";
    assert Digits(2, 1) == "2";
    assert Digits(20, 2) == "2" + "0";
    assert StripTrailingZeros("2") == "2";
    assert StripTrailingZeros("20") == "2";
    assert FractionText(2, 1) == "2";
    assert FractionText(20, 2) == "2";
  }

  /** Booleans are bound as `'1'` and `'0'`. */
  lemma QuotedBooleans()
    ensures QuoteBoundValue(BoolValue(true)) == "'1'"
    ensures QuoteBoundValue(BoolValue(false)) == "'0'"
  {
  }

  /** A quoted number, unquoted and read back, is the number that was bound. */
  lemma QuotedIntegerRoundTrip(i: int)
    ensures var q := QuoteBoundValue(IntegerValue(i));
      ParseInt(q[1..|q| - 1]) == i
  {
    IntRoundTrip(i);
  }
}
