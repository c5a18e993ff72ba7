/** `Fixed64`: 64-bit integers with a decimal scale, their overflow checks, conversions and printed form. */
module FixedPoint {
  import opened Decimals

  const TWO64 := 0x1_0000_0000_0000_0000
  const MAX := 0x7fff_ffff_ffff_ffff
  const MIN := -0x8000_0000_0000_0000

  type Int64 = x: int | MIN <= x <= MAX

  type Scale = n: nat | n <= 18

  datatype Fixed64 = Fixed64(unscaled: Int64, scale: Scale)

  datatype Error = BadScale | ScaleMismatch | Overflow | Lossy | NotInteger

  predicate Fits(x: int) {
    MIN <= x <= MAX
  }

  // ---------------------------------------------------------------------------------------------------------
  // Machine arithmetic: two's complement wrap-around, and division that truncates towards zero.

  function Wrap(x: int): Int64 {
    (x - MIN) % TWO64 + MIN
  }

  function Truncated(a: int, b: int): int
    requires b != 0
  {
    if a >= 0 then a / b else -(-a / b)
  }

  /** Only the least number divided by -1 wraps. */
  function Div64(a: Int64, b: Int64): Int64
    requires b != 0
  {
    Wrap(Truncated(a, b))
  }

  function AddUnscaled(a: Int64, b: Int64): Result<Int64, Error> {
    if b > 0 && a > Wrap(MAX - b) then Err(Overflow)
    else if b < 0 && a < Wrap(MIN - b) then Err(Overflow)
    else Ok(Wrap(a + b))
  }

  function MulUnscaled(a: Int64, b: Int64): Result<Int64, Error> {
    if a == 0 || b == 0 then Ok(0)
    else if (a == MIN && b == -1) || (b == MIN && a == -1) then Err(Overflow)
    else
      var r := Wrap(a * b);
      if Div64(r, b) != a then Err(Overflow) else Ok(r)
  }

  function Exactly(x: int): Result<Int64, Error> {
    if Fits(x) then Ok(x) else Err(Overflow)
  }

  function AddWith(f: Fixed64, o: Fixed64): Result<Fixed64, Error> {
    if f.scale != o.scale then Err(ScaleMismatch) else Scaled(AddUnscaled(f.unscaled, o.unscaled), f.scale)
  }

  /** The subtrahend is negated in 64 bits. */
  function SubWith(f: Fixed64, o: Fixed64): Result<Fixed64, Error> {
    if f.scale != o.scale then Err(ScaleMismatch) else Scaled(AddUnscaled(f.unscaled, Wrap(0 - o.unscaled)), f.scale)
  }

  function Neg(f: Fixed64): Result<Fixed64, Error> {
    if f.unscaled == MIN then Err(Overflow) else Ok(f.(unscaled := Wrap(0 - f.unscaled)))
  }

  function MulInt(f: Fixed64, m: Int64): Result<Fixed64, Error> {
    Scaled(MulUnscaled(f.unscaled, m), f.scale)
  }

  function Scaled(r: Result<Int64, Error>, scale: Scale): Result<Fixed64, Error> {
    match r
    case Ok(x) => Ok(Fixed64(x, scale))
    case Err(e) => Err(e)
  }

  lemma Wrapped(x: int)
    ensures Fits(x) ==> Wrap(x) == x
    ensures !Fits(x) ==> Wrap(x) - x >= TWO64 || x - Wrap(x) >= TWO64
  {
    var k := (x - MIN) / TWO64;
    assert x - MIN == k * TWO64 + (x - MIN) % TWO64;
    assert Wrap(x) == x - k * TWO64;
    if k >= 1 {
    } else if k <= -1 {
    } else {
      assert Fits(x);
    }
  }

  function Size(x: int): (n: int)
    ensures n >= 0
  {
    if x < 0 then -x else x
  }

  /** Truncating division is off by less than the divisor, and never grows. */
  lemma TruncatedBounds(a: int, b: int)
    requires b != 0
    ensures Size(a - Truncated(a, b) * b) < Size(b)
    ensures Size(Truncated(a, b)) <= Size(a) && (b != 1 && b != -1 && a != 0 ==> Size(Truncated(a, b)) < Size(a))
  {
    var n := Size(a);
    var q := n / b;
    assert n == q * b + n % b;
    assert (-q) * b == -(q * b);
    QuotientSize(q, b, n);
  }

  lemma QuotientSize(q: int, b: int, n: int)
    requires b != 0 && 0 <= n - q * b < Size(b) && n >= 0
    ensures Size(q) <= n && (b != 1 && b != -1 && n != 0 ==> Size(q) < n)
  {
    if b > 0 {
      PositiveQuotient(q, b, n);
    } else {
      assert (-q) * (-b) == q * b;
      PositiveQuotient(-q, -b, n);
    }
  }

  lemma PositiveQuotient(q: int, b: int, n: int)
    requires b > 0 && 0 <= n - q * b < b && n >= 0
    ensures 0 <= q <= n && (b >= 2 && n > 0 ==> q < n)
  {
    assert (q + 1) * b == q * b + b;
    assert q <= -1 ==> (q + 1) * b <= 0;
    assert q * b == q * 2 + q * (b - 2);
    assert q >= 0 && b >= 2 ==> q * (b - 2) >= 0;
  }

  lemma TruncatedExact(a: int, b: int)
    requires b != 0
    ensures Truncated(a * b, b) == a
  {
    hide Truncated;
    TruncatedBounds(a * b, b);
    var q := Truncated(a * b, b);
    assert a * b - q * b == (a - q) * b;
    SizeOfProduct(a - q, b);
  }

  lemma SizeOfProduct(x: int, b: int)
    ensures x != 0 ==> Size(x * b) >= Size(b)
  {
    assert x * b == b + (x - 1) * b == -b + (x + 1) * b;
    if x > 0 {
      SignOfProduct(x - 1, b);
    } else if x < 0 {
      SignOfProduct(-(x + 1), b);
      assert (-(x + 1)) * b == -((x + 1) * b);
    }
  }

  lemma SignOfProduct(x: int, b: int)
    requires x >= 0
    ensures if b >= 0 then x * b >= 0 else x * b <= 0
  {
  }

  lemma AddIsExact(a: Int64, b: Int64)
    ensures AddUnscaled(a, b) == Exactly(a + b)
  {
    Wrapped(a + b);
    Wrapped(MAX - b);
    Wrapped(MIN - b);
  }

  /** The division in the product check never overflows. */
  lemma CheckedDivisionFits(a: Int64, b: Int64)
    requires b != 0 && !(a == MIN && b == -1)
    ensures !(Wrap(a * b) == MIN && b == -1) && Fits(Truncated(Wrap(a * b), b))
  {
    var r := Wrap(a * b);
    TruncatedBounds(r, b);
    if b == -1 {
      Wrapped(a * b);
    } else if b == 1 {
      assert Truncated(r, 1) == r;
    }
  }

  lemma MulIsExact(a: Int64, b: Int64)
    ensures MulUnscaled(a, b) == Exactly(a * b)
  {
    if a != 0 && b != 0 {
      var r := Wrap(a * b);
      Wrapped(a * b);
      if (a == MIN && b == -1) || (b == MIN && a == -1) {
        assert a * b == -MIN;
      } else {
        CheckedDivisionFits(a, b);
        Wrapped(Truncated(r, b));
        if Fits(a * b) {
          TruncatedExact(a, b);
        } else {
          TruncatedBounds(r, b);
        }
      }
    }
  }

  lemma AddWithIsExact(f: Fixed64, o: Fixed64)
    requires f.scale == o.scale
    ensures AddWith(f, o) == Scaled(Exactly(f.unscaled + o.unscaled), f.scale)
  {
    AddIsExact(f.unscaled, o.unscaled);
  }

  /** Subtraction is exact unless the least number is subtracted; then it is wrong whatever it is subtracted from. */
  lemma SubIsExactIff(f: Fixed64, o: Fixed64)
    requires f.scale == o.scale
    ensures SubWith(f, o) == Scaled(Exactly(f.unscaled - o.unscaled), f.scale) <==> o.unscaled != MIN
  {
    Wrapped(0 - o.unscaled);
    if o.unscaled == MIN {
      assert Wrap(-MIN) == MIN;
      AddIsExact(f.unscaled, MIN);
    } else {
      AddIsExact(f.unscaled, 0 - o.unscaled);
    }
  }

  lemma NegIsExact(f: Fixed64)
    ensures Neg(f) == Scaled(Exactly(0 - f.unscaled), f.scale)
  {
    Wrapped(0 - f.unscaled);
  }

  lemma MulIntIsExact(f: Fixed64, m: Int64)
    ensures MulInt(f, m) == Scaled(Exactly(f.unscaled * m), f.scale)
  {
    MulIsExact(f.unscaled, m);
  }

  // ---------------------------------------------------------------------------------------------------------
  // Conversions to and from decimals of unbounded size.

  /** coef * 10^exp */
  datatype Decimal = Decimal(coef: int, exp: int)

  function Pow10(n: nat): (p: int)
    ensures p >= 1
  {
    if n == 0 then 1 else 10 * Pow10(n - 1)
  }

  function Value(d: Decimal): real {
    if d.exp >= 0 then (d.coef * Pow10(d.exp)) as real else d.coef as real / Pow10(-d.exp) as real
  }

  /** Digits behind the new exponent are cut off. */
  function Rescale(d: Decimal, exp: int): Decimal {
    if d.coef == 0 then Decimal(0, exp)
    else if exp > d.exp then Decimal(Truncated(d.coef, Pow10(exp - d.exp)), exp)
    else Decimal(d.coef * Pow10(d.exp - exp), exp)
  }

  predicate Equal(d: Decimal, e: Decimal) {
    if d.exp < e.exp then d.coef == Rescale(e, d.exp).coef else Rescale(d, e.exp).coef == e.coef
  }

  function Truncate(d: Decimal, precision: nat): Decimal {
    if 0 - precision > d.exp then Rescale(d, 0 - precision) else d
  }

  function Product(d: Decimal, e: Decimal): Decimal {
    Decimal(d.coef * e.coef, d.exp + e.exp)
  }

  predicate IsInteger(d: Decimal) {
    d.exp >= 0 || d.coef % Pow10(-d.exp) == 0
  }

  function ToDecimal(f: Fixed64): Decimal {
    Decimal(f.unscaled, 0 - f.scale)
  }

  /** `low` is what the integer library answers for a number that may not fit: it is only defined for those that do. */
  function FromDecimal(d: Decimal, scale: int, low: int -> Int64): Result<Fixed64, Error> {
    if scale < 0 || scale > 18 then Err(BadScale)
    else
      var trunc := Truncate(d, scale);
      if !Equal(trunc, d) then Err(Lossy)
      else
        var unscaled := Product(trunc, Decimal(1, scale));
        if !IsInteger(unscaled) then Err(NotInteger)
        else
          var x := low(Rescale(unscaled, 0).coef);
          if !Equal(Decimal(x, 0), unscaled) then Err(Overflow) else Ok(Fixed64(x, scale))
  }

  ghost predicate Faithful(low: int -> Int64) {
    forall x :: Fits(x) ==> low(x) == x
  }

  lemma {:induction false} Pow10Sum(a: nat, b: nat)
    ensures Pow10(a + b) == Pow10(a) * Pow10(b)
  {
    if a > 0 {
      Pow10Sum(a - 1, b);
    }
  }

  /** The integer u is d * 10^scale. */
  predicate IsScaled(d: Decimal, scale: nat, u: int) {
    Value(d) * Pow10(scale) as real == u as real
  }

  /** The same without fractions. */
  predicate IsUnscaled(d: Decimal, scale: nat, u: int) {
    var k := d.exp + scale;
    if k >= 0 then u == d.coef * Pow10(k) else d.coef == u * Pow10(-k)
  }

  lemma ScaledIsUnscaled(d: Decimal, scale: nat, u: int)
    ensures IsScaled(d, scale, u) <==> IsUnscaled(d, scale, u)
  {
    hide Pow10;
    var k := d.exp + scale;
    if d.exp >= 0 {
      Pow10Sum(d.exp, scale);
      WholeScaled(d.coef, Pow10(d.exp), Pow10(scale), u);
    } else if k >= 0 {
      Pow10Sum(-d.exp, k);
      ScaledUp(d.coef, Pow10(-d.exp), Pow10(k), u);
    } else {
      Pow10Sum(scale, -k);
      ScaledDown(d.coef, Pow10(scale), Pow10(-k), u);
    }
  }

  lemma WholeScaled(coef: int, a: int, p: int, u: int)
    ensures (coef * a) as real * p as real == u as real <==> u == coef * (a * p)
  {
    assert (coef * a) as real * p as real == (coef * a * p) as real;
    assert coef * (a * p) == coef * a * p;
  }

  lemma ScaledUp(coef: int, q: int, r: int, u: int)
    requires q >= 1
    ensures coef as real / q as real * (q * r) as real == u as real <==> u == coef * r
  {
    var v := coef as real / q as real;
    assert v * q as real == coef as real;
    assert (q * r) as real == q as real * r as real;
    assert v * (q as real * r as real) == (v * q as real) * r as real;
    assert (coef * r) as real == coef as real * r as real;
  }

  lemma ScaledDown(coef: int, p: int, r: int, u: int)
    requires p >= 1 && r >= 1
    ensures coef as real / (p * r) as real * p as real == u as real <==> coef == u * r
  {
    var q := (p * r) as real;
    assert q == p as real * r as real >= 1.0;
    var w := coef as real / q * p as real;
    assert w * r as real == coef as real / q * q == coef as real;
    assert (u * r) as real == u as real * r as real;
    EqualFactors(w, u as real, r as real);
  }

  lemma EqualFactors(x: real, y: real, r: real)
    requires r >= 1.0
    ensures x == y <==> x * r == y * r
  {
    assert x * r - y * r == (x - y) * r;
    if x > y {
      assert (x - y) * r > 0.0;
    } else if x < y {
      assert (y - x) * r > 0.0;
    }
  }

  lemma TruncateKeepsIff(d: Decimal, scale: nat)
    requires d.exp + scale < 0
    ensures var t := Truncate(d, scale);
            t.exp == 0 - scale && (Equal(t, d) <==> d.coef == t.coef * Pow10(-d.exp - scale))
    ensures forall u :: IsUnscaled(d, scale, u) ==> Truncate(d, scale).coef == u
  {
    var p := Pow10(-d.exp - scale);
    forall u | IsUnscaled(d, scale, u) ensures Truncate(d, scale).coef == u {
      TruncatedExact(u, p);
      assert d.coef == 0 ==> u == 0;
    }
  }

  /** A successful conversion loses nothing, and it fails exactly when a fraction would be left or 64 bits are not
      enough. */
  lemma FromDecimalIsExact(d: Decimal, scale: Scale, low: int -> Int64)
    requires Faithful(low)
    ensures match FromDecimal(d, scale, low)
            case Ok(f) => f.scale == scale && IsScaled(d, scale, f.unscaled)
            case Err(e) =>
              if e == Overflow then exists u :: IsScaled(d, scale, u) && !Fits(u)
              else e == Lossy && forall u :: !IsScaled(d, scale, u)
  {
    hide FromDecimal, IsScaled, IsUnscaled;
    var u := UnscaledOf(d, scale, low);
    forall v {
      ScaledIsUnscaled(d, scale, v);
    }
  }

  /** The integer that the conversion looks at, and how it decides. */
  lemma UnscaledOf(d: Decimal, scale: Scale, low: int -> Int64) returns (u: int)
    requires Faithful(low)
    ensures forall v :: IsUnscaled(d, scale, v) ==> v == u
    ensures FromDecimal(d, scale, low) ==
            if !IsUnscaled(d, scale, u) then Err(Lossy) else if Fits(u) then Ok(Fixed64(u, scale)) else Err(Overflow)
  {
    var k := d.exp + scale;
    var t := Truncate(d, scale);
    if k < 0 {
      TruncateKeepsIff(d, scale);
      u := t.coef;
    } else {
      u := d.coef * Pow10(k);
      assert Equal(d, d);
    }
    assert Rescale(Product(t, Decimal(1, scale)), 0).coef == u;
  }

  lemma DecimalRoundTrip(f: Fixed64, low: int -> Int64)
    requires Faithful(low)
    ensures FromDecimal(ToDecimal(f), f.scale, low) == Ok(f)
  {
    var u := UnscaledOf(ToDecimal(f), f.scale, low);
    assert Pow10(0) == 1;
    assert IsUnscaled(ToDecimal(f), f.scale, f.unscaled);
  }

  // ---------------------------------------------------------------------------------------------------------
  // The printed form.

  function Digit(n: nat): char
    requires n < 10
  {
    '0' + n as char
  }

  function Digits(n: nat): (s: string)
    ensures |s| >= 1
  {
    (if n < 10 then "" else Digits(n / 10)) + [Digit(n % 10)]
  }

  function Zeros(n: nat): (s: string)
    ensures |s| == n
  {
    if n == 0 then "" else "0" + Zeros(n - 1)
  }

  /** At least `width` characters, with zeros in front. */
  function Padded(s: string, width: nat): string {
    (if |s| < width then Zeros(width - |s|) else "") + s
  }

  function Unsigned(n: nat, scale: nat): string {
    if scale == 0 then Digits(n)
    else
      var all := Padded(Digits(n), scale + 1);
      all[..|all| - scale] + "." + all[|all| - scale..]
  }

  function Literal(f: Fixed64): string {
    if f.unscaled < 0 then "-" + Unsigned(Size(f.unscaled), f.scale) else Unsigned(f.unscaled, f.scale)
  }

  /** Stays within 64 bits: the least number is negated in two steps. */
  method String(f: Fixed64) returns (out: string)
    ensures out == Literal(f)
  {
    hide Digits, Padded, Wrap;
    var neg := f.unscaled < 0;
    Wrapped(0 - f.unscaled - 1);
    var u: nat := if neg then Wrap(0 - f.unscaled - 1) + 1 else f.unscaled;
    if f.scale == 0 {
      return if neg then "-" + Digits(u) else Digits(u);
    }
    var str := Digits(u);
    while |str| <= f.scale
      invariant Padded(str, f.scale + 1) == Padded(Digits(u), f.scale + 1)
      decreases f.scale + 1 - |str|
    {
      OneMoreZero(str, f.scale + 1);
      str := "0" + str;
    }
    NoMoreZeros(str, f.scale + 1);
    var pos := |str| - f.scale;
    out := str[..pos] + "." + str[pos..];
    if neg {
      out := "-" + out;
    }
  }

  lemma NoMoreZeros(s: string, width: nat)
    requires |s| >= width
    ensures Padded(s, width) == s
  {
  }

  lemma OneMoreZero(s: string, width: nat)
    requires |s| < width
    ensures Padded("0" + s, width) == Padded(s, width)
  {
    ZerosInFront(width - |s|, s);
    assert Zeros(0) + ("0" + s) == "" + ("0" + s);
  }

  lemma {:induction false} ZerosInFront(n: nat, s: string)
    requires n > 0
    ensures Zeros(n) + s == Zeros(n - 1) + ("0" + s)
  {
    if n == 1 {
      assert Zeros(1) == "0" + Zeros(0);
    } else {
      ZerosInFront(n - 1, s);
      assert Zeros(n) + s == "0" + (Zeros(n - 1) + s);
      assert Zeros(n - 1) + ("0" + s) == "0" + (Zeros(n - 2) + ("0" + s));
    }
  }

  // Reading a plain decimal literal.

  predicate IsDigit(c: char) {
    '0' <= c <= '9'
  }

  predicate AllDigits(s: string) {
    forall i :: 0 <= i < |s| ==> IsDigit(s[i])
  }

  function Number(s: string): nat
    requires AllDigits(s)
  {
    if s == "" then 0 else 10 * Number(s[..|s| - 1]) + (s[|s| - 1] - '0') as nat
  }

  function FirstDot(s: string): (k: nat)
    ensures k <= |s|
  {
    if s == "" || s[0] == '.' then 0 else 1 + FirstDot(s[1..])
  }

  function ReadUnsigned(s: string): Option<Decimal> {
    var k := FirstDot(s);
    var fraction := if k < |s| then s[k + 1..] else "";
    var digits := s[..k] + fraction;
    if k == 0 || !AllDigits(digits) then None else Some(Decimal(Number(digits), 0 - |fraction|))
  }

  function ReadLiteral(s: string): Option<Decimal> {
    if s != "" && s[0] == '-' then
      match ReadUnsigned(s[1..])
      case Some(d) => Some(d.(coef := -d.coef))
      case None => None
    else ReadUnsigned(s)
  }

  lemma {:induction false} DigitsRead(n: nat)
    ensures AllDigits(Digits(n)) && Number(Digits(n)) == n
  {
    if n >= 10 {
      DigitsRead(n / 10);
    }
    var front := if n < 10 then "" else Digits(n / 10);
    assert Digits(n)[..|Digits(n)| - 1] == front;
  }

  lemma {:induction false} LeadingZero(s: string)
    requires AllDigits(s)
    ensures AllDigits("0" + s) && Number("0" + s) == Number(s)
  {
    var t := "0" + s;
    if s == "" {
      assert t[..0] == "";
    } else {
      LeadingZero(s[..|s| - 1]);
      assert t[..|t| - 1] == "0" + s[..|s| - 1];
    }
  }

  lemma {:induction false} LeadingZeros(n: nat, s: string)
    requires AllDigits(s)
    ensures AllDigits(Zeros(n) + s) && Number(Zeros(n) + s) == Number(s)
  {
    if n == 0 {
      assert Zeros(0) + s == s;
    } else {
      LeadingZeros(n - 1, s);
      LeadingZero(Zeros(n - 1) + s);
      assert Zeros(n) + s == "0" + (Zeros(n - 1) + s);
    }
  }

  lemma {:induction false} DotIsFound(whole: string, rest: string)
    requires AllDigits(whole)
    ensures FirstDot(whole + rest) == |whole| + FirstDot(rest)
  {
    if whole == "" {
      assert whole + rest == rest;
    } else {
      DotIsFound(whole[1..], rest);
      assert (whole + rest)[1..] == whole[1..] + rest;
    }
  }

  lemma JoinedReadsBack(whole: string, fraction: string)
    requires whole != "" && AllDigits(whole + fraction)
    ensures ReadUnsigned(whole + "." + fraction) == Some(Decimal(Number(whole + fraction), 0 - |fraction|))
  {
    hide AllDigits, Number, IsDigit;
    var s := whole + "." + fraction;
    DigitsInFront(whole, fraction);
    assert s == whole + ("." + fraction);
    DotIsFound(whole, "." + fraction);
    assert s[..|whole|] == whole;
    assert s[|whole| + 1..] == fraction;
  }

  lemma DigitsInFront(whole: string, fraction: string)
    requires AllDigits(whole + fraction)
    ensures AllDigits(whole) && (whole != "" ==> whole[0] != '-')
  {
    assert forall i :: 0 <= i < |whole| ==> (whole + fraction)[i] == whole[i];
  }

  lemma UnsignedReadsBack(n: nat, scale: nat)
    ensures ReadUnsigned(Unsigned(n, scale)) == Some(Decimal(n, 0 - scale))
    ensures var s := Unsigned(n, scale); s != "" && s[0] != '-'
  {
    hide Digits, AllDigits, Number, IsDigit, ReadUnsigned, Padded;
    DigitsRead(n);
    var digits := Digits(n);
    if scale == 0 {
      WholeReadsBack(digits);
    } else {
      PaddedReads(digits, scale + 1);
      var all := Padded(digits, scale + 1);
      var k := |all| - scale;
      assert all == all[..k] + all[k..];
      JoinedReadsBack(all[..k], all[k..]);
      DigitsInFront(all[..k], all[k..]);
      assert Unsigned(n, scale)[0] == all[..k][0];
    }
  }

  lemma WholeReadsBack(s: string)
    requires AllDigits(s) && s != ""
    ensures ReadUnsigned(s) == Some(Decimal(Number(s), 0)) && s[0] != '-'
  {
    hide Number, AllDigits, IsDigit;
    assert s + "" == s;
    assert s[..|s|] == s;
    DigitsInFront(s, "");
    DotIsFound(s, "");
  }

  lemma PaddedReads(s: string, width: nat)
    requires AllDigits(s)
    ensures var all := Padded(s, width);
            |all| >= width && AllDigits(all) && Number(all) == Number(s)
  {
    assert "" + s == s;
    LeadingZeros(if |s| < width then width - |s| else 0, s);
  }

  /** The printed form of every value, the least one included, reads back as that value with exactly `scale`
      digits behind the point. */
  lemma LiteralRoundTrip(f: Fixed64)
    ensures ReadLiteral(Literal(f)) == Some(ToDecimal(f))
  {
    hide Unsigned, ReadUnsigned;
    var n := Size(f.unscaled);
    UnsignedReadsBack(n, f.scale);
    assert ("-" + Unsigned(n, f.scale))[1..] == Unsigned(n, f.scale);
  }

  /** Numbers of different scales are not added or subtracted, and scales outside 0 to 18 are refused. */
  lemma ScalesAreChecked(f: Fixed64, o: Fixed64, d: Decimal, scale: int, low: int -> Int64)
    ensures AddWith(f, o) == Err(ScaleMismatch) <==> f.scale != o.scale
    ensures SubWith(f, o) == Err(ScaleMismatch) <==> f.scale != o.scale
    ensures FromDecimal(d, scale, low) == Err(BadScale) <==> !(0 <= scale <= 18)
  {
    hide Truncate, Equal, Product, Rescale, IsInteger;
  }
}
