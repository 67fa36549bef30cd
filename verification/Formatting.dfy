/** The number printers of src/chain/mod.rs, and the parser that undoes them. */
module Formatting {
  import opened Ints

  /** Fixed-point scale of token amounts; the six printed fraction digits show its value. */
  const TOKEN_SCALE: u64 := 1_000_000
  const FRACTION_DIGITS: nat := 6

  function DigitChar(d: nat): (c: char)
    requires d < 10
  {
    "0123456789"[d]
  }

  function DigitValue(c: char): nat {
    if '0' <= c <= '9' then c as int - '0' as int else 0
  }

  ghost predicate AllDigits(s: string) {
    forall i :: 0 <= i < |s| ==> '0' <= s[i] <= '9'
  }

  /** Decimal digits of `n` without leading zeros. */
  function Decimal(n: nat): (s: string)
    ensures |s| > 0 && AllDigits(s)
  {
    if n < 10 then [DigitChar(n)] else Decimal(n / 10) + [DigitChar(n % 10)]
  }

  function ParseDecimal(s: string): nat {
    if s == "" then 0 else 10 * ParseDecimal(s[..|s| - 1]) + DigitValue(s[|s| - 1])
  }

  lemma {:induction false} DecimalParses(n: nat)
    ensures ParseDecimal(Decimal(n)) == n
  {
    if n >= 10 {
      DecimalParses(n / 10);
      assert Decimal(n)[..|Decimal(n)| - 1] == Decimal(n / 10);
    }
  }

  lemma {:induction false} DecimalInjective(m: nat, n: nat)
    requires Decimal(m) == Decimal(n)
    ensures m == n
  {
    DecimalParses(m);
    DecimalParses(n);
  }

  function Pow10(k: nat): nat {
    if k == 0 then 1 else 10 * Pow10(k - 1)
  }

  lemma {:induction false} DecimalLength(n: nat, k: nat)
    requires k > 0 && n < Pow10(k)
    ensures |Decimal(n)| <= k
  {
    if n >= 10 {
      DecimalLength(n / 10, k - 1);
    }
  }

  function Zeros(k: nat): (s: string)
    ensures |s| == k && AllDigits(s)
  {
    seq(k, _ => '0')
  }

  lemma {:induction false} LeadingZeros(k: nat, s: string)
    ensures ParseDecimal(Zeros(k) + s) == ParseDecimal(s)
  {
    var t := Zeros(k) + s;
    if s != "" {
      LeadingZeros(k, s[..|s| - 1]);
      assert t[..|t| - 1] == Zeros(k) + s[..|s| - 1];
    } else if k > 0 {
      LeadingZeros(k - 1, "");
      assert Zeros(k - 1) + "" == Zeros(k - 1);
      assert t[..|t| - 1] == Zeros(k - 1);
    }
  }

  /** `{n:06}`. */
  function SixDigits(n: nat): (s: string)
    requires n < TOKEN_SCALE
    ensures |s| == FRACTION_DIGITS && AllDigits(s)
    ensures ParseDecimal(s) == n
  {
    assert TOKEN_SCALE == Pow10(FRACTION_DIGITS);
    DecimalLength(n, FRACTION_DIGITS);
    LeadingZeros(FRACTION_DIGITS - |Decimal(n)|, Decimal(n));
    DecimalParses(n);
    Zeros(FRACTION_DIGITS - |Decimal(n)|) + Decimal(n)
  }

  /** `trim_end_matches('0')`; padding the result with zeros restores the input. */
  function TrimZeros(s: string): (t: string)
    ensures t <= s && t + Zeros(|s| - |t|) == s
  {
    if s == "" || s[|s| - 1] != '0' then s
    else
      var t := TrimZeros(s[..|s| - 1]);
      assert s == s[..|s| - 1] + "0";
      assert Zeros(|s| - |t|) == Zeros(|s| - 1 - |t|) + "0";
      t
  }

  function FormatTokenAmount(raw: u64): string {
    var whole, frac := raw / TOKEN_SCALE, raw % TOKEN_SCALE;
    if frac == 0 then Decimal(whole) else Decimal(whole) + ("." + SixDigits(frac))
  }

  function FormatTrimmed(raw: u64): string {
    var whole, frac := raw / TOKEN_SCALE, raw % TOKEN_SCALE;
    if frac == 0 then Decimal(whole) else Decimal(whole) + ("." + TrimZeros(SixDigits(frac)))
  }

  function SatMul100(raw: u64): u64 {
    if raw * 100 <= U64_MAX then raw * 100 else U64_MAX
  }

  function FormatPricePieces(raw: u64): string {
    FormatTrimmed(SatMul100(raw))
  }

  function FormatOracleHuman(raw: u64): string {
    FormatTrimmed(raw)
  }

  /** Reads a printed amount back: digits, then optionally a point and up to six fraction digits. */
  function ParseFixed(s: string): nat {
    var point := PointAt(s, 0);
    var whole := ParseDecimal(s[..point]);
    if point == |s| then whole * TOKEN_SCALE
    else
      var frac := s[point + 1..];
      whole * TOKEN_SCALE +
      ParseDecimal(frac + Zeros(if |frac| <= FRACTION_DIGITS then FRACTION_DIGITS - |frac| else 0))
  }

  function PointAt(s: string, i: nat): (r: nat)
    requires i <= |s|
    ensures i <= r <= |s| && (r < |s| ==> s[r] == '.') && forall j :: i <= j < r ==> s[j] != '.'
    decreases |s| - i
  {
    if i == |s| || s[i] == '.' then i else PointAt(s, i + 1)
  }

  lemma {:induction false} PointAfterDigits(w: string, rest: string)
    requires AllDigits(w) && (rest == "" || rest[0] == '.')
    ensures PointAt(w + rest, 0) == |w|
  {
    var s := w + rest;
    forall i | 0 <= i < |w|
      ensures s[i] != '.'
    {
      assert s[i] == w[i];
    }
    assert rest != "" ==> s[|w|] == '.';
  }

  lemma {:induction false} ParseWhole(whole: nat)
    ensures ParseFixed(Decimal(whole)) == whole * TOKEN_SCALE
  {
    var w := Decimal(whole);
    assert w + "" == w;
    PointAfterDigits(w, "");
    assert w[..|w|] == w;
    DecimalParses(whole);
  }

  lemma {:induction false} ParseParts(whole: nat, digits: string, frac: nat)
    requires |digits| <= FRACTION_DIGITS
    requires ParseDecimal(digits + Zeros(FRACTION_DIGITS - |digits|)) == frac
    ensures ParseFixed(Decimal(whole) + ("." + digits)) == whole * TOKEN_SCALE + frac
  {
    var w := Decimal(whole);
    var s := w + ("." + digits);
    PointAfterDigits(w, "." + digits);
    assert s[..|w|] == w;
    assert s[|w| + 1..] == digits;
    DecimalParses(whole);
  }

  lemma TrimmedParses(raw: u64)
    ensures ParseFixed(FormatTrimmed(raw)) == raw
  {
    var six := SixDigits(raw % TOKEN_SCALE);
    ParseWhole(raw / TOKEN_SCALE);
    ParseParts(raw / TOKEN_SCALE, TrimZeros(six), raw % TOKEN_SCALE);
  }

  /** What is printed for a token amount or an oracle price can be read back. */
  lemma FormattedParses(raw: u64)
    ensures ParseFixed(FormatTokenAmount(raw)) == raw
    ensures ParseFixed(FormatOracleHuman(raw)) == raw
    ensures ParseFixed(FormatPricePieces(raw)) == Clamped(raw * 100)
  {
    var six := SixDigits(raw % TOKEN_SCALE);
    assert six + Zeros(0) == six;
    ParseWhole(raw / TOKEN_SCALE);
    ParseParts(raw / TOKEN_SCALE, six, raw % TOKEN_SCALE);
    TrimmedParses(raw);
    TrimmedParses(SatMul100(raw));
  }

  lemma TokenAmountInjective(a: u64, b: u64)
    ensures FormatTokenAmount(a) == FormatTokenAmount(b) <==> a == b
  {
    FormattedParses(a);
    FormattedParses(b);
  }

  /** Largest price whose product by 100 does not saturate. */
  const PRINTABLE_PRICE: u64 := U64_MAX / 100

  lemma SatMul100Alike(a: u64, b: u64)
    ensures SatMul100(a) == SatMul100(b) <==> (a == b || (a > PRINTABLE_PRICE && b > PRINTABLE_PRICE))
  {
  }

  lemma TrimmedInjective(a: u64, b: u64)
    ensures FormatTrimmed(a) == FormatTrimmed(b) <==> a == b
  {
    TrimmedParses(a);
    TrimmedParses(b);
  }

  /** Two prices print alike exactly when they are equal or both are past the saturation point. */
  lemma PricePrintsAlike(a: u64, b: u64)
    ensures FormatPricePieces(a) == FormatPricePieces(b)
            <==> (a == b || (a > PRINTABLE_PRICE && b > PRINTABLE_PRICE))
  {
    TrimmedInjective(SatMul100(a), SatMul100(b));
    SatMul100Alike(a, b);
  }

  /** A level that is present never prints like a removed one. */
  lemma PositiveNotZero(raw: u64)
    ensures FormatTokenAmount(raw) == "0" <==> raw == 0
  {
    assert FormatTokenAmount(0) == "0";
    TokenAmountInjective(raw, 0);
  }

  /** Digits without a leading zero, but for zero itself. */
  ghost predicate IsNumeral(s: string) {
    s != "" && AllDigits(s) && (|s| > 1 ==> s[0] != '0')
  }

  lemma {:induction false} DecimalIsNumeral(n: nat)
    ensures IsNumeral(Decimal(n)) && (Decimal(n)[0] == '0' <==> n == 0)
  {
    if n >= 10 {
      DecimalIsNumeral(n / 10);
      assert Decimal(n)[0] == Decimal(n / 10)[0];
    }
  }

  lemma {:induction false} TrimZerosTells(s: string)
    ensures TrimZeros(s) != "" ==> TrimZeros(s)[|TrimZeros(s)| - 1] != '0'
    ensures TrimZeros(s) == "" ==> ParseDecimal(s) == 0
  {
    if s != "" && s[|s| - 1] == '0' {
      TrimZerosTells(s[..|s| - 1]);
    }
  }

  /**
   Amounts print as a whole number, or with all six digits after the point; prices drop the zeros at the end, and
   the point with the last digit.
   */
  lemma PrintedShape(raw: u64) returns (whole: string, amount: string, price: string)
    ensures IsNumeral(whole) && AllDigits(amount) && AllDigits(price)
    ensures FormatTokenAmount(raw) == whole + (if amount == "" then "" else "." + amount)
    ensures FormatOracleHuman(raw) == whole + (if price == "" then "" else "." + price)
    ensures amount == "" || |amount| == 6
    ensures price != "" ==> price[|price| - 1] != '0' && price <= amount
    ensures amount != "" <==> price != ""
  {
    whole, amount, price := Decimal(raw / TOKEN_SCALE), "", "";
    DecimalIsNumeral(raw / TOKEN_SCALE);
    assert whole + "" == whole;
    if raw % TOKEN_SCALE != 0 {
      amount := SixDigits(raw % TOKEN_SCALE);
      price := TrimZeros(amount);
      TrimZerosTells(amount);
    }
  }
}
