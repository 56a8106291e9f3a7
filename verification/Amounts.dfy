/**
 Amount texts of a credit adjustment: the grammar of the request, the zero test,
 and the exact decimal value that PostgreSQL stores in numeric(20,4).
 */
module Amounts {
  predicate IsDigit(c: char) {
    '0' <= c <= '9'
  }

  predicate Digits(s: string) {
    forall i :: 0 <= i < |s| ==> IsDigit(s[i])
  }

  predicate Zeros(s: string) {
    forall i :: 0 <= i < |s| ==> s[i] == '0'
  }

  predicate Negative(s: string) {
    s != "" && s[0] == '-'
  }

  function Unsigned(s: string): string {
    if Negative(s) then s[1..] else s
  }

  // Where the decimal point is, or the end of the text.
  function Point(s: string): (p: nat)
    ensures p <= |s|
  {
    if s == "" || s[0] == '.' then 0 else 1 + Point(s[1..])
  }

  function Whole(s: string): string {
    Unsigned(s)[..Point(Unsigned(s))]
  }

  predicate HasFraction(s: string) {
    Point(Unsigned(s)) < |Unsigned(s)|
  }

  function Fraction(s: string): string {
    if HasFraction(s) then Unsigned(s)[Point(Unsigned(s)) + 1..] else ""
  }

  // /^-?\d{1,15}(\.\d{1,4})?$/
  predicate Grammar(s: string) {
    && Digits(Whole(s)) && 1 <= |Whole(s)| <= 15
    && (HasFraction(s) ==> Digits(Fraction(s)) && 1 <= |Fraction(s)| <= 4)
  }

  // /^-?0+(\.0+)?$/
  predicate ZeroTest(s: string) {
    && Zeros(Whole(s)) && 1 <= |Whole(s)|
    && (HasFraction(s) ==> Zeros(Fraction(s)) && 1 <= |Fraction(s)|)
  }

  function DigitValue(c: char): (d: nat)
    requires IsDigit(c)
    ensures d <= 9
  {
    c as int - '0' as int
  }

  // The number a digit string writes.
  function Number(s: string): nat
    requires Digits(s)
  {
    if s == "" then 0 else 10 * Number(s[..|s| - 1]) + DigitValue(s[|s| - 1])
  }

  function Pow10(n: nat): (p: nat)
    ensures p >= 1
  {
    if n == 0 then 1 else 10 * Pow10(n - 1)
  }

  // The decimal value of the text, exactly.
  function Exact(s: string): real
    requires Grammar(s)
  {
    var magnitude := Number(Whole(s)) as real + Number(Fraction(s)) as real / Pow10(|Fraction(s)|) as real;
    if Negative(s) then -magnitude else magnitude
  }

  // What the column stores, in ten-thousandths.
  function Stored(s: string): int
    requires Grammar(s)
  {
    var magnitude := Number(Whole(s)) * 10000 + Number(Fraction(s)) * Pow10(4 - |Fraction(s)|);
    if Negative(s) then -magnitude else magnitude
  }

  const AMOUNT_BOUND := 10_000_000_000_000_000_000 // 10^19

  lemma {:induction false} NumberBelow(s: string)
    requires Digits(s)
    ensures Number(s) < Pow10(|s|)
  {
    if s != "" {
      NumberBelow(s[..|s| - 1]);
    }
  }

  lemma {:induction false} NumberZero(s: string)
    requires Digits(s)
    ensures Number(s) == 0 <==> Zeros(s)
  {
    if s != "" {
      var init, last := s[..|s| - 1], s[|s| - 1];
      NumberZero(init);
      assert s == init + [last];
      assert Zeros(s) <==> Zeros(init) && last == '0';
    }
  }

  lemma {:induction false} PowAdd(a: nat, b: nat)
    ensures Pow10(a + b) == Pow10(a) * Pow10(b)
  {
    if a != 0 {
      PowAdd(a - 1, b);
      assert Pow10(a + b) == 10 * Pow10(a - 1 + b);
    }
  }

  lemma {:induction false} PowMonotone(a: nat, b: nat)
    requires a <= b
    ensures Pow10(a) <= Pow10(b)
  {
    if a < b { PowMonotone(a, b - 1); }
  }

  lemma Pow10Values()
    ensures Pow10(4) == 10000 && Pow10(15) == 1_000_000_000_000_000
  {
    assert Pow10(4) == 10000;
    PowAdd(4, 4); PowAdd(8, 4); PowAdd(12, 3);
    assert Pow10(3) == 1000;
  }

  lemma FractionBelow(s: string)
    requires Grammar(s)
    ensures Number(Fraction(s)) * Pow10(4 - |Fraction(s)|) < 10000
  {
    var f := Fraction(s);
    NumberBelow(f);
    PowAdd(|f|, 4 - |f|);
    Pow10Values();
    var p := Pow10(4 - |f|);
    assert Number(f) * p <= (Pow10(|f|) - 1) * p;
  }

  // Every accepted amount fits the column: less than 10^19 ten-thousandths.
  lemma StoredInRange(s: string)
    requires Grammar(s)
    ensures -AMOUNT_BOUND < Stored(s) < AMOUNT_BOUND
  {
    NumberBelow(Whole(s));
    PowMonotone(|Whole(s)|, 15);
    Pow10Values();
    FractionBelow(s);
  }

  lemma ProductAsReal(a: nat, b: nat)
    ensures (a * b) as real == a as real * b as real
  {
  }

  // Ten thousand times whole + n / d, where d divides ten thousand.
  lemma TenThousandfold(whole: nat, n: nat, d: nat, q: nat)
    requires d > 0 && d * q == 10000
    ensures (whole * 10000 + n * q) as real == (whole as real + n as real / d as real) * 10000.0
  {
    ProductAsReal(d, q);
    ProductAsReal(n, q);
    ScaleQuotient(n as real, d as real, q as real);
    var fraction := n as real / d as real;
    assert fraction * 10000.0 == (n * q) as real;
  }

  // Nothing is rounded away.
  lemma StoredIsExact(s: string)
    requires Grammar(s)
    ensures Stored(s) as real == Exact(s) * 10000.0
  {
    var f := Fraction(s);
    PowAdd(|f|, 4 - |f|);
    Pow10Values();
    TenThousandfold(Number(Whole(s)), Number(f), Pow10(|f|), Pow10(4 - |f|));
  }

  lemma ScaleQuotient(n: real, p: real, q: real)
    requires p > 0.0 && p * q == 10000.0
    ensures n / p * 10000.0 == n * q
  {
    var x := n / p;
    assert x * p == n;
    assert x * (p * q) == (x * p) * q;
  }

  // The zero test rejects an accepted text exactly when its exact value is zero.
  lemma ZeroTestIsExact(s: string)
    requires Grammar(s)
    ensures ZeroTest(s) <==> Exact(s) == 0.0
    ensures ZeroTest(s) <==> Stored(s) == 0
  {
    NumberZero(Whole(s));
    NumberZero(Fraction(s));
    StoredIsExact(s);
    var p := Pow10(4 - |Fraction(s)|);
    assert Number(Fraction(s)) * p == 0 <==> Number(Fraction(s)) == 0;
  }

  // Two spellings are the same stored amount exactly when they are the same number.
  lemma SpellingIrrelevant(s: string, t: string)
    requires Grammar(s) && Grammar(t)
    ensures Stored(s) == Stored(t) <==> Exact(s) == Exact(t)
  {
    StoredIsExact(s);
    StoredIsExact(t);
  }

  lemma {:induction false} PointOf(digits: string, rest: string)
    requires Digits(digits) && (rest == "" || rest[0] == '.')
    ensures Point(digits + rest) == |digits|
  {
    if digits == "" {
      assert digits + rest == rest;
    } else {
      assert (digits + rest)[1..] == digits[1..] + rest;
      PointOf(digits[1..], rest);
    }
  }

  lemma {:induction false} LeadingZero(s: string)
    requires Digits(s)
    ensures Number("0" + s) == Number(s)
  {
    var z := "0" + s;
    if s == "" {
      assert z[..0] == "" && Number("") == 0;
    } else {
      assert z[..|z| - 1] == "0" + s[..|s| - 1];
      LeadingZero(s[..|s| - 1]);
    }
  }

  // A leading zero of the whole part, or a trailing one of the fraction, changes
  // the text and not the amount.
  lemma PaddingKeepsTheAmount(w: string, f: string)
    requires Digits(w) && 1 <= |w| <= 14 && Digits(f) && 1 <= |f| <= 3
    ensures Grammar(w + "." + f) && Grammar("0" + w + "." + f) && Grammar(w + "." + f + "0")
    ensures Stored(w + "." + f) == Stored("0" + w + "." + f) == Stored(w + "." + f + "0")
  {
    hide Grammar, Stored, Number, Pow10;
    StoredOfParts(w, f);
    assert Digits("0" + w) && Digits(f + "0");
    StoredOfParts("0" + w, f);
    StoredOfParts(w, f + "0");
    assert w + "." + f + "0" == w + "." + (f + "0");
    LeadingZero(w);
    TrailingZero(f);
  }

  lemma TrailingZero(f: string)
    requires Digits(f) && 1 <= |f| <= 3
    ensures Digits(f + "0")
    ensures Number(f) * Pow10(4 - |f|) == Number(f + "0") * Pow10(4 - |f + "0"|)
  {
    assert (f + "0")[..|f|] == f;
    assert Number(f + "0") == 10 * Number(f);
    assert Pow10(4 - |f|) == 10 * Pow10(3 - |f|);
  }

  lemma StoredOfParts(w: string, f: string)
    requires Digits(w) && 1 <= |w| <= 15 && Digits(f) && 1 <= |f| <= 4
    ensures Grammar(w + "." + f) && Stored(w + "." + f) == Number(w) * 10000 + Number(f) * Pow10(4 - |f|)
    ensures Grammar("-" + (w + "." + f)) && Stored("-" + (w + "." + f)) == -Stored(w + "." + f)
  {
    hide Number, Pow10, Whole, Fraction;
    Parts(w, f);
    Minus(w + "." + f);
  }

  lemma Minus(s: string)
    requires Grammar(s) && !Negative(s)
    ensures Grammar("-" + s) && Stored("-" + s) == -Stored(s)
  {
    hide Number, Pow10, Point, Digits;
    assert Unsigned("-" + s) == s == Unsigned(s);
  }

  lemma Parts(w: string, f: string)
    requires Digits(w) && 1 <= |w| <= 15 && Digits(f) && 1 <= |f| <= 4
    ensures Grammar(w + "." + f) && Whole(w + "." + f) == w && Fraction(w + "." + f) == f && !Negative(w + "." + f)
  {
    var s := w + "." + f;
    assert s[0] == w[0];
    assert s == w + ("." + f);
    PointOf(w, "." + f);
  }

  // An optional minus, 1 to 15 digits, and optionally a point with 1 to 4 digits.
  ghost predicate Spelt(s: string, sign: string, w: string, f: string) {
    && (sign == "" || sign == "-") && s == sign + w + f
    && 1 <= |w| <= 15 && (forall i :: 0 <= i < |w| ==> '0' <= w[i] <= '9')
    && (f == "" || (2 <= |f| <= 5 && f[0] == '.' && forall i :: 1 <= i < |f| ==> '0' <= f[i] <= '9'))
  }

  lemma GrammarIsSpelt(s: string)
    ensures Grammar(s) <==> exists sign, w, f :: Spelt(s, sign, w, f)
  {
    hide Spelt, Grammar;
    if Grammar(s) {
      var sign, w, f := AcceptedIsSpelt(s);
    }
    if sign, w, f :| Spelt(s, sign, w, f) {
      SpeltIsAccepted(s, sign, w, f);
    }
  }

  lemma AcceptedIsSpelt(s: string) returns (sign: string, w: string, f: string)
    requires Grammar(s)
    ensures Spelt(s, sign, w, f)
  {
    var rest := Unsigned(s);
    sign := if Negative(s) then "-" else "";
    w, f := Whole(s), if HasFraction(s) then "." + Fraction(s) else "";
    SplitAtPoint(rest);
    assert s == sign + rest;
    assert rest == w + f;
    Assemble(s, sign, w, Fraction(s), HasFraction(s));
  }

  lemma SplitAtPoint(rest: string)
    ensures rest == rest[..Point(rest)] + if Point(rest) < |rest| then "." + rest[Point(rest) + 1..] else ""
  {
    PointIsPoint(rest);
  }

  lemma Assemble(s: string, sign: string, w: string, fraction: string, more: bool)
    requires sign == "" || sign == "-"
    requires Digits(w) && 1 <= |w| <= 15 && (more ==> Digits(fraction) && 1 <= |fraction| <= 4)
    requires s == sign + (w + if more then "." + fraction else "")
    ensures Spelt(s, sign, w, if more then "." + fraction else "")
  {
    var f := if more then "." + fraction else "";
    assert sign + (w + f) == sign + w + f;
  }

  lemma {:induction false} PointIsPoint(s: string)
    ensures Point(s) < |s| ==> s[Point(s)] == '.'
  {
    if s != "" && s[0] != '.' { PointIsPoint(s[1..]); }
  }

  lemma SpeltIsAccepted(s: string, sign: string, w: string, f: string)
    requires Spelt(s, sign, w, f)
    ensures Grammar(s)
  {
    assert s[0] == if sign == "" then w[0] else '-';
    assert Unsigned(s) == w + f;
    PointOf(w, f);
    hide Point;
    assert Whole(s) == w && Fraction(s) == if f == "" then "" else f[1..];
  }

  // ----- writing amounts -----

  function Decimal(n: nat): string {
    if n < 10 then ["0123456789"[n]] else Decimal(n / 10) + ["0123456789"[n % 10]]
  }

  // The last `places` digits of a number.
  function Padded(n: nat, places: nat): string {
    if places == 0 then "" else Padded(n / 10, places - 1) + ["0123456789"[n % 10]]
  }

  function Written(n: int): string {
    var size := if n < 0 then -n else n;
    (if n < 0 then "-" else "") + Decimal(size / 10_000) + "." + Padded(size % 10_000, 4)
  }

  lemma DigitValues(d: nat)
    requires d < 10
    ensures IsDigit("0123456789"[d]) && DigitValue("0123456789"[d]) == d
  {
  }

  lemma {:induction false} DecimalNumber(n: nat, places: nat)
    requires places >= 1 && n < Pow10(places)
    ensures 1 <= |Decimal(n)| <= places && Digits(Decimal(n)) && Number(Decimal(n)) == n
  {
    if n < 10 {
      DigitValues(n);
      assert Decimal(n)[..0] == "" && Number("") == 0;
    } else {
      DigitValues(n % 10);
      assert Pow10(1) == 10;
      DecimalNumber(n / 10, places - 1);
      assert Decimal(n)[..|Decimal(n)| - 1] == Decimal(n / 10);
    }
  }

  lemma {:induction false} PaddedNumber(n: nat, places: nat)
    requires n < Pow10(places)
    ensures |Padded(n, places)| == places && Digits(Padded(n, places)) && Number(Padded(n, places)) == n
  {
    if places == 0 {
    } else {
      DigitValues(n % 10);
      PaddedNumber(n / 10, places - 1);
      assert Padded(n, places)[..places - 1] == Padded(n / 10, places - 1);
    }
  }

  // Every amount the column can be changed by has a text that is accepted and stored as
  // that amount.
  lemma WrittenIsStored(n: int)
    requires -10_000_000_000_000_000_000 < n < 10_000_000_000_000_000_000
    ensures Grammar(Written(n)) && Stored(Written(n)) == n
  {
    hide Number, Pow10, Decimal, Padded, Grammar, Stored;
    var size := if n < 0 then -n else n;
    Pow10Values();
    Pow10Zero();
    DecimalNumber(size / 10_000, 15);
    PaddedNumber(size % 10_000, 4);
    var w, f := Decimal(size / 10_000), Padded(size % 10_000, 4);
    StoredOfParts(w, f);
    Signed(n < 0, w, f);
  }

  lemma Signed(negative: bool, w: string, f: string)
    ensures (if negative then "-" else "") + w + "." + f == if negative then "-" + (w + "." + f) else w + "." + f
  {
    assert "-" + w + "." + f == "-" + (w + "." + f);
    assert "" + w == w;
  }

  lemma Pow10Zero()
    ensures Pow10(0) == 1
  {
  }
}
