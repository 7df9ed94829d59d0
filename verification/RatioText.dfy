/** market/market_http_api_v1.py, lines 115-131: the exact decimal text of a ratio. */
module RatioText {
  import opened ByteCodec
  import opened Decimals

  /** Digits with the last one not zero. */
  predicate IsTrimmed(f: Text) {
    AllDigits(f) && (f != [] ==> f[|f| - 1] != '0')
  }

  function Joined(whole: nat, f: Text): Text {
    Decimal(whole) + if f == [] then [] else "." + f
  }

  /** The whole part and the fraction digits together are x cut off after the given places. */
  predicate IsCut(whole: nat, f: Text, x: real, places: nat)
    requires AllDigits(f)
  {
    |f| <= places && (whole * Pow10(|f|) + DecimalValue(f)) * Pow10(places - |f|) == (x * Pow10(places) as real).Floor
  }

  /** The text is x cut off after the given places, with no trailing zero. */
  ghost predicate Renders(t: Text, x: real, places: nat) {
    exists whole: nat, f: Text :: t == Joined(whole, f) && IsTrimmed(f) && IsCut(whole, f, x, places)
  }

  lemma {:induction false} DecimalValueBound(t: Text)
    requires AllDigits(t)
    ensures DecimalValue(t) < Pow10(|t|)
  {
    if t != [] {
      DecimalValueBound(t[..|t| - 1]);
    }
  }

  lemma {:induction false} PowSum(a: nat, b: nat)
    ensures Pow10(a + b) == Pow10(a) * Pow10(b)
  {
    if a > 0 {
      PowSum(a - 1, b);
    }
  }

  /** Digit strings of one length that denote one number are one string. */
  lemma {:induction false} SameDigits(a: Text, b: Text)
    requires AllDigits(a) && AllDigits(b) && |a| == |b| && DecimalValue(a) == DecimalValue(b)
    ensures a == b
  {
    if a != [] {
      var n := |a| - 1;
      SameDigits(a[..n], b[..n]);
      assert a == a[..n] + [a[n]] && b == b[..n] + [b[n]];
    }
  }

  function Noughts(n: nat): (z: Text)
    ensures |z| == n && AllDigits(z)
    ensures forall i :: 0 <= i < n ==> z[i] == '0'
  {
    seq(n, _ => '0')
  }

  lemma {:induction false} PaddedValue(f: Text, n: nat)
    requires AllDigits(f)
    ensures AllDigits(f + Noughts(n))
    ensures DecimalValue(f + Noughts(n)) == DecimalValue(f) * Pow10(n)
  {
    hide DecimalValue, Pow10;
    if n == 0 {
      assert f + Noughts(0) == f;
      PowSucc(0);
    } else {
      PaddedValue(f, n - 1);
      TenTimes(DecimalValue(f), n - 1);
      assert f + Noughts(n) == (f + Noughts(n - 1)) + ['0'];
      DecimalValueSnoc(f + Noughts(n - 1), '0');
    }
  }

  /** Trimmed fractions with one value are one fraction. */
  lemma TrimmedOnce(f: Text, g: Text, places: nat)
    requires IsTrimmed(f) && IsTrimmed(g) && |f| <= places && |g| <= places
    requires DecimalValue(f) * Pow10(places - |f|) == DecimalValue(g) * Pow10(places - |g|)
    ensures f == g
  {
    hide DecimalValue, Pow10;
    var a, b := f + Noughts(places - |f|), g + Noughts(places - |g|);
    PaddedValue(f, places - |f|);
    PaddedValue(g, places - |g|);
    SameDigits(a, b);
    assert f == a[..|f|] && g == a[..|g|];
  }

  /** Splitting a scaled number into its whole part and its fraction. */
  lemma CutParts(whole: nat, f: Text, x: real, places: nat)
    requires AllDigits(f) && IsCut(whole, f, x, places)
    ensures |f| <= places
    ensures whole * Pow10(places) + DecimalValue(f) * Pow10(places - |f|) == (x * Pow10(places) as real).Floor
    ensures DecimalValue(f) * Pow10(places - |f|) < Pow10(places)
  {
    hide DecimalValue, Pow10;
    PowSum(|f|, places - |f|);
    DecimalValueBound(f);
    Spread(whole, Pow10(|f|), DecimalValue(f), Pow10(places - |f|));
  }

  lemma Spread(whole: nat, p: nat, v: nat, q: nat)
    requires v < p && q > 0
    ensures (whole * p + v) * q == whole * (p * q) + v * q
    ensures v * q < p * q
  {
    Multiples(p - v, q);
    assert (p - v) * q == p * q - v * q;
    assert (whole * p + v) * q == whole * p * q + v * q;
  }

  lemma PowSucc(n: nat)
    ensures Pow10(0) == 1
    ensures Pow10(n + 1) == 10 * Pow10(n)
  {
  }

  lemma TenTimes(v: nat, n: nat)
    ensures 10 * v * Pow10(n) == v * Pow10(n + 1)
  {
    hide Pow10;
    PowSucc(n);
    var p := Pow10(n);
    assert 10 * v * p == v * (10 * p);
  }

  lemma Multiples(k: int, m: int)
    requires m > 0
    ensures k >= 1 ==> k * m >= m
    ensures k <= -1 ==> k * m <= -m
  {
    assert k * m == (k - 1) * m + m == (k + 1) * m - m;
  }

  lemma DivisionOnce(a: nat, r: nat, b: nat, s: nat, m: nat)
    requires r < m && s < m && a * m + r == b * m + s
    ensures a == b && r == s
  {
    assert (a - b) * m == s - r;
    Multiples(a - b, m);
  }

  /** A number has one rendering. */
  lemma RendersOnce(t: Text, u: Text, x: real, places: nat)
    requires Renders(t, x, places) && Renders(u, x, places)
    ensures t == u
  {
    hide DecimalValue, Pow10, Joined, IsCut;
    var v: nat, f: Text :| t == Joined(v, f) && IsTrimmed(f) && IsCut(v, f, x, places);
    var w: nat, g: Text :| u == Joined(w, g) && IsTrimmed(g) && IsCut(w, g, x, places);
    CutParts(v, f, x, places);
    CutParts(w, g, x, places);
    DivisionOnce(v, DecimalValue(f) * Pow10(places - |f|), w, DecimalValue(g) * Pow10(places - |g|), Pow10(places));
    TrimmedOnce(f, g, places);
  }

  /** A ratio scaled and floored is integer division. */
  lemma FloorOfRatio(num: nat, den: nat, scale: nat)
    requires den > 0
    ensures (num as real / den as real * scale as real).Floor == num * scale / den
  {
    var k, m := num * scale / den, num * scale;
    var x, d := num as real / den as real * scale as real, den as real;
    assert x * d == m as real by {
      assert num as real / d * d == num as real;
      assert num as real / d * scale as real * d == num as real / d * d * scale as real;
      assert num as real * scale as real == m as real;
    }
    assert k * den <= m < k * den + den;
    assert (k * den) as real == k as real * d;
    assert ((k + 1) * den) as real == (k as real + 1.0) * d;
    assert (k + 1) * den == k * den + den;
    ScaleOrder(x, k as real, d);
    ScaleOrder(x, k as real + 1.0, d);
    assert (k * den) as real <= m as real < ((k + 1) * den) as real;
    assert k as real <= x < k as real + 1.0;
    assert x.Floor == k;
  }

  lemma ScaleOrder(a: real, b: real, d: real)
    requires d > 0.0
    ensures a < b <==> a * d < b * d
  {
    assert b * d - a * d == (b - a) * d;
  }

  /** One step of the long division keeps the digits and the remainder exact. */
  lemma DivisionStep(first: nat, p: nat, v: nat, rem: nat, den: nat, digit: nat, next: nat)
    requires first * p == v * den + rem && rem < den && rem * 10 == digit * den + next && next < den
    ensures digit < 10
    ensures first * (10 * p) == (10 * v + digit) * den + next
  {
    Multiples(digit - 9, den);
    assert digit * den == (digit - 9) * den + 9 * den;
    assert first * (10 * p) == 10 * (first * p);
    assert (10 * v + digit) * den == 10 * (v * den) + digit * den;
  }

  lemma QuotientIs(a: nat, den: nat, q: nat, rem: nat)
    requires a == q * den + rem && rem < den
    ensures a / den == q
  {
    DivisionOnce(a / den, a % den, q, rem, den);
  }

  lemma ScaleRemainder(first: nat, p: nat, v: nat, den: nat, rem: nat, q: nat)
    requires first * p == v * den + rem && rem * q == rem
    ensures first * (p * q) == v * q * den + rem
  {
    assert first * (p * q) == first * p * q;
    assert v * den * q == v * q * den;
  }

  lemma ScaleNumber(whole: nat, den: nat, first: nat, r: nat, v: nat, rem: nat)
    requires first * r == v * den + rem
    ensures (whole * den + first) * r == (whole * r + v) * den + rem
  {
    assert (whole * den + first) * r == whole * den * r + first * r;
    assert (whole * r + v) * den == whole * r * den + v * den;
  }

  /** When the division stops, exact or out of places, its digits are the scaled ratio. */
  lemma DigitsAreRatio(num: nat, den: nat, whole: nat, first: nat, v: nat, rem: nat, i: nat, places: nat)
    requires den > 0 && num == whole * den + first && i <= places
    requires first * Pow10(i) == v * den + rem && rem < den && (rem == 0 || i == places)
    ensures num * Pow10(places) / den == whole * Pow10(places) + v * Pow10(places - i)
  {
    hide Pow10;
    PowSum(i, places - i);
    PowSucc(0);
    var p, q := Pow10(i), Pow10(places - i);
    assert rem * q == rem;
    ScaleRemainder(first, p, v, den, rem, q);
    ScaleNumber(whole, den, first, p * q, v * q, rem);
    QuotientIs(num * (p * q), den, whole * (p * q) + v * q, rem);
  }

  /** rstrip("0"). */
  method TrimZeros(digits: Text) returns (f: Text)
    requires AllDigits(digits)
    ensures IsTrimmed(f) && |f| <= |digits|
    ensures DecimalValue(f) * Pow10(|digits| - |f|) == DecimalValue(digits)
  {
    hide DecimalValue, Pow10;
    PowSucc(0);
    f := digits;
    while f != [] && f[|f| - 1] == '0'
      invariant AllDigits(f) && |f| <= |digits|
      invariant DecimalValue(f) * Pow10(|digits| - |f|) == DecimalValue(digits)
    {
      var shorter := f[..|f| - 1];
      assert f == shorter + ['0'];
      DecimalValueSnoc(shorter, '0');
      TenTimes(DecimalValue(shorter), |digits| - |f|);
      f := shorter;
    }
  }

  lemma CutHolds(num: nat, den: nat, whole: nat, digits: Text, f: Text, places: nat)
    requires den > 0 && AllDigits(digits) && AllDigits(f) && |f| <= |digits| <= places
    requires DecimalValue(f) * Pow10(|digits| - |f|) == DecimalValue(digits)
    requires num * Pow10(places) / den == whole * Pow10(places) + DecimalValue(digits) * Pow10(places - |digits|)
    ensures IsCut(whole, f, num as real / den as real, places)
  {
    hide Pow10, DecimalValue;
    FloorOfRatio(num, den, Pow10(places));
    PowSum(|f|, places - |f|);
    PowSum(|digits| - |f|, places - |digits|);
    var a, b, c := Pow10(|f|), Pow10(|digits| - |f|), Pow10(places - |digits|);
    assert places - |f| == (|digits| - |f|) + (places - |digits|);
    assert (whole * a + DecimalValue(f)) * (b * c) == whole * (a * (b * c)) + DecimalValue(f) * b * c;
  }

  /** The long division: one digit a place, until it comes out exact or the places run out. */
  method FractionDigits(first: nat, denominator: nat, places: nat) returns (digits: Text, ghost rem: nat)
    requires first < denominator
    ensures AllDigits(digits) && |digits| <= places && rem < denominator && (rem == 0 || |digits| == places)
    ensures first * Pow10(|digits|) == DecimalValue(digits) * denominator + rem
  {
    hide DecimalValue, Pow10;
    digits := [];
    var left := first;
    rem := first;
    NoDigitsYet();
    var i := 0;
    while i < places
      invariant i <= places && |digits| == i && AllDigits(digits) && rem == left < denominator
      invariant first * Pow10(i) == DecimalValue(digits) * denominator + left
    {
      ghost var before := left;
      left := left * 10;
      var digit := left / denominator;
      left := left % denominator;
      rem := left;
      DivisionStep(first, Pow10(i), DecimalValue(digits), before, denominator, digit, left);
      DigitAppended(digits, digit);
      digits := digits + Decimal(digit);
      i := i + 1;
      if left == 0 {
        break;
      }
    }
  }

  /** _ratio_decimal: fails exactly on a negative numerator or a denominator not positive, and
      otherwise writes the ratio cut off, never rounded, after the given places. */
  method RatioDecimal(numerator: int, denominator: int, places: int) returns (r: Option<Text>)
    ensures r.None? <==> numerator < 0 || denominator <= 0
    ensures r.Some? ==> Renders(r.value, numerator as real / denominator as real, if places < 0 then 0 else places)
  {
    hide DecimalValue, Pow10, IsCut;
    if numerator < 0 || denominator <= 0 {
      return None;
    }
    var whole, rem := numerator / denominator, numerator % denominator;
    if places <= 0 || rem == 0 {
      WholeOnly(numerator, denominator, if places < 0 then 0 else places);
      assert Decimal(whole) == Joined(whole, []);
      return Some(Decimal(whole));
    }
    var digits, left := FractionDigits(rem, denominator, places);
    var frac := TrimZeros(digits);
    DigitsAreRatio(numerator, denominator, whole, rem, DecimalValue(digits), left, |digits|, places);
    CutHolds(numerator, denominator, whole, digits, frac, places);
    if frac == [] {
      assert Decimal(whole) == Joined(whole, []);
      return Some(Decimal(whole));
    }
    assert Decimal(whole) + "." + frac == Joined(whole, frac);
    return Some(Decimal(whole) + "." + frac);
  }

  lemma NoDigitsYet()
    ensures DecimalValue([]) == 0 && Pow10(0) == 1
  {
  }

  lemma DigitAppended(digits: Text, digit: nat)
    requires AllDigits(digits) && digit < 10
    ensures |Decimal(digit)| == 1 && AllDigits(digits + Decimal(digit))
    ensures DecimalValue(digits + Decimal(digit)) == 10 * DecimalValue(digits) + digit
    ensures Pow10(|digits| + 1) == 10 * Pow10(|digits|)
  {
    DecimalValueSnoc(digits, DigitOf(digit));
  }

  lemma WholeOnly(num: nat, den: nat, places: nat)
    requires den > 0 && (places == 0 || num % den == 0)
    ensures IsCut(num / den, [], num as real / den as real, places)
  {
    hide Pow10;
    NoDigitsYet();
    DigitsAreRatio(num, den, num / den, num % den, 0, num % den, 0, places);
    CutHolds(num, den, num / den, [], [], places);
  }
}
