/** std::to_string and the digit loops that read its output back. */
module Decimals {
  import opened ByteCodec

  predicate IsDigit(c: ByteChar) {
    '0' <= c <= '9'
  }

  predicate AllDigits(t: Text) {
    forall i :: 0 <= i < |t| ==> IsDigit(t[i])
  }

  function DigitOf(n: nat): (c: ByteChar)
    requires n < 10
    ensures IsDigit(c)
  {
    ('0' as int + n) as char
  }

  function DigitValue(c: ByteChar): nat
    requires IsDigit(c)
  {
    c as int - '0' as int
  }

  /** std::to_string of an unsigned number. */
  function Decimal(n: nat): (t: Text)
    ensures t != [] && AllDigits(t)
  {
    if n < 10 then [DigitOf(n)] else Decimal(n / 10) + [DigitOf(n % 10)]
  }

  function DecimalValue(t: Text): nat
    requires AllDigits(t)
  {
    if t == [] then 0 else 10 * DecimalValue(t[..|t| - 1]) + DigitValue(t[|t| - 1])
  }

  function Pow10(k: nat): (p: nat)
    ensures p > 0
  {
    if k == 0 then 1 else 10 * Pow10(k - 1)
  }

  /** No leading zero, except in "0" itself. */
  predicate IsCanonicalDecimal(t: Text) {
    t != [] && AllDigits(t) && (|t| > 1 ==> t[0] != '0')
  }

  lemma {:induction false} DecimalDenotes(n: nat)
    ensures DecimalValue(Decimal(n)) == n
    ensures IsCanonicalDecimal(Decimal(n))
    ensures n > 0 ==> Decimal(n)[0] != '0'
  {
    if n >= 10 {
      DecimalDenotes(n / 10);
      var front := Decimal(n / 10);
      assert Decimal(n)[..|front|] == front;
    }
  }

  lemma {:induction false} CanonicalDecimalIsRendered(t: Text)
    requires IsCanonicalDecimal(t)
    ensures Decimal(DecimalValue(t)) == t
    ensures |t| > 1 || t[0] != '0' ==> DecimalValue(t) > 0
  {
    if |t| > 1 {
      var front := t[..|t| - 1];
      CanonicalDecimalIsRendered(front);
      assert t == front + [t[|t| - 1]];
    }
  }

  lemma DecimalValueSnoc(t: Text, c: ByteChar)
    requires AllDigits(t) && IsDigit(c)
    ensures DecimalValue(t + [c]) == 10 * DecimalValue(t) + DigitValue(c)
  {
    assert (t + [c])[..|t|] == t;
  }

  /** More digits never denote less. */
  lemma {:induction false} DecimalValuePrefix(t: Text, i: nat)
    requires AllDigits(t) && i <= |t|
    ensures DecimalValue(t[..i]) <= DecimalValue(t)
    decreases |t| - i
  {
    if i < |t| {
      assert t[..i + 1] == t[..i] + [t[i]];
      DecimalValueSnoc(t[..i], t[i]);
      DecimalValuePrefix(t, i + 1);
    } else {
      assert t[..i] == t;
    }
  }
}
