/** src/address_helpers.h, lines 84-171: Base58 by in-place long division, and back by
    in-place multiplication. */
module Base58 {
  import opened ByteCodec

  // ---- positional numbers, most significant digit first ----

  /** Horner's rule. */
  function Value(base: nat, s: seq<nat>): nat {
    if s == [] then 0 else Value(base, s[..|s| - 1]) * base + s[|s| - 1]
  }

  /** The digits of a number, none when it is zero. */
  function Digits(base: nat, n: nat): (s: seq<nat>)
    requires base >= 2
    ensures forall i :: 0 <= i < |s| ==> s[i] < base
    ensures s != [] ==> s[0] != 0
  {
    if n == 0 then [] else Digits(base, n / base) + [n % base]
  }

  predicate Below(base: nat, s: seq<nat>) {
    forall i :: 0 <= i < |s| ==> s[i] < base
  }

  lemma ValueSnoc(base: nat, s: seq<nat>, d: nat)
    ensures Value(base, s + [d]) == Value(base, s) * base + d
  {
    assert (s + [d])[..|s|] == s;
  }

  lemma DivMod(n: nat, base: nat)
    requires base >= 2
    ensures n == n / base * base + n % base
    ensures n > 0 ==> n / base < n
  {
  }

  lemma {:induction false} ValueOfDigits(base: nat, n: nat)
    requires base >= 2
    ensures Value(base, Digits(base, n)) == n
  {
    if n > 0 {
      DivMod(n, base);
      var q, r := n / base, n % base;
      ValueOfDigits(base, q);
      ValueSnoc(base, Digits(base, q), r);
    }
  }

  lemma {:induction false} ValuePositive(base: nat, s: seq<nat>)
    requires base >= 2 && s != [] && s[0] != 0
    ensures Value(base, s) > 0
  {
    if |s| > 1 {
      ValuePositive(base, s[..|s| - 1]);
      MulMono(1, Value(base, s[..|s| - 1]), base);
    }
  }

  lemma DigitsStep(base: nat, q: nat, d: nat)
    requires base >= 2 && d < base && q * base + d > 0
    ensures Digits(base, q * base + d) == Digits(base, q) + [d]
  {
    var n := q * base + d;
    assert (q + 1) * base == q * base + base;
    DivIs(n, base, q);
    DivMod(n, base);
  }

  /** Digits with no leading zero are the digits of their value. */
  lemma {:induction false} DigitsOfValue(base: nat, s: seq<nat>)
    requires base >= 2 && Below(base, s) && (s != [] ==> s[0] != 0)
    ensures Digits(base, Value(base, s)) == s
  {
    if s != [] {
      var front, d := s[..|s| - 1], s[|s| - 1];
      DigitsOfValue(base, front);
      ValuePositive(base, s);
      assert s == front + [d];
      DigitsStep(base, Value(base, front), d);
    }
  }

  lemma {:induction false} LeadingZero(base: nat, s: seq<nat>)
    requires s != [] && s[0] == 0
    ensures Value(base, s) == Value(base, s[1..])
  {
    if |s| == 1 {
      assert Value(base, s[..0]) == 0;
    } else {
      LeadingZero(base, s[..|s| - 1]);
      assert s[..|s| - 1][1..] == s[1..][..|s[1..]| - 1];
    }
  }

  function Zeros(n: nat): (z: seq<nat>)
    ensures |z| == n && forall i :: 0 <= i < n ==> z[i] == 0
  {
    seq(n, _ => 0)
  }

  /** How many leading zeros. */
  function LeadingZeros(s: seq<nat>): (z: nat)
    ensures z <= |s| && s[..z] == Zeros(z)
    ensures z < |s| ==> s[z] != 0
  {
    if s == [] || s[0] != 0 then 0 else
      var z := LeadingZeros(s[1..]);
      assert s[..1 + z] == [s[0]] + s[1..][..z];
      1 + z
  }

  lemma {:induction false} LeadingZerosOf(z: nat, rest: seq<nat>)
    requires rest == [] || rest[0] != 0
    ensures LeadingZeros(Zeros(z) + rest) == z
  {
    if z == 0 {
      assert Zeros(z) + rest == rest;
    } else {
      LeadingZerosOf(z - 1, rest);
      assert (Zeros(z) + rest)[1..] == Zeros(z - 1) + rest;
    }
  }

  lemma {:induction false} ValueSkipsZeros(base: nat, z: nat, rest: seq<nat>)
    ensures Value(base, Zeros(z) + rest) == Value(base, rest)
  {
    if z == 0 {
      assert Zeros(z) + rest == rest;
    } else {
      ValueSkipsZeros(base, z - 1, rest);
      LeadingZero(base, Zeros(z) + rest);
      assert (Zeros(z) + rest)[1..] == Zeros(z - 1) + rest;
    }
  }

  /** Changing base while keeping leading zeros, and coming back. */
  function Rebased(from: nat, to: nat, s: seq<nat>): seq<nat>
    requires to >= 2
  {
    Zeros(LeadingZeros(s)) + Digits(to, Value(from, s))
  }

  lemma RebasedBack(from: nat, to: nat, s: seq<nat>)
    requires from >= 2 && to >= 2 && Below(from, s)
    ensures Rebased(to, from, Rebased(from, to, s)) == s
  {
    var z := LeadingZeros(s);
    var rest := s[z..];
    var n := Value(from, s);
    assert s == Zeros(z) + rest;
    ValueSkipsZeros(from, z, rest);
    DigitsOfValue(from, rest);
    LeadingZerosOf(z, Digits(to, n));
    ValueSkipsZeros(to, z, Digits(to, n));
    ValueOfDigits(to, n);
  }

  // ---- the alphabet ----

  function Shifted(first: ByteChar, n: nat): ByteChar
    requires first as int + n < 128
  {
    (first as int + n) as char
  }

  /** BASE58_ALPHABET: the digits and letters without 0, I, O and l. */
  function Symbol(d: nat): (c: ByteChar)
    requires d < 58
    ensures SymbolValue(c) == Some(d)
  {
    if d < 9 then Shifted('1', d)
    else if d < 17 then Shifted('A', d - 9)
    else if d < 22 then Shifted('J', d - 17)
    else if d < 33 then Shifted('P', d - 22)
    else if d < 44 then Shifted('a', d - 33)
    else Shifted('m', d - 44)
  }

  function SymbolValue(c: ByteChar): (r: Option<nat>)
    ensures r.Some? ==> r.value < 58
  {
    if '1' <= c <= '9' then Some(c as int - '1' as int)
    else if 'A' <= c <= 'H' then Some(c as int - 'A' as int + 9)
    else if 'J' <= c <= 'N' then Some(c as int - 'J' as int + 17)
    else if 'P' <= c <= 'Z' then Some(c as int - 'P' as int + 22)
    else if 'a' <= c <= 'k' then Some(c as int - 'a' as int + 33)
    else if 'm' <= c <= 'z' then Some(c as int - 'm' as int + 44)
    else None
  }

  /** The symbols are all digits and letters but four, in ascending order. */
  lemma AlphabetIs(c: ByteChar, d: nat, e: nat)
    ensures SymbolValue(c).Some?
       <==> ('0' <= c <= '9' || 'A' <= c <= 'Z' || 'a' <= c <= 'z') && c != '0' && c != 'I' && c != 'O' && c != 'l'
    ensures d < e < 58 ==> Symbol(d) < Symbol(e)
  {
  }

  lemma SymbolOfValue(c: ByteChar)
    requires SymbolValue(c).Some?
    ensures Symbol(SymbolValue(c).value) == c
  {
  }

  /** strchr also finds the terminating NUL, one past the last symbol. */
  function StrChr(c: ByteChar): Option<nat> {
    if c == '\0' then Some(58) else SymbolValue(c)
  }

  method FindSymbol(c: ByteChar) returns (r: Option<nat>)
    ensures r == StrChr(c)
  {
    for i := 0 to 58
      invariant forall j :: 0 <= j < i ==> Symbol(j) != c
    {
      if Symbol(i) == c {
        return Some(i);
      }
    }
    if c == '\0' {
      return Some(58);
    }
    if SymbolValue(c).Some? {
      SymbolOfValue(c);
    }
    return None;
  }

  function Reverse<T>(t: seq<T>): (r: seq<T>)
    ensures |r| == |t|
  {
    seq(|t|, i requires 0 <= i < |t| => t[|t| - 1 - i])
  }

  function Spelled(digits: seq<nat>): (t: Text)
    requires Below(58, digits)
    ensures |t| == |digits|
  {
    seq(|digits|, i requires 0 <= i < |digits| => Symbol(digits[i]))
  }

  lemma RebasedBelow(from: nat, to: nat, s: seq<nat>)
    requires to >= 2
    ensures Below(to, Rebased(from, to, s))
  {
  }

  // ---- encoding ----

  /** What the encoder means: the base-58 digits of the number, one '1' per leading zero. */
  function Encoded(input: Bytes): Text {
    RebasedBelow(256, 58, input);
    Spelled(Rebased(256, 58, input))
  }

  lemma ValueNone(base: nat)
    ensures Value(base, []) == 0
  {
  }

  /** One digit of long division. */
  lemma DivideStep(n: nat, q: nat, x: nat, carry: nat)
    requires n == q * 58 + carry && carry < 58 && x < 256
    ensures n * 256 + x == (q * 256 + (x + carry * 256) / 58) * 58 + (x + carry * 256) % 58
    ensures (x + carry * 256) / 58 < 256
  {
    DivMod(x + carry * 256, 58);
  }

  /** One pass of long division in place; every digit stays a byte. */
  method DivideBy58(data: array<nat>, start: nat) returns (carry: nat)
    requires start <= data.Length && Below(256, data[..])
    modifies data
    ensures Below(256, data[..]) && carry < 58
    ensures data[..start] == old(data[..start])
    ensures Value(256, old(data[start..])) == Value(256, data[start..]) * 58 + carry
  {
    hide Value;
    ValueNone(256);
    carry := 0;
    ghost var was := data[..];
    assert was[start..start] == [] && data[start..start] == [];
    for i := start to data.Length
      invariant Below(256, data[..]) && carry < 58
      invariant data[..start] == was[..start] && data[i..] == was[i..]
      invariant Value(256, was[start..i]) == Value(256, data[start..i]) * 58 + carry
    {
      ghost var q := data[start..i];
      var val := data[i] + carry * 256;
      assert was[start..i + 1] == was[start..i] + [was[i]];
      ValueSnoc(256, was[start..i], was[i]);
      DivideStep(Value(256, was[start..i]), Value(256, q), data[i], carry);
      data[i] := val / 58;
      carry := val % 58;
      assert data[start..i + 1] == q + [val / 58];
      ValueSnoc(256, q, val / 58);
      assert data[..start] == was[..start];
      assert data[i + 1..] == was[i + 1..];
    }
    assert was[start..data.Length] == was[start..] && data[start..data.Length] == data[start..];
  }

  /** The long-division loop: it ends because the remaining number strictly falls. */
  method DivideOut(data: array<nat>, zeroCount: nat) returns (out: Text)
    requires zeroCount <= data.Length && Below(256, data[..])
    requires zeroCount < data.Length ==> data[zeroCount] != 0
    modifies data
    ensures out == Reverse(Spelled(Digits(58, old(Value(256, data[zeroCount..])))))
  {
    hide Digits, Symbol, Reverse, Spelled, Value;
    ghost var n := Value(256, data[zeroCount..]);
    out := [];
    ghost var low: seq<nat> := [];
    var start := zeroCount;
    NothingSpelled();
    assert Digits(58, n) + low == Digits(58, n);
    while start < data.Length
      invariant start <= data.Length && Below(256, data[..])
      invariant start < data.Length ==> data[start] != 0
      invariant Below(58, low) && out == Reverse(Spelled(low))
      invariant Digits(58, n) == Digits(58, Value(256, data[start..])) + low
      decreases Value(256, data[start..])
    {
      ValuePositive(256, data[start..]);
      var carry := DivideBy58(data, start);
      ghost var q := Value(256, data[start..]);
      DigitsStep(58, q, carry);
      PushDigit(out, low, carry);
      out := out + [Symbol(carry)];
      Regroup(Digits(58, q), carry, low);
      low := [carry] + low;
      start := SkipZeros(data, start);
    }
    assert data[start..] == [];
    NothingSpelled();
    assert [] + low == low;
  }

  lemma RebasedParts(s: seq<nat>, z: nat)
    requires z == LeadingZeros(s)
    ensures Rebased(256, 58, s) == Zeros(z) + Digits(58, Value(256, s[z..]))
  {
    hide Digits, Value, Zeros;
    assert s == s[..z] + s[z..];
    ValueSkipsZeros(256, z, s[z..]);
  }

  /** base58Encode. */
  method Base58Encode(input: Bytes) returns (encoded: Text)
    ensures encoded == Encoded(input)
  {
    hide Digits, Symbol, Reverse, Spelled, Value, LeadingZeros, Rebased;
    var data := new nat[|input|](i requires 0 <= i < |input| => input[i]);
    assert data[..] == input;
    var zeroCount := CountLeadingZeros(input);
    RebasedParts(input, zeroCount);
    assert data[zeroCount..] == input[zeroCount..];
    ghost var low := Digits(58, Value(256, input[zeroCount..]));
    var out := DivideOut(data, zeroCount);
    var ones: Text := [];
    for i := 0 to zeroCount
      invariant ones == Ones(i)
    {
      ones := ones + ['1'];
    }
    OnesInFront(low, zeroCount);
    encoded := Reverse(out + ones);
  }

  lemma NothingSpelled()
    ensures Value(256, []) == 0 && Digits(58, 0) == []
    ensures Reverse(Spelled([])) == []
  {
  }

  lemma Regroup(a: seq<nat>, d: nat, b: seq<nat>)
    ensures a + [d] + b == a + ([d] + b)
  {
  }

  function Ones(n: nat): Text {
    seq(n, _ => '1')
  }

  lemma OnesInFront(low: seq<nat>, z: nat)
    requires Below(58, low)
    ensures Below(58, Zeros(z) + low)
    ensures Reverse(Reverse(Spelled(low)) + Ones(z)) == Spelled(Zeros(z) + low)
  {
  }

  lemma PushDigit(out: Text, low: seq<nat>, d: nat)
    requires Below(58, low) && out == Reverse(Spelled(low)) && d < 58
    ensures out + [Symbol(d)] == Reverse(Spelled([d] + low))
  {
  }

  method CountLeadingZeros(input: Bytes) returns (zeroCount: nat)
    ensures zeroCount == LeadingZeros(input)
  {
    zeroCount := 0;
    assert input[0..] == input;
    while zeroCount < |input| && input[zeroCount] == 0
      invariant zeroCount <= |input|
      invariant LeadingZeros(input) == zeroCount + LeadingZeros(input[zeroCount..])
    {
      assert input[zeroCount..][1..] == input[zeroCount + 1..];
      zeroCount := zeroCount + 1;
    }
  }

  method SkipZeros(data: array<nat>, from: nat) returns (start: nat)
    requires from <= data.Length
    ensures from <= start <= data.Length && (start < data.Length ==> data[start] != 0)
    ensures Value(256, data[start..]) == Value(256, data[from..])
  {
    start := from;
    while start < data.Length && data[start] == 0
      invariant from <= start <= data.Length
      invariant Value(256, data[start..]) == Value(256, data[from..])
    {
      LeadingZero(256, data[start..]);
      assert data[start..][1..] == data[start + 1..];
      start := start + 1;
    }
  }

  // ---- decoding ----

  /** The digits a text spells, when every character is found. */
  function DigitsOfText(t: Text): Option<seq<nat>> {
    if t == [] then Some([])
    else
      var front := DigitsOfText(t[..|t| - 1]);
      var last := StrChr(t[|t| - 1]);
      if front.None? || last.None? then None else Some(front.value + [last.value])
  }

  /** What the decoder means; None is the thrown error. */
  function Decoded(t: Text): Option<seq<nat>> {
    var digits := DigitsOfText(t);
    if digits.None? then None else Some(Rebased(58, 256, digits.value))
  }

  /** The multiply-and-add of one character into the little-endian result. */
  method TimesPlus(result: Bytes, digit: nat) returns (r: Bytes)
    requires digit <= 58 && (result != [] ==> result[|result| - 1] != 0)
    ensures LeValue(r) == LeValue(result) * 58 + digit
    ensures r != [] ==> r[|r| - 1] != 0
  {
    hide Pow256, LeValue;
    r := result;
    var carry: nat := digit;
    Pow256Zero();
    for i := 0 to |r|
      invariant |r| == |result| && carry <= 58 && r[i..] == result[i..]
      invariant 0 <= carry
      invariant LeValue(r[..i]) + carry * Pow256(i) == LeValue(result[..i]) * 58 + digit
    {
      var value := r[i] * 58 + carry;
      ghost var done := r[..i];
      assert result[..i + 1] == result[..i] + [result[i]] && r[i] == result[i];
      TimesStep(result[..i], result[i], done, carry, digit);
      r := r[i := value % 256];
      carry := value / 256;
      assert r[..i + 1] == done + [value % 256];
    }
    assert r[..|r|] == r && result[..|result|] == result;
    TopByte(result, r, digit, carry);
    while carry > 0
      invariant 0 <= carry <= 58
      invariant carry > 0 ==> LeValue(r) + carry * Pow256(|r|) == LeValue(result) * 58 + digit
      invariant carry == 0 ==> LeValue(r) == LeValue(result) * 58 + digit && (r != [] ==> r[|r| - 1] != 0)
    {
      LeValueSnoc(r, carry % 256);
      assert carry % 256 == carry && carry / 256 == 0;
      r := r + [carry % 256];
      carry := carry / 256;
    }
  }

  lemma Pow256Zero()
    ensures Pow256(0) == 1 && LeValue([]) == 0
  {
  }

  lemma Carried(b: nat, c: nat, p: nat)
    ensures var value := b * 58 + c; (value % 256) * p + (value / 256) * (256 * p) == (b * p) * 58 + c * p
  {
    var value := b * 58 + c;
    assert value == value / 256 * 256 + value % 256;
    assert (value / 256 * 256 + value % 256) * p == (value / 256) * (256 * p) + (value % 256) * p;
    assert value * p == (b * p) * 58 + c * p;
  }

  /** One step of the multiply-and-add loop. */
  lemma TimesStep(before: Bytes, b: Byte, done: Bytes, carry: nat, digit: nat)
    requires |before| == |done|
    requires LeValue(done) + carry * Pow256(|done|) == LeValue(before) * 58 + digit
    ensures var value := b * 58 + carry;
            LeValue(done + [value % 256]) + (value / 256) * Pow256(|done| + 1) == LeValue(before + [b]) * 58 + digit
  {
    hide Pow256, LeValue;
    var value, p := b * 58 + carry, Pow256(|done|);
    Pow256Succ(|done|);
    LeValueSnoc(done, value % 256);
    LeValueSnoc(before, b);
    Carried(b, carry, p);
  }

  lemma Pow256Succ(n: nat)
    ensures Pow256(n + 1) == 256 * Pow256(n)
  {
  }

  lemma {:induction false} LeValueTop(b: Bytes)
    requires b != []
    ensures b[|b| - 1] != 0 <==> LeValue(b) >= Pow256(|b| - 1)
  {
    var front := b[..|b| - 1];
    assert b == front + [b[|b| - 1]];
    LeValueSnoc(front, b[|b| - 1]);
    LeValueBound(front);
    if b[|b| - 1] != 0 {
      MulMono(1, b[|b| - 1], Pow256(|front|));
    }
  }

  /** With no carry out, multiplying by 58 keeps the top byte non-zero. */
  lemma TopByte(before: Bytes, after: Bytes, digit: nat, carry: nat)
    requires |after| == |before| && (before != [] ==> before[|before| - 1] != 0)
    requires LeValue(after) + carry * Pow256(|before|) == LeValue(before) * 58 + digit
    ensures carry == 0 && after != [] ==> after[|after| - 1] != 0
  {
    if after != [] {
      LeValueTop(before);
      LeValueTop(after);
    }
  }

  lemma {:induction false} LittleEndianValue(b: Bytes)
    ensures Value(256, Reverse(b)) == LeValue(b)
  {
    if b != [] {
      LittleEndianValue(b[1..]);
      assert Reverse(b)[..|b| - 1] == Reverse(b[1..]);
    }
  }

  /** base58Decode; a character outside the alphabet is the thrown error. */
  method Base58Decode(input: Text) returns (decoded: Option<seq<nat>>)
    ensures decoded == Decoded(input)
  {
    var result: Bytes := [];
    for i := 0 to |input|
      invariant result != [] ==> result[|result| - 1] != 0
      invariant DigitsOfText(input[..i]).Some? && Value(58, DigitsOfText(input[..i]).value) == LeValue(result)
    {
      var digit := FindSymbol(input[i]);
      assert input[..i + 1][..i] == input[..i];
      if digit.None? {
        NoDigits(input, i + 1);
        return None;
      }
      ValueSnoc(58, DigitsOfText(input[..i]).value, digit.value);
      result := TimesPlus(result, digit.value);
    }
    assert input[..|input|] == input;
    var leadingZeros := CountOnes(input);
    ghost var digits := DigitsOfText(input).value;
    OnesAreZeros(input);
    var bytes := Reverse(result);
    LittleEndianValue(result);
    DigitsOfValue(256, bytes);
    return Some(Zeros(leadingZeros) + bytes);
  }

  lemma {:induction false} NoDigits(t: Text, i: nat)
    requires i <= |t| && DigitsOfText(t[..i]).None?
    ensures DigitsOfText(t).None?
    decreases |t| - i
  {
    if i == |t| {
      assert t[..i] == t;
    } else {
      assert t[..i + 1][..i] == t[..i];
      NoDigits(t, i + 1);
    }
  }

  function LeadingOnes(t: Text): (n: nat)
    ensures n <= |t|
  {
    if t == [] || t[0] != '1' then 0 else 1 + LeadingOnes(t[1..])
  }

  method CountOnes(t: Text) returns (n: nat)
    ensures n == LeadingOnes(t)
  {
    n := 0;
    assert t[0..] == t;
    while n < |t| && t[n] == '1'
      invariant n <= |t| && LeadingOnes(t) == n + LeadingOnes(t[n..])
    {
      assert t[n..][1..] == t[n + 1..];
      n := n + 1;
    }
  }

  lemma {:induction false} DigitsAt(t: Text, i: nat)
    requires DigitsOfText(t).Some? && i < |t|
    ensures |DigitsOfText(t).value| == |t| && Some(DigitsOfText(t).value[i]) == StrChr(t[i])
  {
    if |t| > 1 {
      DigitsAt(t[..|t| - 1], if i < |t| - 1 then i else 0);
    }
  }

  lemma {:induction false} OnesAreZeros(t: Text)
    requires DigitsOfText(t).Some?
    ensures LeadingZeros(DigitsOfText(t).value) == LeadingOnes(t)
  {
    if t != [] {
      DigitsAt(t, 0);
      if t[0] == '1' {
        DigitsTail(t);
        OnesAreZeros(t[1..]);
      }
    }
  }

  lemma {:induction false} DigitsTail(t: Text)
    requires DigitsOfText(t).Some? && t != []
    ensures DigitsOfText(t[1..]).Some? && |DigitsOfText(t).value| == |t|
    ensures DigitsOfText(t).value[1..] == DigitsOfText(t[1..]).value
  {
    DigitsAt(t, 0);
    if |t| > 1 {
      DigitsTail(t[..|t| - 1]);
      assert t[..|t| - 1][1..] == t[1..][..|t| - 2];
    }
  }

  // ---- the bijection ----

  lemma {:induction false} SpelledDigits(d: seq<nat>)
    requires Below(58, d)
    ensures DigitsOfText(Spelled(d)) == Some(d)
  {
    if d != [] {
      var front := d[..|d| - 1];
      SpelledDigits(front);
      assert Spelled(d)[..|d| - 1] == Spelled(front);
      assert d == front + [d[|d| - 1]];
    }
  }

  predicate OverAlphabet(t: Text) {
    forall i :: 0 <= i < |t| ==> SymbolValue(t[i]).Some?
  }

  lemma {:induction false} SpellDigits(t: Text)
    requires OverAlphabet(t)
    ensures DigitsOfText(t).Some? && Below(58, DigitsOfText(t).value) && Spelled(DigitsOfText(t).value) == t
  {
    if t != [] {
      SpellDigits(t[..|t| - 1]);
      SymbolOfValue(t[|t| - 1]);
      assert t == t[..|t| - 1] + [t[|t| - 1]];
    }
  }

  /** Decoding what was encoded gives every byte string back. */
  lemma DecodeInvertsEncode(input: Bytes)
    ensures Decoded(Encoded(input)) == Some(input)
  {
    RebasedBelow(256, 58, input);
    SpelledDigits(Rebased(256, 58, input));
    RebasedBack(256, 58, input);
  }

  /** The decoder only ever yields bytes. */
  lemma DecodedAreBytes(t: Text)
    requires Decoded(t).Some?
    ensures Below(256, Decoded(t).value)
  {
    RebasedBelow(58, 256, DigitsOfText(t).value);
  }

  lemma EncodedOverAlphabet(input: Bytes)
    ensures OverAlphabet(Encoded(input))
  {
    RebasedBelow(256, 58, input);
  }

  /** Encoding what was decoded gives back exactly the texts over the alphabet: a text
      holding a NUL decodes too, but to bytes whose encoding is a different text. */
  lemma EncodeInvertsDecode(t: Text)
    requires Decoded(t).Some?
    ensures Below(256, Decoded(t).value)
    ensures Encoded(Decoded(t).value) == t <==> OverAlphabet(t)
  {
    DecodedAreBytes(t);
    EncodedOverAlphabet(Decoded(t).value);
    if OverAlphabet(t) {
      SpellDigits(t);
      RebasedBack(58, 256, DigitsOfText(t).value);
    }
  }

  /** The decoder throws exactly when some character is neither a symbol nor NUL. */
  lemma {:induction false} DecodesWhen(t: Text)
    ensures Decoded(t).Some? <==> forall i :: 0 <= i < |t| ==> SymbolValue(t[i]).Some? || t[i] == '\0'
  {
    if t != [] {
      DecodesWhen(t[..|t| - 1]);
      assert t == t[..|t| - 1] + [t[|t| - 1]];
    }
  }

  lemma TextSnoc(t: Text, c: ByteChar)
    ensures DigitsOfText([]) == Some([])
    ensures DigitsOfText(t).Some? && StrChr(c).Some? ==> DigitsOfText(t + [c]) == Some(DigitsOfText(t).value + [StrChr(c).value])
  {
    assert (t + [c])[..|t|] == t;
  }

  lemma LeadsNonzero(s: seq<nat>)
    requires s != [] && s[0] != 0
    ensures LeadingZeros(s) == 0 && Zeros(0) == []
  {
  }

  lemma DigitsSnoc(base: nat, n: nat)
    requires base >= 2 && n > 0
    ensures Digits(base, n) == Digits(base, n / base) + [n % base] && Digits(base, 0) == [] && Value(base, []) == 0
  {
  }

  lemma TwoDigits(base: nat, a: nat, b: nat)
    ensures Value(base, [a]) == a
    ensures Value(base, [a, b]) == a * base + b
  {
    hide Value;
    ValueSnoc(base, [], a);
    ValueSnoc(base, [a], b);
    NoValue(base);
    assert [] + [a] == [a] && [a] + [b] == [a, b];
  }

  lemma NoValue(base: nat)
    ensures Value(base, []) == 0
  {
  }

  lemma Convert116()
    ensures Rebased(58, 256, [1, 58]) == [116]
    ensures Rebased(256, 58, [116]) == [2, 0]
  {
    hide Value, Digits, LeadingZeros, Zeros;
    TwoDigits(58, 1, 58);
    TwoDigits(256, 116, 0);
    DigitsSnoc(58, 116);
    DigitsSnoc(58, 2);
    DigitsSnoc(256, 116);
    LeadsNonzero([1, 58]);
    LeadsNonzero([116]);
  }

  /** A text outside the alphabet that decodes: "2" and a NUL give the byte 116, which the
      encoder writes as "31". */
  lemma NulDecodesElsewhere()
    ensures !OverAlphabet(['2'] + ['\0']) && Decoded(['2'] + ['\0']) == Some([116])
    ensures Encoded([116]) == ['3', '1']
  {
    assert StrChr('2') == Some(1) && Symbol(2) == '3' && Symbol(0) == '1';
    assert (['2'] + ['\0'])[1] == '\0' && SymbolValue('\0').None?;
    hide DigitsOfText, SymbolValue, Symbol, Rebased;
    TextSnoc([], '2');
    TextSnoc(['2'], '\0');
    Convert116();
    assert [] + ['2'] == ['2'];
    assert DigitsOfText(['2'] + ['\0']).value == [1, 58];
  }
}
