/** src/contract_state_lineage.h: canonical contract outpoints and the durable key
    families, and why no two domains can share a key. */
module Lineage {
  import opened ByteCodec
  import opened Decimals
  import opened StateLimits

  const LINEAGE_PREFIX: Text := "contractlineage:"
  const LIVE_PREFIX: Text := "contractlive:"
  const OWNER_PREFIX: Text := "contractowner:"
  const FAMILY_PREFIX: Text := "contractfamily:"
  const STATE_PREFIX: Text := "contractstate:"

  predicate IsLowerHexDigit(ch: ByteChar) {
    '0' <= ch <= '9' || 'a' <= ch <= 'f'
  }

  predicate IsAsciiHexDigit(ch: ByteChar) {
    IsLowerHexDigit(ch) || 'A' <= ch <= 'F'
  }

  function ToLowerAsciiHex(ch: ByteChar): ByteChar {
    if 'A' <= ch <= 'F' then (ch as int - 'A' as int + 'a' as int) as char else ch
  }

  predicate IsHex64(s: Text) {
    |s| == 64 && forall i :: 0 <= i < 64 ==> IsAsciiHexDigit(s[i])
  }

  predicate IsLowerHex64(s: Text) {
    |s| == 64 && forall i :: 0 <= i < 64 ==> IsLowerHexDigit(s[i])
  }

  /** LowerHex64, empty when the input is not 64 hex digits. */
  function LowerHex64(s: Text): (t: Text)
    ensures t != [] <==> IsHex64(s)
    ensures t != [] ==> IsLowerHex64(t)
    ensures IsLowerHex64(s) ==> t == s
  {
    if IsHex64(s) then seq(64, i requires 0 <= i < 64 => ToLowerAsciiHex(s[i])) else []
  }

  function BuildCanonicalContractOutpoint(txid: Text, vout: U32): Text {
    var t := LowerHex64(txid);
    if t == [] then [] else t + ":" + Decimal(vout)
  }

  /** What a canonical outpoint is. */
  ghost predicate IsOutpoint(o: Text, txid: Text, vout: U32) {
    IsLowerHex64(txid) && o == txid + ":" + Decimal(vout)
  }

  /** IsCanonicalContractOutpoint, unfolded: 64 lower-case hex digits, a colon, and a
      32-bit number with no leading zero. */
  predicate IsCanonicalContractOutpoint(o: Text) {
    && |o| > 65 && o[64] == ':'
    && IsLowerHex64(o[..64])
    && IsCanonicalDecimal(o[65..])
    && DecimalValue(o[65..]) <= U32_MAX
  }

  lemma CanonicalOutpointParts(o: Text)
    requires IsCanonicalContractOutpoint(o)
    ensures IsOutpoint(o, o[..64], DecimalValue(o[65..]))
  {
    CanonicalDecimalIsRendered(o[65..]);
    assert o == o[..64] + [o[64]] + o[65..];
  }

  lemma OutpointIsCanonical(o: Text, txid: Text, vout: U32)
    requires IsOutpoint(o, txid, vout)
    ensures IsCanonicalContractOutpoint(o) && o[..64] == txid && DecimalValue(o[65..]) == vout
  {
    DecimalDenotes(vout);
    assert o[65..] == Decimal(vout) && o[..64] == txid;
  }

  /** The digit loop of ParseCanonicalContractOutpoint, with its overflow guard. */
  method ParseVout(t: Text) returns (vout: Option<U32>)
    ensures vout == if AllDigits(t) && DecimalValue(t) <= U32_MAX then Some(DecimalValue(t)) else None
  {
    var parsed: U32 := 0;
    for i := 0 to |t|
      invariant AllDigits(t[..i]) && DecimalValue(t[..i]) == parsed
    {
      if !IsDigit(t[i]) {
        return None;
      }
      var digit := DigitValue(t[i]);
      assert t[..i + 1] == t[..i] + [t[i]];
      DecimalValueSnoc(t[..i], t[i]);
      if parsed > (U32_MAX - digit) / 10 {
        if AllDigits(t) {
          DecimalValuePrefix(t, i + 1);
        }
        return None;
      }
      parsed := parsed * 10 + digit;
    }
    assert t[..|t|] == t;
    return Some(parsed);
  }

  /** ParseCanonicalContractOutpoint followed by rebuilding, as
      IsCanonicalContractOutpoint does it. */
  method ParseCanonicalContractOutpoint(o: Text) returns (r: Option<(Text, U32)>)
    ensures r.Some? ==> |o| > 65 && o[64] == ':' && IsHex64(o[..64]) && r.value.0 == LowerHex64(o[..64])
                        && IsCanonicalDecimal(o[65..]) && DecimalValue(o[65..]) == r.value.1
    ensures IsCanonicalContractOutpoint(o) ==> r == Some((o[..64], DecimalValue(o[65..])))
    ensures IsCanonicalContractOutpoint(o) <==> r.Some? && BuildCanonicalContractOutpoint(r.value.0, r.value.1) == o
  {
    r := None;
    if |o| <= 64 || o[64] != ':' || ':' in o[..64] || ':' in o[65..] {
      return;
    }
    var txid := LowerHex64(o[..64]);
    if txid == [] {
      return;
    }
    var voutText := o[65..];
    if voutText == [] || (|voutText| > 1 && voutText[0] == '0') {
      return;
    }
    var vout := ParseVout(voutText);
    if vout.None? {
      return;
    }
    r := Some((txid, vout.value));
    CanonicalDecimalIsRendered(voutText);
    assert o == o[..64] + [o[64]] + o[65..];
    if BuildCanonicalContractOutpoint(txid, vout.value) == o {
      OutpointIsCanonical(o, txid, vout.value);
    }
    if IsCanonicalContractOutpoint(o) {
      assert txid == o[..64];
    }
  }

  // ---- hex logical keys ----

  function LowerHexDigit(n: nat): (c: ByteChar)
    requires n < 16
    ensures IsLowerHexDigit(c)
  {
    if n < 10 then ('0' as int + n) as char else ('a' as int + n - 10) as char
  }

  function LowerHexValue(c: ByteChar): (n: nat)
    requires IsLowerHexDigit(c)
    ensures n < 16 && LowerHexDigit(n) == c
  {
    if c <= '9' then c as int - '0' as int else c as int - 'a' as int + 10
  }

  function HexEncodeLogicalKey(key: Text): (hex: Text)
    ensures |hex| == 2 * |key|
  {
    if key == [] then []
    else [LowerHexDigit(key[0] as int / 16), LowerHexDigit(key[0] as int % 16)] + HexEncodeLogicalKey(key[1..])
  }

  const HEX_DIGITS: Text := "0123456789abcdef"

  /** Two digits a character, the high one first. */
  lemma {:induction false} HexDigitsAre(key: Text, i: nat)
    requires i < |key|
    ensures |HEX_DIGITS| == 16
    ensures HexEncodeLogicalKey(key)[2 * i] == HEX_DIGITS[key[i] as int / 16]
    ensures HexEncodeLogicalKey(key)[2 * i + 1] == HEX_DIGITS[key[i] as int % 16]
  {
    DigitIsListed(key[0] as int / 16);
    DigitIsListed(key[0] as int % 16);
    if i > 0 {
      HexDigitsAre(key[1..], i - 1);
      assert HexEncodeLogicalKey(key)[2..] == HexEncodeLogicalKey(key[1..]);
      assert HexEncodeLogicalKey(key)[2 * i] == HexEncodeLogicalKey(key)[2..][2 * (i - 1)];
      assert HexEncodeLogicalKey(key)[2 * i + 1] == HexEncodeLogicalKey(key)[2..][2 * (i - 1) + 1];
    }
  }

  lemma DigitIsListed(n: nat)
    requires n < 16
    ensures |HEX_DIGITS| == 16 && LowerHexDigit(n) == HEX_DIGITS[n]
  {
  }

  lemma {:induction false} HexEncodeInjective(a: Text, b: Text)
    requires HexEncodeLogicalKey(a) == HexEncodeLogicalKey(b)
    ensures a == b
  {
    if a != [] {
      assert |a| == |b|;
      var x, y := HexEncodeLogicalKey(a), HexEncodeLogicalKey(b);
      assert LowerHexDigit(a[0] as int / 16) == x[0] == y[0] == LowerHexDigit(b[0] as int / 16);
      assert LowerHexDigit(a[0] as int % 16) == x[1] == y[1] == LowerHexDigit(b[0] as int % 16);
      assert x[2..] == HexEncodeLogicalKey(a[1..]) && y[2..] == HexEncodeLogicalKey(b[1..]);
      HexEncodeInjective(a[1..], b[1..]);
    }
  }

  lemma {:induction false} HexEncodeSnoc(key: Text, c: ByteChar)
    ensures HexEncodeLogicalKey(key + [c])
         == HexEncodeLogicalKey(key) + [LowerHexDigit(c as int / 16), LowerHexDigit(c as int % 16)]
  {
    if key == [] {
      assert (key + [c])[1..] == [];
    } else {
      HexEncodeSnoc(key[1..], c);
      assert (key + [c])[1..] == key[1..] + [c];
    }
  }

  /** DecodeCanonicalLogicalKeyHex inverts HexEncodeLogicalKey on allowed keys and
      refuses everything else. */
  method DecodeCanonicalLogicalKeyHex(encoded: Text) returns (key: Option<Text>)
    ensures key.Some? ==> IsLogicalKeyAllowed(key.value) && HexEncodeLogicalKey(key.value) == encoded
    ensures key.None? ==> forall k :: IsLogicalKeyAllowed(k) ==> HexEncodeLogicalKey(k) != encoded
  {
    if encoded == [] || |encoded| % 2 != 0 || |encoded| / 2 > MAX_LOGICAL_KEY_BYTES {
      WrongLengthIsNoEncoding(encoded);
      return None;
    }
    var out: Text := [];
    var i := 0;
    while i < |encoded|
      invariant 0 <= i <= |encoded| && i % 2 == 0 && |out| == i / 2
      invariant HexEncodeLogicalKey(out) == encoded[..i]
    {
      var hi, lo := encoded[i], encoded[i + 1];
      if !IsLowerHexDigit(hi) || !IsLowerHexDigit(lo) {
        OddDigitIsNoEncoding(encoded, if IsLowerHexDigit(hi) then i + 1 else i);
        return None;
      }
      PairDecodes(hi, lo);
      var c := (16 * LowerHexValue(hi) + LowerHexValue(lo)) as char;
      HexEncodeSnoc(out, c);
      assert encoded[..i + 2] == encoded[..i] + [hi, lo];
      out := out + [c];
      i := i + 2;
    }
    assert encoded[..i] == encoded;
    return Some(out);
  }

  lemma PairDecodes(hi: ByteChar, lo: ByteChar)
    requires IsLowerHexDigit(hi) && IsLowerHexDigit(lo)
    ensures var n := 16 * LowerHexValue(hi) + LowerHexValue(lo);
            n < 256 && LowerHexDigit(n / 16) == hi && LowerHexDigit(n % 16) == lo
  {
  }

  lemma WrongLengthIsNoEncoding(encoded: Text)
    requires encoded == [] || |encoded| % 2 != 0 || |encoded| / 2 > MAX_LOGICAL_KEY_BYTES
    ensures forall k: Text :: IsLogicalKeyAllowed(k) ==> HexEncodeLogicalKey(k) != encoded
  {
  }

  lemma OddDigitIsNoEncoding(encoded: Text, i: nat)
    requires i < |encoded| && !IsLowerHexDigit(encoded[i])
    ensures forall k: Text :: HexEncodeLogicalKey(k) != encoded
  {
    forall k: Text ensures HexEncodeLogicalKey(k) != encoded {
      if 2 * |k| == |encoded| {
        HexDigitsAreLower(k, i);
      }
    }
  }

  lemma {:induction false} HexDigitsAreLower(key: Text, i: nat)
    requires i < 2 * |key|
    ensures IsLowerHexDigit(HexEncodeLogicalKey(key)[i])
  {
    if i >= 2 {
      HexDigitsAreLower(key[1..], i - 2);
    }
  }

  // ---- durable keys ----

  function BuildContractLineageKey(current: Text): Text {
    if IsCanonicalContractOutpoint(current) then LINEAGE_PREFIX + current else []
  }

  function BuildContractLiveKey(root: Text): Text {
    if IsCanonicalContractOutpoint(root) then LIVE_PREFIX + root else []
  }

  function BuildContractOwnerKey(root: Text): Text {
    if IsCanonicalContractOutpoint(root) then OWNER_PREFIX + root else []
  }

  function BuildContractFamilyKey(root: Text): Text {
    if IsCanonicalContractOutpoint(root) then FAMILY_PREFIX + root else []
  }

  function BuildContractStatePrefix(root: Text): Text {
    if IsCanonicalContractOutpoint(root) then STATE_PREFIX + root + ":" else []
  }

  function BuildContractStateKey(root: Text, key: Text): Text {
    if !IsLogicalKeyAllowed(key) || BuildContractStatePrefix(root) == [] then []
    else BuildContractStatePrefix(root) + HexEncodeLogicalKey(key)
  }

  predicate HasPrefix(key: Text, prefix: Text) {
    |prefix| <= |key| && key[..|prefix|] == prefix
  }

  /** Canonical outpoints contain exactly one colon, so the colon that closes a
      domain prefix delimits the whole outpoint: "txid:1:" never prefixes "txid:12:". */
  lemma DomainPrefixesApart(a: Text, b: Text, key: Text)
    requires IsCanonicalContractOutpoint(a) && IsCanonicalContractOutpoint(b)
    requires HasPrefix(key, BuildContractStatePrefix(a)) && HasPrefix(key, BuildContractStatePrefix(b))
    ensures a == b
  {
    if |a| <= |b| {
      PrefixesAgree(a, b, key);
    } else {
      PrefixesAgree(b, a, key);
    }
  }

  lemma DigitsAfterColon(o: Text)
    requires IsCanonicalContractOutpoint(o)
    ensures forall i :: 64 < i < |o| ==> o[i] != ':'
  {
    forall i | 64 < i < |o| ensures o[i] != ':' {
      assert IsDigit(o[65..][i - 65]);
    }
  }

  lemma PrefixesAgree(a: Text, b: Text, key: Text)
    requires IsCanonicalContractOutpoint(a) && IsCanonicalContractOutpoint(b) && |a| <= |b|
    requires HasPrefix(key, BuildContractStatePrefix(a)) && HasPrefix(key, BuildContractStatePrefix(b))
    ensures a == b
  {
    var p, q := BuildContractStatePrefix(a), BuildContractStatePrefix(b);
    var n := |STATE_PREFIX|;
    forall i | 0 <= i < |a| ensures a[i] == b[i] {
      assert a[i] == p[n + i] == key[n + i] == q[n + i] == b[i];
    }
    assert ':' == p[n + |a|] == key[n + |a|] == q[n + |a|];
    DigitsAfterColon(b);
  }

  /** The five key families never meet: their names differ before the outpoint. */
  lemma FamiliesApart(key: Text)
    ensures HasPrefix(key, STATE_PREFIX) ==>
              !HasPrefix(key, LINEAGE_PREFIX) && !HasPrefix(key, LIVE_PREFIX)
              && !HasPrefix(key, OWNER_PREFIX) && !HasPrefix(key, FAMILY_PREFIX)
    ensures HasPrefix(key, LINEAGE_PREFIX) ==>
              !HasPrefix(key, LIVE_PREFIX) && !HasPrefix(key, OWNER_PREFIX) && !HasPrefix(key, FAMILY_PREFIX)
    ensures HasPrefix(key, LIVE_PREFIX) ==> !HasPrefix(key, OWNER_PREFIX) && !HasPrefix(key, FAMILY_PREFIX)
    ensures HasPrefix(key, OWNER_PREFIX) ==> !HasPrefix(key, FAMILY_PREFIX)
  {
    assert LIVE_PREFIX[10] == 'v' && LINEAGE_PREFIX[10] == 'n';
    PrefixAt(key, LINEAGE_PREFIX, 10);
    PrefixAt(key, LIVE_PREFIX, 10);
    PrefixAt(key, STATE_PREFIX, 8);
    PrefixAt(key, LINEAGE_PREFIX, 8);
    PrefixAt(key, LIVE_PREFIX, 8);
    PrefixAt(key, OWNER_PREFIX, 8);
    PrefixAt(key, FAMILY_PREFIX, 8);
  }

  lemma PrefixAt(key: Text, prefix: Text, i: nat)
    requires i < |prefix|
    ensures HasPrefix(key, prefix) ==> key[i] == prefix[i]
  {
    if HasPrefix(key, prefix) {
      assert key[i] == key[..|prefix|][i];
    }
  }
}
