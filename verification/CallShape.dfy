/** src/contract_call_policy.h, lines 331-352 and 1249-1436: hex scripts and the
    one transaction shape that may spend a state anchor. */
module CallShape {
  import opened ByteCodec
  import opened InitEnvelope
  import opened CallEnvelope
  import opened PushGrammar
  import opened Lineage

  datatype TxIn = TxIn(txid: Text, vout: nat, scriptSig: Bytes)
  datatype TxOut = TxOut(amount: U64, scriptPubKey: Text)
  datatype Tx = Tx(vin: seq<TxIn>, vout: seq<TxOut>)

  // ---- hex scripts ----

  function HexNibble(ch: ByteChar): (n: int)
    ensures -1 <= n < 16
  {
    if '0' <= ch <= '9' then ch as int - '0' as int
    else if 'a' <= ch <= 'f' then ch as int - 'a' as int + 10
    else if 'A' <= ch <= 'F' then ch as int - 'A' as int + 10
    else -1
  }

  /** The bytes that pairs of hex digits spell. */
  function HexBytes(hex: Text): Option<Bytes> {
    if hex == [] then Some([])
    else if |hex| == 1 || HexNibble(hex[0]) < 0 || HexNibble(hex[1]) < 0 then None
    else
      var rest := HexBytes(hex[2..]);
      if rest.None? then None else Some([16 * HexNibble(hex[0]) + HexNibble(hex[1])] + rest.value)
  }

  /** DecodeScriptHexStrict refuses the empty script. */
  function DecodedScript(hex: Text): Option<Bytes> {
    if hex == [] then None else HexBytes(hex)
  }

  lemma {:induction false} HexBytesEven(hex: Text)
    requires HexBytes(hex).Some?
    ensures |hex| == 2 * |HexBytes(hex).value|
  {
    if hex != [] {
      HexBytesEven(hex[2..]);
    }
  }

  method DecodeScriptHexStrict(hex: Text) returns (script: Option<Bytes>)
    ensures script == DecodedScript(hex)
  {
    if |hex| == 0 {
      return None;
    }
    if |hex| % 2 != 0 {
      if HexBytes(hex).Some? {
        HexBytesEven(hex);
      }
      return None;
    }
    var bytes: Bytes := [];
    var i := 0;
    ghost var whole := HexBytes(hex);
    assert hex[0..] == hex;
    assert whole.Some? ==> bytes + whole.value == whole.value;
    while i < |hex|
      invariant 0 <= i <= |hex| && i % 2 == 0
      invariant var more := HexBytes(hex[i..]); whole == if more.None? then None else Some(bytes + more.value)
    {
      var hi, lo := HexNibble(hex[i]), HexNibble(hex[i + 1]);
      assert hex[i..][2..] == hex[i + 2..];
      if hi < 0 || lo < 0 {
        return None;
      }
      ghost var more := HexBytes(hex[i + 2..]);
      assert more.Some? ==> bytes + ([16 * hi + lo] + more.value) == bytes + [16 * hi + lo] + more.value;
      bytes := bytes + [16 * hi + lo];
      i := i + 2;
    }
    assert hex[i..] == [] && bytes + [] == bytes;
    return Some(bytes);
  }

  /** ScriptHexEqual: the same digits whatever their letter case. */
  predicate ScriptHexEqual(a: Text, b: Text) {
    && |a| == |b| && |a| % 2 == 0
    && forall i :: 0 <= i < |a| ==> 0 <= HexNibble(a[i]) == HexNibble(b[i])
  }

  lemma {:induction false} EqualHexSameBytes(a: Text, b: Text)
    requires ScriptHexEqual(a, b)
    ensures HexBytes(a).Some? && HexBytes(a) == HexBytes(b)
  {
    if a != [] {
      EqualHexSameBytes(a[2..], b[2..]);
    }
  }

  /** The lower-case letters of a text in upper case. */
  function Upper(t: Text): (u: Text)
    ensures |u| == |t|
  {
    seq(|t|, i requires 0 <= i < |t| => if 'a' <= t[i] <= 'z' then (t[i] as int - 32) as char else t[i])
  }

  lemma HexOfFirst(b: Bytes)
    requires b != []
    ensures HexEncodeLogicalKey(TextOf(b))
         == [LowerHexDigit(b[0] / 16), LowerHexDigit(b[0] % 16)] + HexEncodeLogicalKey(TextOf(b[1..]))
  {
    assert TextOf(b)[1..] == TextOf(b[1..]);
    assert TextOf(b)[0] as int == b[0];
  }

  /** Decoding inverts writing two lower-case hex digits a byte, high digit first, */
  lemma {:induction false} HexBytesInvertsHex(b: Bytes)
    ensures HexBytes(HexEncodeLogicalKey(TextOf(b))) == Some(b)
  {
    if b == [] {
      assert TextOf(b) == [];
    } else {
      HexBytesInvertsHex(b[1..]);
      HexOfFirst(b);
      NibbleOfDigit(b[0] / 16);
      NibbleOfDigit(b[0] % 16);
      hide LowerHexDigit, HexNibble, TextOf, HexEncodeLogicalKey;
      var hex := HexEncodeLogicalKey(TextOf(b));
      assert hex[2..] == HexEncodeLogicalKey(TextOf(b[1..]));
      assert b == [b[0]] + b[1..];
    }
  }

  lemma NibbleOfDigit(n: nat)
    requires n < 16
    ensures HexNibble(LowerHexDigit(n)) == n
  {
  }

  /** and upper-case ones alike: the script that a hex text denotes. */
  lemma DecodeInvertsHex(b: Bytes)
    requires b != []
    ensures DecodedScript(HexEncodeLogicalKey(TextOf(b))) == Some(b)
    ensures DecodedScript(Upper(HexEncodeLogicalKey(TextOf(b)))) == Some(b)
  {
    hide HexBytes;
    var hex := HexEncodeLogicalKey(TextOf(b));
    HexBytesInvertsHex(b);
    forall i | 0 <= i < |hex| ensures 0 <= HexNibble(hex[i]) == HexNibble(Upper(hex)[i]) {
      HexDigitsAreLower(TextOf(b), i);
    }
    EqualHexSameBytes(hex, Upper(hex));
  }

  const UPPER_HEX_DIGITS: Text := "0123456789ABCDEF"

  /** Nothing else is a hex digit. */
  lemma NibbleIs(c: ByteChar, n: nat)
    requires n < 16
    ensures |HEX_DIGITS| == |UPPER_HEX_DIGITS| == 16
    ensures HexNibble(c) == n <==> c == HEX_DIGITS[n] || c == UPPER_HEX_DIGITS[n]
  {
  }

  /** Every decodable text is, up to letter case, the writing of what it decodes to. */
  lemma {:induction false} HexBytesIsHex(hex: Text)
    requires HexBytes(hex).Some?
    ensures ScriptHexEqual(hex, HexEncodeLogicalKey(TextOf(HexBytes(hex).value)))
  {
    if hex == [] {
      assert TextOf([]) == [];
    } else {
      HexBytesIsHex(hex[2..]);
      HexByteFirst(hex);
      var b := HexBytes(hex).value;
      HexOfFirst(b);
      NibbleOfDigit(b[0] / 16);
      NibbleOfDigit(b[0] % 16);
      SameHexFirst(hex, HexEncodeLogicalKey(TextOf(b)), HexEncodeLogicalKey(TextOf(b[1..])));
    }
  }

  lemma HexByteFirst(hex: Text)
    requires hex != [] && HexBytes(hex).Some?
    ensures |hex| >= 2 && HexBytes(hex[2..]).Some?
    ensures var b := HexBytes(hex).value;
            && b != [] && b[1..] == HexBytes(hex[2..]).value
            && 0 <= HexNibble(hex[0]) == b[0] / 16 && 0 <= HexNibble(hex[1]) == b[0] % 16
  {
    hide HexNibble;
  }

  lemma SameHexFirst(a: Text, b: Text, rest: Text)
    requires |a| >= 2 && |b| >= 2 && b[2..] == rest && ScriptHexEqual(a[2..], rest)
    requires 0 <= HexNibble(a[0]) == HexNibble(b[0]) && 0 <= HexNibble(a[1]) == HexNibble(b[1])
    ensures ScriptHexEqual(a, b)
  {
    hide HexNibble;
    forall i | 0 <= i < |a| ensures 0 <= HexNibble(a[i]) == HexNibble(b[i]) {
      if i >= 2 {
        assert a[i] == a[2..][i - 2] && b[i] == rest[i - 2];
      }
    }
  }

  // ---- the call shape ----

  datatype Call = Call(continuationVout: nat, callValue: U64, logicalKey: Text, value: Bytes)

  function ParsedOutputCall(out: TxOut): Option<CallCommitment> {
    var script := DecodedScript(out.scriptPubKey);
    if script.None? then None else ParsedCallScript(script.value)
  }

  predicate Continues(tx: Tx, i: nat, anchorHex: Text)
    requires i < |tx.vout|
  {
    ScriptHexEqual(tx.vout[i].scriptPubKey, anchorHex)
  }

  predicate Commits(tx: Tx, i: nat)
    requires i < |tx.vout|
  {
    ParsedOutputCall(tx.vout[i]).Some?
  }

  /** The outputs carry exactly one continuation of the anchor, at c, and exactly one
      TRUCALL envelope, at e. */
  ghost predicate CallOutputs(tx: Tx, anchorHex: Text, c: nat, e: nat) {
    && c < |tx.vout| && e < |tx.vout|
    && (forall i :: 0 <= i < |tx.vout| ==> DecodedScript(tx.vout[i].scriptPubKey).Some?)
    && Continues(tx, c, anchorHex)
    && (forall i :: 0 <= i < |tx.vout| && Continues(tx, i, anchorHex) ==> i == c)
    && Commits(tx, e)
    && (forall i :: 0 <= i < |tx.vout| && Commits(tx, i) ==> i == e)
    && tx.vout[e].amount == 0
  }

  /** The envelope at e names input 0, the output c and the unlocking script. */
  ghost predicate CommitmentBinds(tx: Tx, c: nat, e: nat, sha: Bytes -> Hash32)
    requires e < |tx.vout| && Commits(tx, e) && |tx.vin| > 0
  {
    var commitment := ParsedOutputCall(tx.vout[e]).value;
    && commitment.targetInput == 0
    && commitment.continuationVout == c
    && commitment.unlockScriptSha256 == sha(tx.vin[0].scriptSig)
  }

  ghost predicate AnchorSpend(tx: Tx, inputIndex: nat, anchorHex: Text) {
    && inputIndex == 0
    && |tx.vin| == 2
    && !(tx.vin[0].txid == tx.vin[1].txid && tx.vin[0].vout == tx.vin[1].vout)
    && DecodedScript(anchorHex).Some? && IsStateAnchorScript(DecodedScript(anchorHex).value)
  }

  /** What a valid stateful call is: an anchor spend whose signed TRUCALL names the
      continuation and the hash of the unlocking script, never lowering the anchor. */
  ghost predicate IsCall(tx: Tx, inputIndex: nat, anchorHex: Text, locked: U64, sha: Bytes -> Hash32, r: Call) {
    && AnchorSpend(tx, inputIndex, anchorHex)
    && DecodedUnlock(tx.vin[0].scriptSig) == Some((r.logicalKey, r.value))
    && r.continuationVout < |tx.vout|
    && locked <= tx.vout[r.continuationVout].amount
    && r.callValue == tx.vout[r.continuationVout].amount - locked
    && (exists e: nat ::
          CallOutputs(tx, anchorHex, r.continuationVout, e) && CommitmentBinds(tx, r.continuationVout, e, sha))
  }

  /** ValidateStatefulCallShape: one pass over the outputs. */
  method ValidateStatefulCallShape(tx: Tx, inputIndex: nat, anchorHex: Text, locked: U64, sha: Bytes -> Hash32)
    returns (r: Option<Call>)
    ensures r.Some? ==> IsCall(tx, inputIndex, anchorHex, locked, sha, r.value)
    ensures r.None? ==> forall c :: !IsCall(tx, inputIndex, anchorHex, locked, sha, c)
  {
    if inputIndex != 0 || |tx.vin| != 2 {
      return None;
    }
    if tx.vin[0].txid == tx.vin[1].txid && tx.vin[0].vout == tx.vin[1].vout {
      return None;
    }
    var anchor := DecodeScriptHexStrict(anchorHex);
    if anchor.None? || !IsStateAnchorScript(anchor.value) {
      return None;
    }
    var unlock := DecodeStatefulKvV1UnlockScript(tx.vin[0].scriptSig);
    if unlock.None? {
      return None;
    }
    var outputs := ScanCallOutputs(tx, anchorHex);
    if outputs.None? {
      return None;
    }
    var (c, e) := outputs.value;
    var amount := tx.vout[c].amount;
    if amount < locked {
      return None;
    }
    var script := DecodeScriptHexStrict(tx.vout[e].scriptPubKey);
    var commitment := ParsedCallScript(script.value).value;
    if commitment.targetInput != 0 || commitment.continuationVout != c {
      return None;
    }
    if commitment.unlockScriptSha256 != sha(tx.vin[0].scriptSig) {
      return None;
    }
    return Some(Call(c, amount - locked, unlock.value.0, unlock.value.1));
  }

  lemma OnlyOpReturnCommits(tx: Tx, i: nat)
    requires i < |tx.vout| && DecodedScript(tx.vout[i].scriptPubKey).Some?
    ensures var script := DecodedScript(tx.vout[i].scriptPubKey).value;
            Commits(tx, i) <==> |script| > 0 && script[0] == OP_RETURN && ParsedCallScript(script).Some?
  {
  }

  /** The output loop: one match, one zero-value envelope, everything decodable. */
  method ScanCallOutputs(tx: Tx, anchorHex: Text) returns (r: Option<(nat, nat)>)
    ensures r.Some? ==> CallOutputs(tx, anchorHex, r.value.0, r.value.1)
    ensures r.None? ==> forall c: nat, e: nat :: !CallOutputs(tx, anchorHex, c, e)
  {
    hide DecodedScript, ParsedCallScript, ScriptHexEqual, ParsedOutputCall;
    var matches, matchIndex := 0, 0;
    var envelopes, envelopeIndex := 0, 0;
    ghost var otherMatch := 0;
    for i := 0 to |tx.vout|
      invariant matches == 0 ==> forall j :: 0 <= j < i ==> !Continues(tx, j, anchorHex)
      invariant matches == 1 ==> forall j :: 0 <= j < i && Continues(tx, j, anchorHex) ==> j == matchIndex
      invariant matches >= 1 ==> matchIndex < i && Continues(tx, matchIndex, anchorHex)
      invariant matches >= 2 ==> otherMatch < matchIndex && Continues(tx, otherMatch, anchorHex)
      invariant forall j :: 0 <= j < i ==> DecodedScript(tx.vout[j].scriptPubKey).Some?
      invariant envelopes <= 1
      invariant envelopes == 0 ==> forall j :: 0 <= j < i ==> !Commits(tx, j)
      invariant envelopes == 1 ==> envelopeIndex < i && tx.vout[envelopeIndex].amount == 0 && Commits(tx, envelopeIndex)
      invariant envelopes == 1 ==> forall j :: 0 <= j < i && Commits(tx, j) ==> j == envelopeIndex
    {
      if Continues(tx, i, anchorHex) {
        otherMatch := matchIndex;
        matches := matches + 1;
        matchIndex := i;
      }
      var script := DecodeScriptHexStrict(tx.vout[i].scriptPubKey);
      if script.None? {
        return None;
      }
      OnlyOpReturnCommits(tx, i);
      if |script.value| == 0 || script.value[0] != OP_RETURN {
        continue;
      }
      var commitment := ParsedCallScript(script.value);
      if commitment.None? {
        continue;
      }
      envelopes := envelopes + 1;
      if envelopes > 1 {
        return None;
      }
      if tx.vout[i].amount != 0 {
        return None;
      }
      envelopeIndex := i;
    }
    if matches != 1 || envelopes != 1 {
      return None;
    }
    return Some((matchIndex, envelopeIndex));
  }

  /** A transaction has at most one reading as a call. */
  lemma CallIsUnique(tx: Tx, inputIndex: nat, anchorHex: Text, locked: U64, sha: Bytes -> Hash32, a: Call, b: Call)
    requires IsCall(tx, inputIndex, anchorHex, locked, sha, a)
    requires IsCall(tx, inputIndex, anchorHex, locked, sha, b)
    ensures a == b
  {
  }

  /** The continuation is locked by the anchor's own script and holds the anchor's
      amount plus the call value, so it can itself be spent by the next call. */
  lemma ContinuationIsAnchor(tx: Tx, inputIndex: nat, anchorHex: Text, locked: U64, sha: Bytes -> Hash32, r: Call)
    requires IsCall(tx, inputIndex, anchorHex, locked, sha, r)
    ensures r.continuationVout < |tx.vout|
    ensures tx.vout[r.continuationVout].amount == locked + r.callValue
    ensures DecodedScript(tx.vout[r.continuationVout].scriptPubKey) == DecodedScript(anchorHex)
  {
    EqualHexSameBytes(tx.vout[r.continuationVout].scriptPubKey, anchorHex);
  }
}
