/** The transactions that the contract rules are for, written out from their parts: a
    payment, a creation and a call are each classified and read as what they are
    (src/contract_call_policy.h, lines 261-319 and 1079-1436). */
module StandardTransactions {
  import opened ByteCodec
  import opened StateLimits
  import opened InitEnvelope
  import opened CallEnvelope
  import opened PushGrammar
  import opened CallShape
  import opened CreationShape
  import opened Lineage

  /** A script as an output carries it. */
  function Hex(script: Bytes): Text {
    HexEncodeLogicalKey(TextOf(script))
  }

  const ANCHOR: Bytes := [0xf7, 0x51]

  /** OP_DUP OP_HASH160 <hash> OP_EQUALVERIFY OP_CHECKSIG. */
  function PayToHash(hash: Bytes): Bytes
    requires |hash| == 20
  {
    [0x76, 0xa9, 0x14] + hash + [0x88, 0xac]
  }

  function Payment(amount: U64, hash: Bytes): TxOut
    requires |hash| == 20
  {
    TxOut(amount, Hex(PayToHash(hash)))
  }

  /** Whatever the hash holds, a payment does not touch contract state. */
  lemma PaymentIsPlain(amount: U64, hash: Bytes)
    requires |hash| == 20
    ensures KindOf(Payment(amount, hash)) == Plain
  {
    PayToHashScan(hash);
    DecodeInvertsHex(PayToHash(hash));
    hide ScanOf, DecodedScript, ParsedScript, ParsedCallScript, HexEncodeLogicalKey;
  }

  lemma OpcodeFirst(op: Byte, es: seq<Element>)
    requires Writable(Opcode(op)) && AllWritable(es)
    ensures AllWritable([Opcode(op)] + es)
    ensures Written([Opcode(op)] + es) == [op] + Written(es)
    ensures Opcodes([Opcode(op)] + es) == [op] + Opcodes(es)
  {
    assert ([Opcode(op)] + es)[1..] == es;
  }

  lemma PushFirst(e: Element, es: seq<Element>)
    requires Writable(e) && e.Push? && AllWritable(es)
    ensures AllWritable([e] + es)
    ensures Written([e] + es) == WrittenOne(e) + Written(es)
    ensures Opcodes([e] + es) == Opcodes(es)
  {
    assert ([e] + es)[1..] == es;
    assert [] + Opcodes(es) == Opcodes(es);
  }

  lemma PayToHashScan(hash: Bytes)
    requires |hash| == 20
    ensures ScanOf(PayToHash(hash)).valid && !ScanOf(PayToHash(hash)).usesStateDomain
  {
    var es := PayToHashWritten(hash);
    hide ScanOf, Written, Opcodes, Writable, AllWritable, PayToHash;
    ScanOfWritten(es);
  }

  lemma PayToHashWritten(hash: Bytes) returns (es: seq<Element>)
    requires |hash| == 20
    ensures AllWritable(es) && Written(es) == PayToHash(hash) && Opcodes(es) == [0x76, 0xa9, 0x88, 0xac]
  {
    var push := Push(0x14, hash);
    assert Writable(push) && WrittenOne(push) == [0x14] + hash;
    OpcodeFirst(0xac, []);
    OpcodeFirst(0x88, [Opcode(0xac)] + []);
    var last := [Opcode(0x88)] + ([Opcode(0xac)] + []);
    hide Written, Opcodes, WrittenOne, AllWritable;
    PushFirst(push, last);
    OpcodeFirst(0xa9, [push] + last);
    OpcodeFirst(0x76, [Opcode(0xa9)] + ([push] + last));
    es := [Opcode(0x76)] + ([Opcode(0xa9)] + ([push] + last));
    Regroup(hash, Written(last));
  }

  lemma Regroup(hash: Bytes, last: Bytes)
    requires |hash| == 20 && last == [0x88, 0xac]
    ensures [0x76] + ([0xa9] + (([0x14] + hash) + last)) == PayToHash(hash)
  {
  }

  /** A transaction of payments is an ordinary one. */
  lemma PaymentsAreOrdinary(tx: Tx, hashes: seq<Bytes>)
    requires |hashes| == |tx.vout|
    requires forall i :: 0 <= i < |hashes| ==> |hashes[i]| == 20 && tx.vout[i] == Payment(tx.vout[i].amount, hashes[i])
    ensures IsOrdinary(tx)
  {
    hide KindOf;
    forall i | 0 <= i < |tx.vout| ensures KindAt(tx, i) == Plain {
      PaymentIsPlain(tx.vout[i].amount, hashes[i]);
    }
  }

  lemma AnchorKind(amount: U64)
    requires amount > 0
    ensures KindOf(TxOut(amount, Hex(ANCHOR))) == AnchorOut
    ensures DecodedScript(Hex(ANCHOR)) == Some(ANCHOR) && IsStateAnchorScript(ANCHOR)
  {
    AnchorScan();
    DecodeInvertsHex(ANCHOR);
    hide ScanOf, DecodedScript, ParsedScript, ParsedCallScript, HexEncodeLogicalKey;
  }

  lemma AnchorScan()
    ensures ScanOf(ANCHOR).valid && ScanOf(ANCHOR).usesStateDomain
  {
    OpcodeFirst(0x51, []);
    OpcodeFirst(0xf7, [Opcode(0x51)] + []);
    hide ScanOf;
    ScanOfWritten([Opcode(0xf7)] + ([Opcode(0x51)] + []));
  }

  lemma OpReturnHead(payload: Bytes)
    ensures OpReturnScript(payload) != [] && OpReturnScript(payload)[0] == OP_RETURN
  {
  }

  lemma InitKind(e: Envelope, script: Bytes)
    requires BuiltScript(e) == Some(script)
    ensures KindOf(TxOut(0, Hex(script))) == InitOut(e)
  {
    OpReturnHead(BuiltPayload(e).value);
    SingleEncoding(script, e);
    DecodeInvertsHex(script);
    hide ScanOf, DecodedScript, ParsedScript, ParsedCallScript, HexEncodeLogicalKey, BuiltPayload, OpReturnScript;
  }

  lemma CallKind(c: CallCommitment)
    ensures KindOf(TxOut(0, Hex(BuiltCallScript(c)))) == CallOut
    ensures ParsedOutputCall(TxOut(0, Hex(BuiltCallScript(c)))) == Some(c)
  {
    OpReturnHead(CallPayload(c));
    CallSingleEncoding(BuiltCallScript(c), c);
    EnvelopesAreDisjoint(BuiltCallScript(c));
    DecodeInvertsHex(BuiltCallScript(c));
    hide ScanOf, DecodedScript, ParsedScript, ParsedCallScript, HexEncodeLogicalKey, BuiltCallScript;
  }

  ghost predicate AllPlain(outs: seq<TxOut>) {
    forall i :: 0 <= i < |outs| ==> KindOf(outs[i]) == Plain
  }

  lemma TwoThen<T>(a: T, b: T, rest: seq<T>)
    ensures ([a, b] + rest)[0] == a && ([a, b] + rest)[1] == b && ([a, b] + rest)[2..] == rest
    ensures |[a, b] + rest| == 2 + |rest|
  {
  }

  /** What the outputs are, when all but the first two are plain. */
  lemma KindsOf(tx: Tx, change: seq<TxOut>)
    requires |tx.vout| == 2 + |change| && tx.vout[2..] == change && AllPlain(change)
    ensures |tx.vout| >= 2
    ensures forall i :: 2 <= i < |tx.vout| ==> KindAt(tx, i) == Plain
    ensures Anchors(tx, |tx.vout|) == Anchors(tx, 2)
    ensures Inits(tx, |tx.vout|) == Inits(tx, 2)
    ensures Calls(tx, |tx.vout|) == Calls(tx, 2)
  {
    hide KindOf;
    forall i | 2 <= i < |tx.vout| ensures KindAt(tx, i) == Plain {
      assert tx.vout[i] == change[i - 2];
    }
  }

  lemma FirstTwo(tx: Tx)
    requires |tx.vout| >= 2 && KindAt(tx, 0).AnchorOut?
    ensures KindAt(tx, 1).InitOut? ==> Anchors(tx, 2) == {0} && Inits(tx, 2) == {1} && Calls(tx, 2) == {}
    ensures KindAt(tx, 1).CallOut? ==> Anchors(tx, 2) == {0} && Inits(tx, 2) == {} && Calls(tx, 2) == {1}
  {
    hide KindOf;
  }

  /** The creation of a contract: one input, the anchor, its envelope, and change. */
  function CreationOf(input: TxIn, amount: U64, script: Bytes, change: seq<TxOut>): Tx {
    Tx([input], [TxOut(amount, Hex(ANCHOR)), TxOut(0, Hex(script))] + change)
  }

  /** It is accepted as exactly the creation of its envelope's state. */
  lemma CreationIsAccepted(input: TxIn, amount: U64, e: Envelope, script: Bytes, change: seq<TxOut>, family: Family)
    requires amount > 0 && BuiltScript(e) == Some(script) && e.targetVout == 0 && AllPlain(change)
    requires FamilyOf(StateOf(e.entries)) == Some(family)
    ensures IsCreation(CreationOf(input, amount, script, change), family, 0, 1, e, TotalBytes(StateOf(e.entries)))
  {
    CreationKinds(input, amount, e, script, change);
    hide CreationOf, KindAt, BuiltScript, FamilyOf, StateOf, TotalBytes, Anchors, Inits, Calls, AllPlain, Clean, ValidEntries;
  }

  lemma CreationKinds(input: TxIn, amount: U64, e: Envelope, script: Bytes, change: seq<TxOut>)
    requires amount > 0 && BuiltScript(e) == Some(script) && AllPlain(change)
    ensures var tx := CreationOf(input, amount, script, change);
            var n := |tx.vout|;
            && n >= 2 && |tx.vin| == 1 && Clean(tx, n) && KindAt(tx, 1) == InitOut(e)
            && Anchors(tx, n) == {0} && Inits(tx, n) == {1} && Calls(tx, n) == {}
  {
    AnchorKind(amount);
    InitKind(e, script);
    TwoThen(TxOut(amount, Hex(ANCHOR)), TxOut(0, Hex(script)), change);
    hide KindOf, BuiltScript, Hex, Anchors, Inits, Calls, AllPlain, DecodedScript, IsStateAnchorScript;
    var tx := CreationOf(input, amount, script, change);
    KindsOf(tx, change);
    FirstTwo(tx);
  }

  /** A call: the anchor spent with a key and a value, a payer, the continuation, the
      commitment to both, and change. */
  function CallOf(anchor: TxIn, payer: TxIn, amount: U64, hash: Hash32, change: seq<TxOut>): Tx {
    Tx([anchor, payer],
       [TxOut(amount, Hex(ANCHOR)), TxOut(0, Hex(BuiltCallScript(CallCommitment(0, 0, hash))))] + change)
  }

  /** It is accepted as exactly the call of that key and value, worth what it adds to the
      anchor. */
  lemma CallIsAccepted(anchor: TxIn, payer: TxIn, key: Text, value: Bytes, locked: U64, paid: nat, sha: Bytes -> Hash32,
                       change: seq<TxOut>)
    requires BuiltUnlock(key, value) == Some(anchor.scriptSig)
    requires !(anchor.txid == payer.txid && anchor.vout == payer.vout)
    requires 0 < locked + paid <= U64_MAX && AllPlain(change)
    ensures var tx := CallOf(anchor, payer, locked + paid, sha(anchor.scriptSig), change);
            && IsCallCandidate(tx)
            && IsCall(tx, 0, Hex(ANCHOR), locked, sha, CallShape.Call(0, paid, key, value))
  {
    hide IsCallCandidate, IsCall, BuiltUnlock;
    CallIsCandidate(anchor, payer, locked + paid, sha(anchor.scriptSig), change);
    CallReads(anchor, payer, key, value, locked, paid, sha, change);
  }

  lemma CallIsCandidate(anchor: TxIn, payer: TxIn, amount: U64, hash: Hash32, change: seq<TxOut>)
    requires amount > 0 && AllPlain(change)
    ensures IsCallCandidate(CallOf(anchor, payer, amount, hash, change))
  {
    AnchorKind(amount);
    CallKind(CallCommitment(0, 0, hash));
    TwoThen(TxOut(amount, Hex(ANCHOR)), TxOut(0, Hex(BuiltCallScript(CallCommitment(0, 0, hash)))), change);
    hide KindOf, Hex, Anchors, Inits, Calls, AllPlain, BuiltCallScript, DecodedScript, ParsedOutputCall, IsStateAnchorScript;
    var tx := CallOf(anchor, payer, amount, hash, change);
    KindsOf(tx, change);
    FirstTwo(tx);
  }

  lemma CallReads(anchor: TxIn, payer: TxIn, key: Text, value: Bytes, locked: U64, paid: nat, sha: Bytes -> Hash32,
                  change: seq<TxOut>)
    requires BuiltUnlock(key, value) == Some(anchor.scriptSig)
    requires !(anchor.txid == payer.txid && anchor.vout == payer.vout)
    requires 0 < locked + paid <= U64_MAX && AllPlain(change)
    ensures IsCall(CallOf(anchor, payer, locked + paid, sha(anchor.scriptSig), change), 0, Hex(ANCHOR), locked, sha,
                   CallShape.Call(0, paid, key, value))
  {
    var c := CallCommitment(0, 0, sha(anchor.scriptSig));
    AnchorKind(locked + paid);
    CallKind(c);
    UnlockCodec(anchor.scriptSig, key, value);
    hide KindOf, Hex, BuiltUnlock, DecodedUnlock, BuiltCallScript, ParsedOutputCall, DecodedScript, CallOutputs;
    var tx := CallOf(anchor, payer, locked + paid, sha(anchor.scriptSig), change);
    CallOutputsOf(anchor, payer, locked + paid, c.unlockScriptSha256, change);
    assert CommitmentBinds(tx, 0, 1, sha);
  }

  lemma CallOutputsOf(anchor: TxIn, payer: TxIn, amount: U64, hash: Hash32, change: seq<TxOut>)
    requires amount > 0 && AllPlain(change)
    ensures var tx := CallOf(anchor, payer, amount, hash, change);
            && CallOutputs(tx, Hex(ANCHOR), 0, 1)
            && ParsedOutputCall(tx.vout[1]) == Some(CallCommitment(0, 0, hash))
  {
    var c := CallCommitment(0, 0, hash);
    CallKind(c);
    AnchorContinues();
    TwoThen(TxOut(amount, Hex(ANCHOR)), TxOut(0, Hex(BuiltCallScript(c))), change);
    var tx := CallOf(anchor, payer, amount, hash, change);
    CommitmentOutput(tx.vout[1], c);
    AnchorOutput(tx.vout[0]);
    hide CallOf, KindOf, Hex, BuiltCallScript, ScriptHexEqual, ParsedOutputCall, DecodedScript, IsStateAnchorScript;
    forall i | 2 <= i < |tx.vout|
      ensures DecodedScript(tx.vout[i].scriptPubKey).Some? && !Continues(tx, i, Hex(ANCHOR)) && !Commits(tx, i)
    {
      assert tx.vout[i] == tx.vout[2..][i - 2];
      PlainOutput(tx.vout[i]);
    }
  }

  lemma AnchorNotPlain()
    ensures forall out: TxOut :: DecodedScript(out.scriptPubKey) == Some(ANCHOR) ==> KindOf(out) != Plain
  {
    AnchorScan();
    hide ScanOf, DecodedScript;
  }

  lemma AnchorContinues()
    ensures ScriptHexEqual(Hex(ANCHOR), Hex(ANCHOR))
    ensures forall t: Text :: ScriptHexEqual(t, Hex(ANCHOR)) ==> DecodedScript(t) == Some(ANCHOR)
  {
    var hex := Hex(ANCHOR);
    DecodeInvertsHex(ANCHOR);
    forall i | 0 <= i < |hex| ensures HexNibble(hex[i]) >= 0 {
      HexDigitsAreLower(TextOf(ANCHOR), i);
    }
    hide HexNibble, HexBytes, HexEncodeLogicalKey;
    forall t: Text | ScriptHexEqual(t, hex) ensures DecodedScript(t) == Some(ANCHOR) {
      EqualHexSameBytes(t, hex);
    }
  }

  lemma PlainOutput(out: TxOut)
    requires KindOf(out) == Plain
    ensures DecodedScript(out.scriptPubKey).Some?
    ensures ParsedOutputCall(out).None? && !ScriptHexEqual(out.scriptPubKey, Hex(ANCHOR))
  {
    AnchorNotPlain();
    AnchorContinues();
    var tx := Tx([], [out]);
    hide ScriptHexEqual, HexEncodeLogicalKey, ScanOf, ParsedScript;
    OnlyOpReturnCommits(tx, 0);
    hide DecodedScript, ParsedCallScript;
  }

  lemma CommitmentOutput(out: TxOut, c: CallCommitment)
    requires out == TxOut(0, Hex(BuiltCallScript(c)))
    ensures DecodedScript(out.scriptPubKey).Some? && !ScriptHexEqual(out.scriptPubKey, Hex(ANCHOR))
  {
    OpReturnHead(CallPayload(c));
    DecodeInvertsHex(BuiltCallScript(c));
    AnchorContinues();
    hide ScriptHexEqual, HexEncodeLogicalKey, DecodedScript, OpReturnScript;
  }

  lemma AnchorOutput(out: TxOut)
    requires out.scriptPubKey == Hex(ANCHOR)
    ensures DecodedScript(out.scriptPubKey) == Some(ANCHOR) && ParsedOutputCall(out).None?
  {
    DecodeInvertsHex(ANCHOR);
    hide HexEncodeLogicalKey, DecodedScript, ParsedCallScript;
    OnlyOpReturnCommits(Tx([], [out]), 0);
  }

  // ---- and nothing else is ----

  lemma AnchorIs(script: Bytes)
    requires IsStateAnchorScript(script)
    ensures script == ANCHOR
  {
  }

  lemma AnchorMeans(out: TxOut)
    requires KindOf(out).AnchorOut?
    ensures out.amount > 0 && DecodedScript(out.scriptPubKey) == Some(ANCHOR)
  {
    hide DecodedScript, ParsedScript, ParsedCallScript, ScanOf, IsStateAnchorScript;
    AnchorIs(DecodedScript(out.scriptPubKey).value);
  }

  lemma InitMeans(out: TxOut, e: Envelope)
    requires KindOf(out) == InitOut(e)
    ensures out.amount == 0 && DecodedScript(out.scriptPubKey).Some?
    ensures BuiltScript(e) == DecodedScript(out.scriptPubKey)
  {
    hide DecodedScript, ParsedScript, ParsedCallScript, ScanOf, BuiltScript;
    SingleEncoding(DecodedScript(out.scriptPubKey).value, e);
  }

  /** An output that neither runs state opcodes nor carries an envelope. */
  ghost predicate LeavesState(out: TxOut) {
    && DecodedScript(out.scriptPubKey).Some?
    && var script := DecodedScript(out.scriptPubKey).value;
       if script != [] && script[0] == OP_RETURN then ParsedScript(script).None? && ParsedCallScript(script).None?
       else ScanOf(script).valid && !ScanOf(script).usesStateDomain
  }

  lemma PlainMeans(out: TxOut)
    ensures KindOf(out).Plain? <==> LeavesState(out)
  {
    hide DecodedScript, ParsedScript, ParsedCallScript, ScanOf;
  }

  /** Whatever is accepted as a creation has one input, one valued anchor, one envelope
      without value that names it, and otherwise only outputs that leave state alone. */
  lemma CreationMeans(tx: Tx, family: Family, target: nat, initVout: nat, e: Envelope, accounted: nat)
    requires IsCreation(tx, family, target, initVout, e, accounted)
    ensures |tx.vin| == 1 && target < |tx.vout| && initVout < |tx.vout| && target != initVout && e.targetVout == target
    ensures tx.vout[target].amount > 0 && DecodedScript(tx.vout[target].scriptPubKey) == Some(ANCHOR)
    ensures tx.vout[initVout].amount == 0 && DecodedScript(tx.vout[initVout].scriptPubKey).Some?
    ensures BuiltScript(e) == DecodedScript(tx.vout[initVout].scriptPubKey)
    ensures forall i :: 0 <= i < |tx.vout| && i != target && i != initVout ==> LeavesState(tx.vout[i])
  {
    hide KindOf, BuiltScript, FamilyOf, StateOf, TotalBytes, DecodedScript, LeavesState;
    var n := |tx.vout|;
    assert target in Anchors(tx, n) && initVout in Inits(tx, n);
    AnchorMeans(tx.vout[target]);
    InitMeans(tx.vout[initVout], e);
    forall i | 0 <= i < n && i != target && i != initVout ensures LeavesState(tx.vout[i]) {
      PlainMeans(tx.vout[i]);
      assert i !in Anchors(tx, n) && i !in Inits(tx, n) && i !in Calls(tx, n) && !KindAt(tx, i).Disallowed?;
    }
  }

  /** Whatever is accepted as a call spends the anchor with exactly the pushes of its key
      and value, pays the anchor on with what the call is worth, and carries, in a single
      output without value, the commitment to that spending. */
  lemma CallMeans(tx: Tx, inputIndex: nat, anchorHex: Text, locked: U64, sha: Bytes -> Hash32, r: Call) returns (e: nat)
    requires IsCall(tx, inputIndex, anchorHex, locked, sha, r)
    ensures inputIndex == 0 && |tx.vin| == 2 && (tx.vin[0].txid != tx.vin[1].txid || tx.vin[0].vout != tx.vin[1].vout)
    ensures BuiltUnlock(r.logicalKey, r.value) == Some(tx.vin[0].scriptSig)
    ensures r.continuationVout < |tx.vout| && tx.vout[r.continuationVout].amount == locked + r.callValue
    ensures DecodedScript(tx.vout[r.continuationVout].scriptPubKey) == Some(ANCHOR)
    ensures r.continuationVout <= U32_MAX && e < |tx.vout| && tx.vout[e].amount == 0
    ensures DecodedScript(tx.vout[e].scriptPubKey)
         == Some(BuiltCallScript(CallCommitment(0, r.continuationVout, sha(tx.vin[0].scriptSig))))
    ensures forall i, c :: 0 <= i < |tx.vout| && DecodedScript(tx.vout[i].scriptPubKey) == Some(BuiltCallScript(c)) ==> i == e
  {
    hide DecodedScript, ParsedCallScript, BuiltCallScript, DecodedUnlock, BuiltUnlock, ScriptHexEqual, IsStateAnchorScript;
    ContinuationIsAnchor(tx, inputIndex, anchorHex, locked, sha, r);
    UnlockCodec(tx.vin[0].scriptSig, r.logicalKey, r.value);
    AnchorIs(DecodedScript(anchorHex).value);
    e :| CallOutputs(tx, anchorHex, r.continuationVout, e) && CommitmentBinds(tx, r.continuationVout, e, sha);
    CommitsMeans(tx, e);
    forall i, c | 0 <= i < |tx.vout| && DecodedScript(tx.vout[i].scriptPubKey) == Some(BuiltCallScript(c)) ensures i == e {
      CommitsWhen(tx, i, c);
    }
  }

  lemma CommitsMeans(tx: Tx, e: nat)
    requires e < |tx.vout| && Commits(tx, e)
    ensures DecodedScript(tx.vout[e].scriptPubKey) == Some(BuiltCallScript(ParsedOutputCall(tx.vout[e]).value))
  {
    hide DecodedScript, ParsedCallScript, BuiltCallScript;
    CallSingleEncoding(DecodedScript(tx.vout[e].scriptPubKey).value, ParsedOutputCall(tx.vout[e]).value);
  }

  lemma CommitsWhen(tx: Tx, i: nat, c: CallCommitment)
    requires i < |tx.vout| && DecodedScript(tx.vout[i].scriptPubKey) == Some(BuiltCallScript(c))
    ensures Commits(tx, i)
  {
    hide DecodedScript, ParsedCallScript, BuiltCallScript;
    CallSingleEncoding(BuiltCallScript(c), c);
  }
}
