/** src/contract_call_envelope.h: the TRUCALL commitment that binds a transaction
    to the exact unlocking script of its state anchor. */
module CallEnvelope {
  import opened ByteCodec
  import opened InitEnvelope

  const CALL_MAGIC: Text := "TRUCALL"
  const CALL_VERSION: Byte := 0x01
  const CALL_PAYLOAD_BYTES: nat := 48

  type Hash32 = b: Bytes | |b| == 32 witness seq(32, _ => 0)

  datatype CallCommitment = CallCommitment(targetInput: U32, continuationVout: U32, unlockScriptSha256: Hash32)

  function CallPayload(c: CallCommitment): (payload: Bytes)
    ensures |payload| == CALL_PAYLOAD_BYTES
  {
    BytesOf(CALL_MAGIC) + [CALL_VERSION] + Le(c.targetInput, 4) + Le(c.continuationVout, 4) + c.unlockScriptSha256
  }

  /** ParsePayload of a TRUCALL. */
  function ParsedCallPayload(payload: Bytes): Option<CallCommitment> {
    if |payload| != CALL_PAYLOAD_BYTES || payload[..7] != BytesOf(CALL_MAGIC) || payload[7] != CALL_VERSION then None
    else
      LeOfU32(0, payload[8..12]);
      LeOfU32(0, payload[12..16]);
      Some(CallCommitment(LeValue(payload[8..12]), LeValue(payload[12..16]), payload[16..48]))
  }

  function BuiltCallScript(c: CallCommitment): Bytes {
    OpReturnScript(CallPayload(c))
  }

  function ParsedCallScript(script: Bytes): Option<CallCommitment> {
    var payload := SinglePush(script);
    if payload.None? then None else ParsedCallPayload(payload.value)
  }

  /** A script parses to a commitment exactly when it is that commitment's script. */
  lemma CallSingleEncoding(script: Bytes, c: CallCommitment)
    ensures ParsedCallScript(script) == Some(c) <==> BuiltCallScript(c) == script
  {
    hide LeValue, Le, SinglePush, OpReturnScript;
    var payload := CallPayload(c);
    assert payload[..7] == BytesOf(CALL_MAGIC);
    assert payload[8..12] == Le(c.targetInput, 4);
    assert payload[12..16] == Le(c.continuationVout, 4);
    assert payload[16..48] == c.unlockScriptSha256;
    LeOfU32(c.targetInput, []);
    LeOfU32(c.continuationVout, []);
    SinglePushExact(script, payload);
    if ParsedCallScript(script) == Some(c) {
      var p := SinglePush(script).value;
      SinglePushExact(script, p);
      LeOfU32(0, p[8..12]);
      LeOfU32(0, p[12..16]);
      assert p == p[..7] + [p[7]] + p[8..12] + p[12..16] + p[16..48];
    }
  }

  /** No output can be read as both a creation and a call envelope. */
  lemma EnvelopesAreDisjoint(script: Bytes)
    ensures ParsedCallScript(script).Some? ==> ParsedScript(script).None?
  {
    if ParsedCallScript(script).Some? {
      var p := SinglePush(script).value;
      assert p[..8][3] == p[..7][3] == 'C' as int;
      assert BytesOf(INIT_MAGIC)[3] == 'S' as int;
    }
  }
}
