/** src/contract_call_policy.h, lines 43-319: the push-only unlocking scripts of
    state-anchor calls and the push-aware scan of locking scripts. */
module PushGrammar {
  import opened ByteCodec
  import opened StateLimits
  import opened InitEnvelope

  const OP_PUSHDATA4: Byte := 0x4e
  const OP_1: Byte := 0x51
  const OP_STORE: Byte := 0xf7
  const OP_LOAD: Byte := 0xf8
  const OP_MINT_TOKEN: Byte := 0xe0
  const OP_EXTERNALDATA: Byte := 0xf1
  const OP_DATAFEED: Byte := 0xf2
  const OP_DELEGATECHECK: Byte := 0xf3
  const OP_CHECKMULTISIG: Byte := 0xae
  const OP_CHECKMULTISIGVERIFY: Byte := 0xaf

  // ---- canonical push-only scripts ----

  predicate Pushable(item: Bytes) {
    |item| <= U32_MAX
  }

  /** The length-minimal push of an item. */
  function EncodePush(item: Bytes): Bytes
    requires Pushable(item)
  {
    PushPrefix(|item|) + item
  }

  function PushPrefix(n: nat): Bytes
    requires n <= U32_MAX
  {
    if n <= 0x4b then [n]
    else if n <= 0xff then [OP_PUSHDATA1, n]
    else if n <= 0xffff then [OP_PUSHDATA2] + Le(n, 2)
    else [OP_PUSHDATA4] + Le(n, 4)
  }

  ghost function EncodeItems(items: seq<Bytes>): Bytes
    requires forall i :: 0 <= i < |items| ==> Pushable(items[i])
  {
    if items == [] then [] else EncodePush(items[0]) + EncodeItems(items[1..])
  }

  /** One canonical push off the front, as the unlock-script loop reads it. */
  function ReadPush(b: Bytes): Parsed<Bytes> {
    if |b| == 0 then Rejected
    else
      var opcode := b[0];
      if opcode <= 0x4b then TakeItem(b, 1, opcode)
      else if opcode == OP_PUSHDATA1 then
        if |b| < 2 || b[1] <= 0x4b then Rejected else TakeItem(b, 2, b[1])
      else if opcode == OP_PUSHDATA2 then
        if |b| < 3 || LeValue(b[1..3]) <= 0xff then Rejected else TakeItem(b, 3, LeValue(b[1..3]))
      else if opcode == OP_PUSHDATA4 then
        if |b| < 5 || LeValue(b[1..5]) <= 0xffff then Rejected else TakeItem(b, 5, LeValue(b[1..5]))
      else Rejected
  }

  function TakeItem(b: Bytes, pc: nat, n: nat): (r: Parsed<Bytes>)
    requires pc <= |b|
    ensures r.Read? ==> b == b[..pc] + r.item + r.rest && |r.item| == n && |r.rest| == |b| - pc - n
  {
    if n > |b| - pc then Rejected else Read(b[pc..pc + n], b[pc + n..])
  }

  lemma ReadPushInvertsEncode(item: Bytes, rest: Bytes)
    requires Pushable(item)
    ensures ReadPush(EncodePush(item) + rest) == Read(item, rest)
  {
    var n := |item|;
    var p := PushPrefix(n);
    var b := EncodePush(item) + rest;
    LeOfU16(n, []);
    LeOfU32(n, []);
    assert b == p + (item + rest);
    assert b[|p|..|p| + n] == item && b[|p| + n..] == rest;
    assert b[0] == p[0];
    if n <= 0x4b {
    } else if n <= 0xff {
      assert b[1] == p[1];
    } else if n <= 0xffff {
      assert b[1..3] == p[1..3] == Le(n, 2);
    } else {
      assert b[1..5] == p[1..5] == Le(n, 4);
    }
  }

  lemma ReadPushIsEncoding(b: Bytes)
    requires ReadPush(b).Read?
    ensures var r := ReadPush(b); Pushable(r.item) && b == EncodePush(r.item) + r.rest
  {
    var r := ReadPush(b);
    if b[0] <= 0x4b {
      assert b[..1] == [b[0]];
    } else if b[0] == OP_PUSHDATA1 {
      assert b[..2] == [OP_PUSHDATA1, b[1]];
    } else if b[0] == OP_PUSHDATA2 {
      LeOfU16(0, b[1..3]);
      LeValueBound(b[1..3]);
      Pow256Of8();
      assert b[..3] == [OP_PUSHDATA2] + b[1..3];
    } else {
      LeOfU32(0, b[1..5]);
      assert b[..5] == [OP_PUSHDATA4] + b[1..5];
    }
  }

  lemma ReadPushExact(b: Bytes, item: Bytes, rest: Bytes)
    ensures ReadPush(b) == Read(item, rest) <==> Pushable(item) && EncodePush(item) + rest == b
  {
    if ReadPush(b) == Read(item, rest) {
      ReadPushIsEncoding(b);
    } else if Pushable(item) {
      ReadPushInvertsEncode(item, rest);
    }
  }

  lemma ReadPushShrinks(b: Bytes)
    requires ReadPush(b).Read?
    ensures |ReadPush(b).rest| < |b|
  {
  }

  /** The items of a canonical push-only script. */
  function ItemsOf(script: Bytes): Option<seq<Bytes>>
    decreases |script|
  {
    if script == [] then Some([])
    else
      match ReadPush(script)
      case Rejected => None
      case Read(item, rest) =>
        ReadPushShrinks(script);
        var more := ItemsOf(rest);
        if more.None? then None else Some([item] + more.value)
  }

  lemma ItemsStep(b: Bytes)
    ensures ItemsOf(b).Some? <==> b == [] || (ReadPush(b).Read? && ItemsOf(ReadPush(b).rest).Some?)
  {
  }

  /** The push grammar is exact: the accepted scripts are precisely the
      concatenations of minimal pushes, and each has one item list. */
  lemma {:induction false} PushGrammarExact(script: Bytes, items: seq<Bytes>)
    ensures ItemsOf(script) == Some(items)
       <==> (forall i :: 0 <= i < |items| ==> Pushable(items[i])) && EncodeItems(items) == script
    decreases |items|
  {
    if items == [] {
      if script != [] && ItemsOf(script).Some? {
        assert ItemsOf(script).value != [];
      }
    } else {
      if ItemsOf(script) == Some(items) {
        var rest := ReadPush(script).rest;
        assert ItemsOf(rest).value == items[1..];
        PushGrammarExact(rest, items[1..]);
        ReadPushExact(script, items[0], rest);
      }
      if (forall i :: 0 <= i < |items| ==> Pushable(items[i])) && EncodeItems(items) == script {
        var rest := EncodeItems(items[1..]);
        ReadPushExact(script, items[0], rest);
        PushGrammarExact(rest, items[1..]);
        assert [items[0]] + items[1..] == items;
      }
    }
  }

  /** Two item lists with the same script are the same list. */
  lemma PushGrammarUnambiguous(a: seq<Bytes>, b: seq<Bytes>)
    requires forall i :: 0 <= i < |a| ==> Pushable(a[i])
    requires forall i :: 0 <= i < |b| ==> Pushable(b[i])
    requires EncodeItems(a) == EncodeItems(b)
    ensures a == b
  {
    PushGrammarExact(EncodeItems(a), a);
    PushGrammarExact(EncodeItems(a), b);
  }

  /** The opcode and the length bytes of the push at pc: where its item begins, and how
      long it is. */
  method ReadMinimalLength(script: Bytes, start: nat) returns (r: Option<(nat, nat)>)
    requires start < |script|
    ensures r.None? ==> ReadPush(script[start..]).Rejected?
    ensures r.Some? ==> start < r.value.0 <= |script|
                        && ReadPush(script[start..]) == TakeItem(script[start..], r.value.0 - start, r.value.1)
  {
    hide LeValue, TakeItem;
    var opcode := script[start];
    var pc := start + 1;
    ghost var b := script[start..];
    if opcode <= 0x4b {
      return Some((pc, opcode));
    } else if opcode == OP_PUSHDATA1 {
      if pc >= |script| {
        return None;
      }
      var pushLen := script[pc];
      if pushLen <= 0x4b {
        return None;
      }
      return Some((pc + 1, pushLen));
    } else if opcode == OP_PUSHDATA2 {
      if |script| - pc < 2 {
        return None;
      }
      var pushLen := LeValue(script[pc..pc + 2]);
      SliceOfDrop(script, start, 1, 3);
      if pushLen <= 0xff {
        return None;
      }
      return Some((pc + 2, pushLen));
    } else if opcode == OP_PUSHDATA4 {
      if |script| - pc < 4 {
        return None;
      }
      var pushLen := LeValue(script[pc..pc + 4]);
      SliceOfDrop(script, start, 1, 5);
      if pushLen <= 0xffff {
        return None;
      }
      return Some((pc + 4, pushLen));
    }
    return None;
  }

  lemma ItemTaken(script: Bytes, start: nat, pc: nat, n: nat)
    requires start < pc <= |script|
    ensures TakeItem(script[start..], pc - start, n).Read? <==> n <= |script| - pc
    ensures n <= |script| - pc ==> TakeItem(script[start..], pc - start, n).rest == script[pc + n..]
  {
  }

  /** IsCanonicalPushOnlyUnlockScript: one cursor loop over opcodes and lengths. */
  method IsCanonicalPushOnlyUnlockScript(script: Bytes) returns (ok: bool)
    ensures ok == ItemsOf(script).Some?
  {
    hide ItemsOf, ReadPush, TakeItem;
    var pc := 0;
    assert script[0..] == script;
    while pc < |script|
      invariant 0 <= pc <= |script|
      invariant ItemsOf(script).Some? == ItemsOf(script[pc..]).Some?
    {
      ghost var start := pc;
      ItemsStep(script[start..]);
      var length := ReadMinimalLength(script, pc);
      if length.None? {
        return false;
      }
      pc := length.value.0;
      ItemTaken(script, start, pc, length.value.1);
      if length.value.1 > |script| - pc {
        return false;
      }
      pc := pc + length.value.1;
    }
    assert script[pc..] == [];
    ItemsStep([]);
    return true;
  }

  // ---- the two-push unlocking script of a stateful call ----

  /** BuildStatefulKvV1UnlockScript, as a function of its arguments. */
  function BuiltUnlock(key: Text, value: Bytes): Option<Bytes> {
    if IsLogicalKeyAllowed(key) && IsValueAllowed(value) then Some(EncodePush(BytesOf(key)) + EncodePush(value)) else None
  }

  function DecodedUnlock(script: Bytes): Option<(Text, Bytes)> {
    var items := ItemsOf(script);
    if items.None? || |items.value| != 2 then None
    else
      var key := TextOf(items.value[0]);
      if IsLogicalKeyAllowed(key) && IsValueAllowed(items.value[1]) then Some((key, items.value[1])) else None
  }

  /** Decode and build are mutual inverses. */
  lemma UnlockCodec(script: Bytes, key: Text, value: Bytes)
    ensures DecodedUnlock(script) == Some((key, value)) <==> BuiltUnlock(key, value) == Some(script)
  {
    TextBytesRoundTrip(key, []);
    if IsLogicalKeyAllowed(key) && IsValueAllowed(value) {
      var items := [BytesOf(key), value];
      assert items[1..] == [value];
      assert [value][1..] == [];
      assert EncodeItems([value]) == EncodePush(value);
      PushGrammarExact(script, items);
      if DecodedUnlock(script) == Some((key, value)) {
        TextBytesRoundTrip([], ItemsOf(script).value[0]);
        assert ItemsOf(script).value == items;
      }
    }
  }

  /** AppendCanonicalDataPush (items past 65535 bytes are refused). */
  method AppendCanonicalDataPush(script: Bytes, data: Bytes) returns (out: Option<Bytes>)
    ensures out == if |data| <= 0xffff then Some(script + EncodePush(data)) else None
  {
    var n := |data|;
    var s := script;
    if n == 0 {
      s := s + [OP_0];
    } else if n <= 0x4b {
      s := s + [n];
    } else if n <= 0xff {
      s := s + [OP_PUSHDATA1];
      s := s + [n];
    } else if n <= 0xffff {
      s := s + [OP_PUSHDATA2];
      s := s + Le(n, 2);
    } else {
      return None;
    }
    assert s == script + PushPrefix(n);
    assert script + PushPrefix(n) + data == script + (PushPrefix(n) + data);
    s := s + data;
    return Some(s);
  }

  method BuildStatefulKvV1UnlockScript(key: Text, value: Bytes) returns (script: Option<Bytes>)
    ensures script == BuiltUnlock(key, value)
  {
    if !IsLogicalKeyAllowed(key) || !IsValueAllowed(value) {
      return None;
    }
    var first := AppendCanonicalDataPush([], BytesOf(key));
    if first.None? {
      return None;
    }
    var both := AppendCanonicalDataPush(first.value, value);
    if both.None? {
      return None;
    }
    assert [] + EncodePush(BytesOf(key)) == EncodePush(BytesOf(key));
    UnlockCodec(both.value, key, value);
    var canonical := IsCanonicalPushOnlyUnlockScript(both.value);
    if !canonical {
      return None;
    }
    return both;
  }

  /** ReadCanonicalDataPush at a cursor (no four-byte lengths). */
  method ReadCanonicalDataPush(script: Bytes, start: nat) returns (item: Option<Bytes>, pc: nat)
    requires start <= |script|
    ensures item.Some? ==> start < pc <= |script| && ReadPush(script[start..]) == Read(item.value, script[pc..])
    ensures item.None? ==> var r := ReadPush(script[start..]); r.Read? ==> |r.item| > 0xffff
  {
    hide LeValue;
    pc := start;
    if pc >= |script| {
      return None, pc;
    }
    ghost var b := script[start..];
    var opcode := script[pc];
    pc := pc + 1;
    var pushLen := 0;
    if opcode == OP_0 {
      assert b[1..] == script[pc..];
      assert b[1..1] == [];
      return Some([]), pc;
    }
    if opcode <= 0x4b {
      pushLen := opcode;
    } else if opcode == OP_PUSHDATA1 {
      if pc >= |script| {
        return None, pc;
      }
      pushLen := script[pc];
      pc := pc + 1;
      if pushLen <= 0x4b {
        return None, pc;
      }
    } else if opcode == OP_PUSHDATA2 {
      if |script| - pc < 2 {
        return None, pc;
      }
      pushLen := LeValue(script[pc..pc + 2]);
      SliceOfDrop(script, start, 1, 3);
      pc := pc + 2;
      if pushLen <= 0xff {
        return None, pc;
      }
    } else {
      return None, pc;
    }
    if pushLen > |script| - pc {
      return None, pc;
    }
    SliceOfDrop(script, start, pc - start, pc - start + pushLen);
    item := Some(script[pc..pc + pushLen]);
    pc := pc + pushLen;
  }

  /** DecodeStatefulKvV1UnlockScript. */
  method DecodeStatefulKvV1UnlockScript(script: Bytes) returns (call: Option<(Text, Bytes)>)
    ensures call == DecodedUnlock(script)
  {
    var canonical := IsCanonicalPushOnlyUnlockScript(script);
    if !canonical {
      return None;
    }
    assert script[0..] == script;
    var keyBytes, pc := ReadCanonicalDataPush(script, 0);
    if keyBytes.None? {
      assert ItemsOf(script).value != [] ==> ItemsOf(script).value[0] == ReadPush(script).item;
      return None;
    }
    var value, end := ReadCanonicalDataPush(script, pc);
    if value.None? {
      ghost var more := ItemsOf(script[pc..]).value;
      assert ItemsOf(script).value == [keyBytes.value] + more;
      assert more != [] ==> more[0] == ReadPush(script[pc..]).item;
      return None;
    }
    ghost var more := ItemsOf(script[pc..]).value;
    ghost var rest := ItemsOf(script[end..]).value;
    assert ItemsOf(script).value == [keyBytes.value] + more;
    assert more == [value.value] + rest;
    if end != |script| {
      assert rest != [];
      return None;
    }
    assert script[end..] == [];
    assert ItemsOf(script).value == [keyBytes.value, value.value];
    var key := TextOf(keyBytes.value);
    if !IsLogicalKeyAllowed(key) || !IsValueAllowed(value.value) {
      return None;
    }
    return Some((key, value.value));
  }

  // ---- the push-aware scan ----

  datatype Scan = Scan(
    valid: bool, usesStateDomain: bool, usesStoreOrLoad: bool, usesMintToken: bool,
    usesBridgeOpcode: bool, usesExternalData: bool, usesDataFeed: bool,
    usesDelegateCheck: bool, usesUpgradeNop: bool, usesMultisigOpcode: bool)

  predicate IsPushOpcode(op: Byte) {
    OP_0 < op <= 0x4b || op == OP_PUSHDATA1 || op == OP_PUSHDATA2 || op == OP_PUSHDATA4
  }

  predicate IsBridgeOpcode(op: Byte) {
    0xb3 <= op <= 0xba
  }

  predicate IsUpgradeNop(op: Byte) {
    0xbb <= op <= 0xc2
  }

  function LengthBytes(op: Byte): nat {
    if op == OP_PUSHDATA1 then 1 else if op == OP_PUSHDATA2 then 2 else if op == OP_PUSHDATA4 then 4 else 0
  }

  /** ReadPushLength: where the push whose opcode stands just before pc ends. */
  function PushEnd(script: Bytes, pc: nat, op: Byte): (end: Option<nat>)
    requires pc <= |script| && IsPushOpcode(op)
    ensures end.Some? ==> pc + LengthBytes(op) <= end.value <= |script|
  {
    var k := LengthBytes(op);
    if |script| - pc < k then None
    else
      var n := if k == 0 then op else LeValue(script[pc..pc + k]);
      if n > |script| - pc - k then None else Some(pc + k + n)
  }

  /** The bytes that the walk from pc executes, and whether it reached the end. */
  function Executed(script: Bytes, pc: nat): (r: (seq<Byte>, bool))
    requires pc <= |script|
    decreases |script| - pc
  {
    if pc == |script| then ([], true)
    else
      var op := script[pc];
      if IsPushOpcode(op) then
        var end := PushEnd(script, pc + 1, op);
        if end.None? then ([], false) else Executed(script, end.value)
      else
        var rest := Executed(script, pc + 1);
        ([op] + rest.0, rest.1)
  }

  /** The scan's meaning: which opcodes are executed, never what is pushed. */
  ghost function ScanOf(script: Bytes): Scan {
    var (ops, valid) := Executed(script, 0);
    FlagsOf(ops, valid)
  }

  ghost function FlagsOf(ops: seq<Byte>, valid: bool): Scan {
    Scan(
      valid,
      OP_STORE in ops || OP_LOAD in ops || OP_MINT_TOKEN in ops,
      OP_STORE in ops || OP_LOAD in ops,
      OP_MINT_TOKEN in ops,
      exists op :: op in ops && IsBridgeOpcode(op),
      OP_EXTERNALDATA in ops,
      OP_DATAFEED in ops,
      OP_DELEGATECHECK in ops,
      exists op :: op in ops && IsUpgradeNop(op),
      OP_CHECKMULTISIG in ops || OP_CHECKMULTISIGVERIFY in ops)
  }

  /** The flag each executed opcode raises; the opcodes are distinct. */
  function Flagged(r: Scan, op: Byte): Scan {
    if op == OP_STORE || op == OP_LOAD then r.(usesStateDomain := true, usesStoreOrLoad := true)
    else if op == OP_MINT_TOKEN then r.(usesStateDomain := true, usesMintToken := true)
    else if op == OP_EXTERNALDATA then r.(usesExternalData := true)
    else if op == OP_DATAFEED then r.(usesDataFeed := true)
    else if op == OP_DELEGATECHECK then r.(usesDelegateCheck := true)
    else if op == OP_CHECKMULTISIG || op == OP_CHECKMULTISIGVERIFY then r.(usesMultisigOpcode := true)
    else if IsBridgeOpcode(op) then r.(usesBridgeOpcode := true)
    else if IsUpgradeNop(op) then r.(usesUpgradeNop := true)
    else r
  }

  method ScanStatefulContractScript(script: Bytes) returns (r: Scan)
    ensures r == ScanOf(script)
  {
    hide LeValue, PushEnd, FlagsOf, Flagged;
    r := Scan(true, false, false, false, false, false, false, false, false, false);
    NothingFlagged();
    FlagsAndValidity();
    var pc := 0;
    ghost var seen: seq<Byte> := [];
    assert seen + Executed(script, 0).0 == Executed(script, 0).0;
    while pc < |script|
      invariant pc <= |script|
      invariant r == FlagsOf(seen, true)
      invariant var e := Executed(script, pc); Executed(script, 0) == (seen + e.0, e.1)
    {
      var opcode := script[pc];
      pc := pc + 1;
      if IsPushOpcode(opcode) {
        var end := PushEnd(script, pc, opcode);
        if end.None? {
          assert seen + [] == seen;
          r := r.(valid := false);
          return;
        }
        pc := end.value;
        continue;
      }
      r := Flagged(r, opcode);
      FlagsSnoc(seen, opcode);
      assert seen + ([opcode] + Executed(script, pc).0) == seen + [opcode] + Executed(script, pc).0;
      seen := seen + [opcode];
    }
    assert seen + [] == seen;
  }

  lemma NothingFlagged()
    ensures FlagsOf([], true) == Scan(true, false, false, false, false, false, false, false, false, false)
  {
  }

  lemma FlagsAndValidity()
    ensures forall ops :: FlagsOf(ops, false) == FlagsOf(ops, true).(valid := false)
  {
  }

  lemma FlagsSnoc(ops: seq<Byte>, op: Byte)
    ensures FlagsOf(ops + [op], true) == Flagged(FlagsOf(ops, true), op)
  {
    assert forall x :: x in ops + [op] <==> x in ops || x == op;
  }

  function LengthPositions(pc: nat, k: nat): set<nat>
    decreases k
  {
    if k == 0 then {} else {pc} + LengthPositions(pc + 1, k - 1)
  }

  lemma {:induction false} LengthPositionsHas(pc: nat, k: nat, i: nat)
    requires pc <= i < pc + k
    ensures i in LengthPositions(pc, k)
    decreases k
  {
    if i > pc {
      LengthPositionsHas(pc + 1, k - 1, i);
    }
  }

  /** The positions holding opcodes and push lengths, up to a push that overruns. */
  ghost function CodePositions(script: Bytes, pc: nat): set<nat>
    requires pc <= |script|
    decreases |script| - pc
  {
    if pc == |script| then {}
    else
      var op := script[pc];
      if IsPushOpcode(op) then
        var k := LengthBytes(op);
        var here := {pc} + LengthPositions(pc + 1, k);
        var end := PushEnd(script, pc + 1, op);
        if end.None? then here else here + CodePositions(script, end.value)
      else {pc} + CodePositions(script, pc + 1)
  }

  lemma {:induction false} ExecutedIgnoresData(s: Bytes, t: Bytes, pc: nat)
    requires |s| == |t| && pc <= |s|
    requires forall i :: i in CodePositions(s, pc) && i < |s| ==> s[i] == t[i]
    ensures Executed(s, pc) == Executed(t, pc)
    decreases |s| - pc
  {
    if pc < |s| {
      var op := s[pc];
      assert pc in CodePositions(s, pc);
      if IsPushOpcode(op) {
        var k := LengthBytes(op);
        if |s| - (pc + 1) >= k {
          forall i | pc + 1 <= i < pc + 1 + k ensures s[i] == t[i] {
            LengthPositionsHas(pc + 1, k, i);
            assert i in CodePositions(s, pc);
          }
          assert s[pc + 1..pc + 1 + k] == t[pc + 1..pc + 1 + k];
        }
        var end := PushEnd(s, pc + 1, op);
        if end.Some? {
          ExecutedIgnoresData(s, t, end.value);
        }
      } else {
        ExecutedIgnoresData(s, t, pc + 1);
      }
    }
  }

  /** Altering any bytes inside pushed data changes no flag of the scan. */
  lemma ScanIgnoresPushedData(s: Bytes, t: Bytes)
    requires |s| == |t|
    requires forall i :: i in CodePositions(s, 0) && i < |s| ==> s[i] == t[i]
    ensures ScanOf(s) == ScanOf(t)
  {
    ExecutedIgnoresData(s, t, 0);
  }

  // ---- the scan of a script as it was written ----

  /** What a script is written from: opcodes, and pushes of some data behind one of the four
      kinds of push, minimal or not. */
  datatype Element = Opcode(op: Byte) | Push(kind: Byte, item: Bytes)

  predicate Writable(e: Element) {
    match e
    case Opcode(op) => !(0 < op <= 0x4e)
    case Push(kind, item) =>
      || (0 < kind <= 0x4b && |item| == kind)
      || (kind == 0x4c && |item| <= 0xff)
      || (kind == 0x4d && |item| <= 0xffff)
      || (kind == 0x4e && |item| <= 0xffff_ffff)
  }

  predicate AllWritable(es: seq<Element>) {
    forall i :: 0 <= i < |es| ==> Writable(es[i])
  }

  function WrittenOne(e: Element): Bytes
    requires Writable(e)
  {
    match e
    case Opcode(op) => [op]
    case Push(kind, item) =>
      [kind] + (if kind == 0x4c then Le(|item|, 1) else if kind == 0x4d then Le(|item|, 2)
                else if kind == 0x4e then Le(|item|, 4) else []) + item
  }

  function Written(es: seq<Element>): Bytes
    requires AllWritable(es)
  {
    if es == [] then [] else WrittenOne(es[0]) + Written(es[1..])
  }

  function Opcodes(es: seq<Element>): seq<Byte> {
    if es == [] then []
    else (if es[0].Opcode? then [es[0].op] else []) + Opcodes(es[1..])
  }

  /** The minimal push is one way of writing its item. */
  lemma EncodePushIsWritten(item: Bytes)
    requires item != [] && Pushable(item)
    ensures exists kind :: Writable(Push(kind, item)) && WrittenOne(Push(kind, item)) == EncodePush(item)
  {
    var n := |item|;
    var kind: Byte := if n <= 0x4b then n else if n <= 0xff then 0x4c else if n <= 0xffff then 0x4d else 0x4e;
    hide LeValue;
    var e := Push(kind, item);
    assert Writable(e);
    if n <= 0x4b {
      assert [kind] + [] + item == [n] + item;
    } else if n <= 0xff {
      OneByte(n);
      assert [kind] + [n] + item == [kind, n] + item;
    }
    assert WrittenOne(e) == EncodePush(item);
  }

  lemma OneByte(n: nat)
    requires n < 256
    ensures Le(n, 1) == [n]
  {
    assert Le(n / 256, 0) == [];
  }

  /** The walk behind some bytes is the walk of what follows them. */
  lemma {:induction false} ExecutedBehind(front: Bytes, rest: Bytes, pc: nat)
    requires pc <= |rest|
    ensures Executed(front + rest, |front| + pc) == Executed(rest, pc)
    decreases |rest| - pc
  {
    if pc < |rest| {
      var s, op := front + rest, rest[pc];
      assert s[|front| + pc] == op;
      if IsPushOpcode(op) {
        PushEndBehind(front, rest, pc + 1, op);
        var end := PushEnd(rest, pc + 1, op);
        if end.Some? {
          ExecutedBehind(front, rest, end.value);
        }
      } else {
        ExecutedBehind(front, rest, pc + 1);
      }
    }
  }

  lemma PushEndBehind(front: Bytes, rest: Bytes, pc: nat, op: Byte)
    requires pc <= |rest| && IsPushOpcode(op)
    ensures PushEnd(front + rest, |front| + pc, op)
         == var end := PushEnd(rest, pc, op); if end.None? then None else Some(|front| + end.value)
  {
    hide LeValue;
    var k := LengthBytes(op);
    if |rest| - pc >= k {
      assert (front + rest)[|front| + pc..|front| + pc + k] == rest[pc..pc + k];
    }
  }

  lemma PushEndsBehindItem(e: Element, rest: Bytes)
    requires Writable(e) && e.Push?
    ensures IsPushOpcode(e.kind) && (WrittenOne(e) + rest)[0] == e.kind
    ensures PushEnd(WrittenOne(e) + rest, 1, e.kind) == Some(|WrittenOne(e)|)
  {
    hide LeValue, Le;
    Pow256Of8();
    Pow256One();
    var s, k, n := WrittenOne(e) + rest, LengthBytes(e.kind), |e.item|;
    if k == 0 {
      assert s == [e.kind] + e.item + rest;
    } else {
      LeDecodesEncoded(n, k);
      assert s == [e.kind] + Le(n, k) + e.item + rest;
      assert s[1..1 + k] == Le(n, k);
    }
  }

  lemma Pow256One()
    ensures Pow256(1) == 256
  {
    assert Pow256(0) == 1;
  }

  /** A push, whatever it holds, is skipped whole. */
  lemma ScanSkips(e: Element, rest: Bytes)
    requires Writable(e) && e.Push?
    ensures ScanOf(WrittenOne(e) + rest) == ScanOf(rest)
  {
    hide PushEnd, WrittenOne, IsPushOpcode;
    PushEndsBehindItem(e, rest);
    ExecutedBehind(WrittenOne(e), rest, 0);
  }

  /** In particular the minimal push of any item. */
  lemma ScanSkipsMinimalPush(item: Bytes, rest: Bytes)
    requires item != [] && Pushable(item)
    ensures ScanOf(EncodePush(item) + rest) == ScanOf(rest)
  {
    hide EncodePush, ScanOf;
    EncodePushIsWritten(item);
    var kind :| Writable(Push(kind, item)) && WrittenOne(Push(kind, item)) == EncodePush(item);
    ScanSkips(Push(kind, item), rest);
  }

  lemma {:induction false} ExecutedWritten(es: seq<Element>)
    requires AllWritable(es)
    ensures Executed(Written(es), 0) == (Opcodes(es), true)
  {
    hide PushEnd, WrittenOne;
    if es != [] {
      var rest := Written(es[1..]);
      ExecutedWritten(es[1..]);
      ExecutedBehind(WrittenOne(es[0]), rest, 0);
      if es[0].Push? {
        PushEndsBehindItem(es[0], rest);
        assert [] + Opcodes(es[1..]) == Opcodes(es[1..]);
      } else {
        OpcodeWritten(es[0], rest);
      }
    }
  }

  lemma OpcodeWritten(e: Element, rest: Bytes)
    requires Writable(e) && e.Opcode?
    ensures WrittenOne(e) == [e.op] && (WrittenOne(e) + rest)[0] == e.op && !IsPushOpcode(e.op)
  {
  }

  /** The scan of any script as written: valid, with exactly the flags of its opcodes. */
  lemma ScanOfWritten(es: seq<Element>)
    requires AllWritable(es)
    ensures var r, ops := ScanOf(Written(es)), Opcodes(es);
            && r.valid
            && r.usesStateDomain == (0xf7 in ops || 0xf8 in ops || 0xe0 in ops)
            && r.usesStoreOrLoad == (0xf7 in ops || 0xf8 in ops)
            && r.usesMintToken == (0xe0 in ops)
            && r.usesBridgeOpcode == (exists op :: op in ops && 0xb3 <= op <= 0xba)
            && r.usesExternalData == (0xf1 in ops) && r.usesDataFeed == (0xf2 in ops)
            && r.usesDelegateCheck == (0xf3 in ops)
            && r.usesUpgradeNop == (exists op :: op in ops && 0xbb <= op <= 0xc2)
            && r.usesMultisigOpcode == (0xae in ops || 0xaf in ops)
  {
    hide Executed, Written, Opcodes;
    ExecutedWritten(es);
  }

  /** And every script that scans as valid was so written. */
  lemma {:induction false} ValidIsWritten(script: Bytes) returns (es: seq<Element>)
    requires ScanOf(script).valid
    ensures AllWritable(es) && Written(es) == script
    decreases |script|
  {
    if script == [] {
      es := [];
    } else {
      var e, rest := FirstElement(script);
      ExecutedBehind(WrittenOne(e), rest, 0);
      if e.Push? {
        ScanSkips(e, rest);
      } else {
        OpcodeWritten(e, rest);
      }
      var more := ValidIsWritten(rest);
      es := [e] + more;
      assert es[1..] == more;
    }
  }

  lemma FirstElement(script: Bytes) returns (e: Element, rest: Bytes)
    requires script != [] && ScanOf(script).valid
    ensures Writable(e) && script == WrittenOne(e) + rest && |rest| < |script|
  {
    hide LeValue, Le;
    var op := script[0];
    if IsPushOpcode(op) {
      var k := LengthBytes(op);
      var end := PushEnd(script, 1, op).value;
      var item := script[1 + k..end];
      if k > 0 {
        LeEncodesDecoded(script[1..1 + k]);
        LeValueBound(script[1..1 + k]);
        Pow256Of8();
        Pow256One();
      }
      e, rest := Push(op, item), script[end..];
      assert script == [op] + script[1..1 + k] + item + rest;
    } else {
      e, rest := Opcode(op), script[1..];
      assert script == [op] + rest;
    }
  }

  /** IsCanonicalStatefulKvV1Script: OP_STORE OP_1. */
  predicate IsStateAnchorScript(script: Bytes) {
    |script| == 2 && script[0] == OP_STORE && script[1] == OP_1
  }
}
