/** src/contract_state_init_envelope.h: the TRUSTATE creation envelope. Every
    envelope has one encoding and every accepted script is that encoding. */
module InitEnvelope {
  import opened ByteCodec
  import opened StateLimits

  const INIT_VERSION: Byte := 0x01
  const MAX_INIT_PAYLOAD_BYTES: nat := 8192
  const INIT_HEADER_BYTES: nat := 15
  const INIT_MAGIC: Text := "TRUSTATE"

  const OP_0: Byte := 0x00
  const OP_PUSHDATA1: Byte := 0x4c
  const OP_PUSHDATA2: Byte := 0x4d
  const OP_RETURN: Byte := 0x6a

  datatype Entry = Entry(key: Text, value: Bytes)
  datatype Envelope = Envelope(targetVout: U32, entries: seq<Entry>)

  /** std::string operator<: by raw bytes, a proper prefix first. */
  predicate Precedes(a: Text, b: Text) {
    if b == [] then false
    else if a == [] then true
    else a[0] < b[0] || (a[0] == b[0] && Precedes(a[1..], b[1..]))
  }

  predicate StrictlySorted(entries: seq<Entry>) {
    forall i :: 0 < i < |entries| ==> Precedes(entries[i - 1].key, entries[i].key)
  }

  /** The map that inserting the entries in order builds. */
  function StateOf(entries: seq<Entry>): StateMap {
    if entries == [] then map[]
    else
      var last := entries[|entries| - 1];
      StateOf(entries[..|entries| - 1])[last.key := last.value]
  }

  ghost predicate ValidEntries(entries: seq<Entry>) {
    && |entries| <= MAX_KEYS_PER_DOMAIN
    && StrictlySorted(entries)
    && WithinLimits(StateOf(entries))
  }

  lemma {:induction false} PrecedesIrreflexive(a: Text)
    ensures !Precedes(a, a)
  {
    if a != [] {
      PrecedesIrreflexive(a[1..]);
    }
  }

  lemma {:induction false} PrecedesTransitive(a: Text, b: Text, c: Text)
    requires Precedes(a, b) && Precedes(b, c)
    ensures Precedes(a, c)
  {
    if a != [] && a[0] == b[0] == c[0] {
      PrecedesTransitive(a[1..], b[1..], c[1..]);
    }
  }

  /** What decides is the first byte in which the texts differ, or else the length. */
  ghost predicate ComesFirst(a: Text, b: Text, n: nat) {
    && n <= |a| && n < |b| && a[..n] == b[..n]
    && (n == |a| || a[n] < b[n])
  }

  lemma SharedHead(a: Text, b: Text, n: nat)
    requires ComesFirst(a, b, n)
    ensures n == 0 || (a != [] && b != [] && a[0] == b[0])
  {
    if n > 0 {
      assert a[0] == a[..n][0] && b[0] == b[..n][0];
    }
  }

  lemma {:induction false} PrecedesIs(a: Text, b: Text)
    ensures Precedes(a, b) <==> exists n: nat :: ComesFirst(a, b, n)
  {
    if a == [] || b == [] || a[0] != b[0] {
      if Precedes(a, b) {
        assert ComesFirst(a, b, 0);
      }
      forall n: nat | ComesFirst(a, b, n) ensures n == 0 {
        SharedHead(a, b, n);
      }
    } else {
      PrecedesIs(a[1..], b[1..]);
      if Precedes(a, b) {
        var n: nat :| ComesFirst(a[1..], b[1..], n);
        assert a[..n + 1] == [a[0]] + a[1..][..n] && b[..n + 1] == [b[0]] + b[1..][..n];
        assert ComesFirst(a, b, n + 1);
      }
      forall n: nat | ComesFirst(a, b, n) ensures Precedes(a, b) {
        assert n > 0;
        assert a[1..][..n - 1] == a[..n][1..] && b[1..][..n - 1] == b[..n][1..];
        assert ComesFirst(a[1..], b[1..], n - 1);
      }
    }
  }

  lemma {:induction false} SortedApart(entries: seq<Entry>, i: nat, j: nat)
    requires StrictlySorted(entries) && i < j < |entries|
    ensures Precedes(entries[i].key, entries[j].key)
    ensures entries[i].key != entries[j].key
  {
    assert Precedes(entries[j - 1].key, entries[j].key);
    if i < j - 1 {
      SortedApart(entries, i, j - 1);
      PrecedesTransitive(entries[i].key, entries[j - 1].key, entries[j].key);
    }
    PrecedesIrreflexive(entries[i].key);
  }

  lemma PrefixStep(entries: seq<Entry>, i: nat)
    requires i < |entries|
    ensures StateOf(entries[..i + 1]) == StateOf(entries[..i])[entries[i].key := entries[i].value]
  {
    assert entries[..i + 1][..i] == entries[..i];
  }

  lemma {:induction false} KeyIndex(entries: seq<Entry>, k: Text) returns (i: nat)
    requires k in StateOf(entries)
    ensures i < |entries| && entries[i].key == k
  {
    var n := |entries| - 1;
    if entries[n].key == k {
      i := n;
    } else {
      i := KeyIndex(entries[..n], k);
    }
  }

  /** In strictly sorted entries the next key is always new to the map. */
  lemma FreshKey(entries: seq<Entry>, i: nat)
    requires StrictlySorted(entries) && i < |entries|
    ensures entries[i].key !in StateOf(entries[..i])
  {
    if entries[i].key in StateOf(entries[..i]) {
      var j := KeyIndex(entries[..i], entries[i].key);
      SortedApart(entries, j, i);
    }
  }

  /** What strictly sorted entries leave in the map: each of them, once. */
  lemma {:induction false} StateOfSorted(entries: seq<Entry>, i: nat)
    requires StrictlySorted(entries) && i < |entries|
    ensures entries[i].key in StateOf(entries) && StateOf(entries)[entries[i].key] == entries[i].value
  {
    var n := |entries| - 1;
    if i < n {
      StateOfSorted(entries[..n], i);
      SortedApart(entries, i, n);
    }
  }

  lemma {:induction false} StateOfSize(entries: seq<Entry>)
    requires StrictlySorted(entries)
    ensures |StateOf(entries)| == |entries|
  {
    if entries != [] {
      var n := |entries| - 1;
      StateOfSize(entries[..n]);
      FreshKey(entries, n);
      TotalUpdate(StateOf(entries[..n]), entries[n].key, entries[n].value);
    }
  }

  /** A state outside the limits stays outside when a new key is added. */
  lemma FreshKeyKeepsExcess(state: StateMap, key: Text, value: Bytes)
    requires !WithinLimits(state) && key !in state
    ensures !WithinLimits(state[key := value])
  {
    TotalUpdate(state, key, value);
    if !EntriesAllowed(state) {
      var k :| k in state && !(IsLogicalKeyAllowed(k) && IsValueAllowed(state[k]));
      assert k in state[key := value] && state[key := value][k] == state[k];
    }
  }

  lemma {:induction false} PrefixBreaksLimits(entries: seq<Entry>, i: nat)
    requires StrictlySorted(entries) && i <= |entries|
    requires !WithinLimits(StateOf(entries[..i]))
    ensures !WithinLimits(StateOf(entries))
    decreases |entries| - i
  {
    if i == |entries| {
      assert entries[..i] == entries;
    } else {
      PrefixStep(entries, i);
      FreshKey(entries, i);
      FreshKeyKeepsExcess(StateOf(entries[..i]), entries[i].key, entries[i].value);
      PrefixBreaksLimits(entries, i + 1);
    }
  }

  /** ValidateEntries: checking the writes one by one against a scratch map is
      checking the finished map. */
  method ValidateEntries(entries: seq<Entry>) returns (ok: bool)
    ensures ok == ValidEntries(entries)
  {
    if |entries| > MAX_KEYS_PER_DOMAIN || !StrictlySorted(entries) {
      return false;
    }
    var scratch: StateMap := map[];
    assert Weights(map[]) == map[];
    for i := 0 to |entries|
      invariant scratch == StateOf(entries[..i])
      invariant WithinLimits(scratch)
    {
      var key, value := entries[i].key, entries[i].value;
      PrefixStep(entries, i);
      FreshKey(entries, i);
      var resulting := CanApplyStateWrite(scratch, key, value);
      if resulting.None? {
        PrefixBreaksLimits(entries, i + 1);
        return false;
      }
      if key !in scratch {
        scratch := scratch[key := value];
      }
    }
    assert entries[..|entries|] == entries;
    return true;
  }

  lemma ValidEntryFits(entries: seq<Entry>, i: nat)
    requires ValidEntries(entries) && i < |entries|
    ensures 0 < |entries[i].key| <= 128 && |entries[i].value| <= 4096
  {
    StateOfSorted(entries, i);
  }

  // ---- payload ----

  function EncodeEntry(e: Entry): Bytes {
    [|e.key| % 256] + BytesOf(e.key) + Le(|e.value|, 2) + e.value
  }

  function EncodeEntries(entries: seq<Entry>): Bytes {
    if entries == [] then [] else EncodeEntry(entries[0]) + EncodeEntries(entries[1..])
  }

  function EncodeHeader(targetVout: U32, count: nat): (h: Bytes)
    ensures |h| == INIT_HEADER_BYTES
  {
    BytesOf(INIT_MAGIC) + [INIT_VERSION] + Le(targetVout, 4) + Le(count, 2)
  }

  function EncodePayload(e: Envelope): Bytes {
    EncodeHeader(e.targetVout, |e.entries|) + EncodeEntries(e.entries)
  }

  /** The payload of an envelope, when it has one. */
  ghost function BuiltPayload(e: Envelope): Option<Bytes> {
    if ValidEntries(e.entries) && |EncodePayload(e)| <= MAX_INIT_PAYLOAD_BYTES then Some(EncodePayload(e)) else None
  }

  lemma Associative(a: Bytes, b: Bytes, c: Bytes)
    ensures a + (b + c) == a + b + c
  {
  }

  lemma {:induction false} EncodeEntriesAppend(a: seq<Entry>, b: seq<Entry>)
    ensures EncodeEntries(a + b) == EncodeEntries(a) + EncodeEntries(b)
  {
    if a == [] {
      assert a + b == b;
    } else {
      EncodeEntriesAppend(a[1..], b);
      assert (a + b)[1..] == a[1..] + b;
      Associative(EncodeEntry(a[0]), EncodeEntries(a[1..]), EncodeEntries(b));
    }
  }

  lemma EncodeEntriesSnoc(entries: seq<Entry>, i: nat)
    requires i < |entries|
    ensures EncodeEntries(entries[..i + 1]) == EncodeEntries(entries[..i]) + EncodeEntry(entries[i])
    ensures |EncodeEntries(entries[..i + 1])| <= |EncodeEntries(entries)|
  {
    assert entries[..i + 1] == entries[..i] + [entries[i]];
    EncodeEntriesAppend(entries[..i], [entries[i]]);
    assert [entries[i]][1..] == [];
    assert entries == entries[..i + 1] + entries[i + 1..];
    EncodeEntriesAppend(entries[..i + 1], entries[i + 1..]);
  }

  lemma AppendedEntry(out: Bytes, e: Entry)
    requires |e.key| < 256
    ensures out + [|e.key|] + BytesOf(e.key) + Le(|e.value|, 2) + e.value == out + EncodeEntry(e)
  {
  }

  method BuildPayload(e: Envelope) returns (payload: Option<Bytes>)
    ensures payload == BuiltPayload(e)
  {
    if |e.entries| > U16_MAX {
      return None;
    }
    var valid := ValidateEntries(e.entries);
    if !valid {
      return None;
    }
    var out := BytesOf(INIT_MAGIC);
    out := out + [INIT_VERSION];
    out := out + Le(e.targetVout, 4);
    out := out + Le(|e.entries|, 2);
    var header := out;
    for i := 0 to |e.entries|
      invariant header == EncodeHeader(e.targetVout, |e.entries|)
      invariant out == header + EncodeEntries(e.entries[..i])
      invariant |out| <= MAX_INIT_PAYLOAD_BYTES
    {
      var key, value := e.entries[i].key, e.entries[i].value;
      ValidEntryFits(e.entries, i);
      EncodeEntriesSnoc(e.entries, i);
      ghost var before := out;
      out := out + [|key|];
      out := out + BytesOf(key);
      out := out + Le(|value|, 2);
      out := out + value;
      AppendedEntry(before, e.entries[i]);
      Associative(header, EncodeEntries(e.entries[..i]), EncodeEntry(e.entries[i]));
      if |out| > MAX_INIT_PAYLOAD_BYTES {
        return None;
      }
    }
    assert e.entries[..|e.entries|] == e.entries;
    return Some(out);
  }

  // ---- parsing ----

  datatype Parsed<+T> = Rejected | Read(item: T, rest: Bytes)

  /** One length-prefixed entry off the front, with the parser's bounds. */
  function ReadEntry(b: Bytes): Parsed<Entry> {
    if |b| == 0 then Rejected
    else
      var n := b[0];
      if n == 0 || n > MAX_LOGICAL_KEY_BYTES || n > |b| - 1 then Rejected
      else
        var afterKey := b[1 + n..];
        if |afterKey| < 2 then Rejected
        else
          var m := LeValue(afterKey[..2]);
          if m > MAX_VALUE_BYTES || m > |afterKey| - 2 then Rejected
          else Read(Entry(TextOf(b[1..1 + n]), afterKey[2..2 + m]), afterKey[2 + m..])
  }

  /** Exactly count entries and then the end of the bytes. */
  function ReadEntries(b: Bytes, count: nat): Option<seq<Entry>> {
    if count == 0 then (if b == [] then Some([]) else None)
    else
      match ReadEntry(b)
      case Rejected => None
      case Read(e, rest) =>
        var more := ReadEntries(rest, count - 1);
        if more.None? then None else Some([e] + more.value)
  }

  predicate EntryFits(e: Entry) {
    0 < |e.key| <= MAX_LOGICAL_KEY_BYTES && |e.value| <= MAX_VALUE_BYTES
  }

  lemma LeOfU16(m: nat, b: Bytes)
    ensures m <= U16_MAX ==> LeValue(Le(m, 2)) == m
    ensures |b| == 2 ==> Le(LeValue(b), 2) == b
  {
    Pow256Of8();
    if m <= U16_MAX {
      LeDecodesEncoded(m, 2);
    }
    LeEncodesDecoded(b);
  }

  lemma ReadEntryInvertsEncode(e: Entry, rest: Bytes)
    requires EntryFits(e)
    ensures ReadEntry(EncodeEntry(e) + rest) == Read(e, rest)
  {
    var b := EncodeEntry(e) + rest;
    var n := |e.key|;
    TextBytesRoundTrip(e.key, []);
    LeOfU16(|e.value|, []);
    assert b == [n] + BytesOf(e.key) + (Le(|e.value|, 2) + e.value + rest);
    assert b[1..1 + n] == BytesOf(e.key);
    var afterKey := b[1 + n..];
    assert afterKey == Le(|e.value|, 2) + e.value + rest;
    assert afterKey[..2] == Le(|e.value|, 2);
    assert afterKey[2..2 + |e.value|] == e.value;
    assert afterKey[2 + |e.value|..] == rest;
  }

  lemma ReadEntryIsEncoding(b: Bytes)
    requires ReadEntry(b).Read?
    ensures EntryFits(ReadEntry(b).item)
    ensures b == EncodeEntry(ReadEntry(b).item) + ReadEntry(b).rest
  {
    var n := b[0];
    var afterKey := b[1 + n..];
    var m := LeValue(afterKey[..2]);
    TextBytesRoundTrip([], b[1..1 + n]);
    LeOfU16(m, afterKey[..2]);
    assert afterKey == afterKey[..2] + afterKey[2..2 + m] + afterKey[2 + m..];
    assert b == [n] + b[1..1 + n] + afterKey;
  }

  lemma {:induction false} ReadEntriesInvertsEncode(entries: seq<Entry>)
    requires forall i :: 0 <= i < |entries| ==> EntryFits(entries[i])
    ensures ReadEntries(EncodeEntries(entries), |entries|) == Some(entries)
  {
    hide ReadEntry, EncodeEntry, LeValue;
    if entries != [] {
      ReadEntryInvertsEncode(entries[0], EncodeEntries(entries[1..]));
      ReadEntriesInvertsEncode(entries[1..]);
      assert [entries[0]] + entries[1..] == entries;
    }
  }

  lemma {:induction false} ReadEntriesIsEncoding(b: Bytes, count: nat)
    requires ReadEntries(b, count).Some?
    ensures |ReadEntries(b, count).value| == count
    ensures EncodeEntries(ReadEntries(b, count).value) == b
    decreases count
  {
    hide ReadEntry, EncodeEntry, LeValue;
    if count > 0 {
      ReadEntryIsEncoding(b);
      ReadEntriesIsEncoding(ReadEntry(b).rest, count - 1);
    }
  }

  /** What a payload must look like before its entries are read. */
  predicate HeaderAccepted(payload: Bytes) {
    && INIT_HEADER_BYTES <= |payload| <= MAX_INIT_PAYLOAD_BYTES
    && payload[..8] == BytesOf(INIT_MAGIC)
    && payload[8] == INIT_VERSION
    && LeValue(payload[13..15]) <= MAX_KEYS_PER_DOMAIN
  }

  ghost function ParsedPayload(payload: Bytes): Option<Envelope> {
    if !HeaderAccepted(payload) then None
    else
      var entries := ReadEntries(payload[15..], LeValue(payload[13..15]));
      if entries.None? || !ValidEntries(entries.value) then None
      else
        LeOfU32(0, payload[9..13]);
        Some(Envelope(LeValue(payload[9..13]), entries.value))
  }

  lemma LeOfU32(v: nat, b: Bytes)
    ensures v <= U32_MAX ==> LeValue(Le(v, 4)) == v
    ensures |b| == 4 ==> LeValue(b) <= U32_MAX && Le(LeValue(b), 4) == b
  {
    Pow256Of8();
    if v <= U32_MAX {
      LeDecodesEncoded(v, 4);
    }
    LeValueBound(b);
    LeEncodesDecoded(b);
  }

  lemma HeaderFields(targetVout: U32, count: U16, rest: Bytes)
    ensures var b := EncodeHeader(targetVout, count) + rest;
            && b[..8] == BytesOf(INIT_MAGIC) && b[8] == INIT_VERSION
            && LeValue(b[9..13]) == targetVout && LeValue(b[13..15]) == count && b[15..] == rest
  {
    var b := EncodeHeader(targetVout, count) + rest;
    assert b[9..13] == Le(targetVout, 4);
    assert b[13..15] == Le(count, 2);
    assert b[15..] == rest;
    assert b[..8] == BytesOf(INIT_MAGIC);
    LeOfU32(targetVout, []);
    LeOfU16(count, []);
  }

  lemma HeaderOfFields(b: Bytes)
    requires |b| >= 15 && b[..8] == BytesOf(INIT_MAGIC) && b[8] == INIT_VERSION
    ensures LeValue(b[9..13]) <= U32_MAX
    ensures b == EncodeHeader(LeValue(b[9..13]), LeValue(b[13..15])) + b[15..]
  {
    LeOfU32(0, b[9..13]);
    LeOfU16(0, b[13..15]);
    assert b == b[..8] + [b[8]] + b[9..13] + b[13..15] + b[15..];
  }

  lemma BuiltIsParsed(payload: Bytes, e: Envelope)
    requires BuiltPayload(e) == Some(payload)
    ensures ParsedPayload(payload) == Some(e)
  {
    HeaderFields(e.targetVout, |e.entries|, EncodeEntries(e.entries));
    forall i | 0 <= i < |e.entries| ensures EntryFits(e.entries[i]) {
      ValidEntryFits(e.entries, i);
    }
    ReadEntriesInvertsEncode(e.entries);
  }

  lemma ParsedIsBuilt(payload: Bytes, e: Envelope)
    requires ParsedPayload(payload) == Some(e)
    ensures BuiltPayload(e) == Some(payload)
  {
    HeaderOfFields(payload);
    ReadEntriesIsEncoding(payload[15..], LeValue(payload[13..15]));
  }

  /** Single encoding: a payload parses to an envelope exactly when it is that
      envelope's payload. */
  lemma PayloadCodec(payload: Bytes, e: Envelope)
    ensures ParsedPayload(payload) == Some(e) <==> BuiltPayload(e) == Some(payload)
  {
    if BuiltPayload(e) == Some(payload) {
      BuiltIsParsed(payload, e);
    }
    if ParsedPayload(payload) == Some(e) {
      ParsedIsBuilt(payload, e);
    }
  }

  /** The body of the entry loop: one entry read at the cursor. */
  method ReadEntryAt(payload: Bytes, start: nat) returns (entry: Option<Entry>, pc: nat)
    requires start <= |payload|
    ensures entry.None? <==> ReadEntry(payload[start..]).Rejected?
    ensures entry.Some? ==> start < pc <= |payload| && ReadEntry(payload[start..]) == Read(entry.value, payload[pc..])
  {
    hide LeValue;
    ghost var b := payload[start..];
    pc := start;
    if pc >= |payload| {
      return None, pc;
    }
    var keyLen := payload[pc];
    pc := pc + 1;
    if keyLen == 0 || keyLen > MAX_LOGICAL_KEY_BYTES || keyLen > |payload| - pc {
      return None, pc;
    }
    var key := TextOf(payload[pc..pc + keyLen]);
    assert b[1..1 + keyLen] == payload[pc..pc + keyLen];
    pc := pc + keyLen;
    ghost var afterKey := b[1 + keyLen..];
    assert afterKey == payload[pc..];
    if |payload| - pc < 2 {
      return None, pc;
    }
    var valueLen := LeValue(payload[pc..pc + 2]);
    assert afterKey[..2] == payload[pc..pc + 2];
    pc := pc + 2;
    if valueLen > MAX_VALUE_BYTES || valueLen > |payload| - pc {
      return None, pc;
    }
    var value := payload[pc..pc + valueLen];
    assert afterKey[2..2 + valueLen] == value;
    pc := pc + valueLen;
    assert afterKey[2 + valueLen..] == payload[pc..];
    return Some(Entry(key, value)), pc;
  }

  method ParseEntries(payload: Bytes, start: nat, count: nat) returns (entries: Option<seq<Entry>>)
    requires start <= |payload|
    ensures entries == ReadEntries(payload[start..], count)
  {
    hide ReadEntry, LeValue;
    var out: seq<Entry> := [];
    var pc := start;
    ghost var whole := ReadEntries(payload[start..], count);
    assert whole.Some? ==> out + whole.value == whole.value;
    for i := 0 to count
      invariant start <= pc <= |payload|
      invariant var more := ReadEntries(payload[pc..], count - i);
                whole == if more.None? then None else Some(out + more.value)
    {
      var entry, next := ReadEntryAt(payload, pc);
      if entry.None? {
        return None;
      }
      ghost var more := ReadEntries(payload[next..], count - i - 1);
      assert more.Some? ==> out + ([entry.value] + more.value) == out + [entry.value] + more.value;
      out := out + [entry.value];
      pc := next;
    }
    if pc != |payload| {
      return None;
    }
    assert payload[pc..] == [];
    assert out + [] == out;
    return Some(out);
  }

  /** ParsePayload. */
  method ParsePayload(payload: Bytes) returns (parsed: Option<Envelope>)
    ensures parsed == ParsedPayload(payload)
  {
    if |payload| < INIT_HEADER_BYTES || |payload| > MAX_INIT_PAYLOAD_BYTES {
      return None;
    }
    var pc := 0;
    while pc < 8
      invariant 0 <= pc <= 8
      invariant payload[..pc] == BytesOf(INIT_MAGIC)[..pc]
    {
      if payload[pc] != INIT_MAGIC[pc] as int {
        assert payload[..8][pc] != BytesOf(INIT_MAGIC)[pc];
        return None;
      }
      assert payload[..pc + 1] == payload[..pc] + [payload[pc]];
      pc := pc + 1;
    }
    assert BytesOf(INIT_MAGIC)[..8] == BytesOf(INIT_MAGIC);
    if payload[pc] != INIT_VERSION {
      return None;
    }
    LeOfU32(0, payload[9..13]);
    var targetVout := LeValue(payload[9..13]);
    var count := LeValue(payload[13..15]);
    if count > MAX_KEYS_PER_DOMAIN {
      return None;
    }
    var entries := ParseEntries(payload, 15, count);
    if entries.None? {
      return None;
    }
    var valid := ValidateEntries(entries.value);
    if !valid {
      return None;
    }
    return Some(Envelope(targetVout, entries.value));
  }

  // ---- the OP_RETURN script ----

  /** AppendCanonicalPush onto an OP_RETURN byte. */
  function OpReturnScript(payload: Bytes): Bytes {
    [OP_RETURN] +
    (if |payload| <= 0x4b then [|payload|]
     else if |payload| <= 0xff then [OP_PUSHDATA1, |payload|]
     else [OP_PUSHDATA2] + Le(|payload|, 2)) + payload
  }

  method BuildOpReturnScript(e: Envelope) returns (script: Option<Bytes>)
    ensures script == if BuiltPayload(e).Some? then Some(OpReturnScript(BuiltPayload(e).value)) else None
  {
    var payload := BuildPayload(e);
    if payload.None? {
      return None;
    }
    var n := |payload.value|;
    var out := [OP_RETURN];
    if n <= 0x4b {
      out := out + [n];
    } else if n <= 0xff {
      out := out + [OP_PUSHDATA1];
      out := out + [n];
    } else {
      out := out + [OP_PUSHDATA2];
      out := out + Le(n, 2);
    }
    assert [OP_RETURN] + [OP_PUSHDATA1] + [n % 256] == [OP_RETURN] + [OP_PUSHDATA1, n % 256];
    assert [OP_RETURN] + [OP_PUSHDATA2] + Le(n, 2) == [OP_RETURN] + ([OP_PUSHDATA2] + Le(n, 2));
    out := out + payload.value;
    return Some(out);
  }

  /** ExtractCanonicalSinglePush: the payload of an OP_RETURN with one minimal push. */
  function SinglePush(script: Bytes): Option<Bytes> {
    if |script| < 2 || script[0] != OP_RETURN then None
    else
      var opcode := script[1];
      if OP_0 < opcode <= 0x4b then PushOfLength(script, 2, opcode)
      else if opcode == OP_PUSHDATA1 then
        if |script| < 3 || script[2] <= 0x4b then None else PushOfLength(script, 3, script[2])
      else if opcode == OP_PUSHDATA2 then
        if |script| < 4 || LeValue(script[2..4]) <= 0xff then None
        else PushOfLength(script, 4, LeValue(script[2..4]))
      else None
  }

  function PushOfLength(script: Bytes, pc: nat, n: nat): Option<Bytes>
    requires pc <= |script|
  {
    if n == 0 || n > MAX_INIT_PAYLOAD_BYTES || n != |script| - pc then None else Some(script[pc..])
  }

  /** The push reader accepts exactly what the push writer emits. */
  lemma SinglePushExact(script: Bytes, p: Bytes)
    ensures SinglePush(script) == Some(p)
       <==> 0 < |p| <= MAX_INIT_PAYLOAD_BYTES && OpReturnScript(p) == script
  {
    LeOfU16(|p|, []);
    if 0 < |p| <= MAX_INIT_PAYLOAD_BYTES && OpReturnScript(p) == script {
      if |p| <= 0x4b {
        assert script[2..] == p;
      } else if |p| <= 0xff {
        assert script[3..] == p;
      } else {
        assert script[2..4] == Le(|p|, 2);
        assert script[4..] == p;
      }
    }
    if SinglePush(script) == Some(p) {
      if script[1] <= 0x4b {
        assert script == [OP_RETURN, script[1]] + script[2..];
      } else if script[1] == OP_PUSHDATA1 {
        assert script == [OP_RETURN, OP_PUSHDATA1, script[2]] + script[3..];
      } else {
        LeOfU16(0, script[2..4]);
        assert script == [OP_RETURN] + ([OP_PUSHDATA2] + script[2..4]) + script[4..];
      }
    }
  }

  ghost function ParsedScript(script: Bytes): Option<Envelope> {
    var payload := SinglePush(script);
    if payload.None? then None else ParsedPayload(payload.value)
  }

  ghost function BuiltScript(e: Envelope): Option<Bytes> {
    var payload := BuiltPayload(e);
    if payload.None? then None else Some(OpReturnScript(payload.value))
  }

  method ParseOpReturnScript(script: Bytes) returns (parsed: Option<Envelope>)
    ensures parsed == ParsedScript(script)
  {
    var payload := SinglePush(script);
    if payload.None? {
      return None;
    }
    parsed := ParsePayload(payload.value);
  }

  /** TRUSTATE has exactly one encoding: a script parses to an envelope exactly
      when the builder emits that script for that envelope. */
  lemma SingleEncoding(script: Bytes, e: Envelope)
    ensures ParsedScript(script) == Some(e) <==> BuiltScript(e) == Some(script)
  {
    if BuiltScript(e) == Some(script) {
      var payload := BuiltPayload(e).value;
      SinglePushExact(script, payload);
      PayloadCodec(payload, e);
    }
    if ParsedScript(script) == Some(e) {
      var payload := SinglePush(script).value;
      SinglePushExact(script, payload);
      PayloadCodec(payload, e);
    }
  }
}
