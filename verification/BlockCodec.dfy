/** src/block.cpp, lines 222-240 and 332-521: the text form of a block. Fields are
    separated by '|', transactions and metadata carry their lengths, so what they
    contain does not matter. The transaction and metadata codecs are parameters. */
module BlockCodec {
  import opened ByteCodec
  import opened Decimals

  const COMMITMENT_HEIGHT: nat := 50_000
  const META_WORD: Text := "METADATA:"
  const MARK: Text := "|" + META_WORD

  type I32 = n: int | -0x8000_0000 <= n < 0x8000_0000

  datatype Block<T, M> = Block(
    version: I32, prevHash: Text, merkleRoot: Text, timestamp: U32, bits: U32, nonce: U64,
    blockHash: Text, chainWork: U64, parentHash: Text, height: I32, transactions: seq<T>, metadata: M)

  /** tru09::active on the height cast to 32 bits. */
  predicate Active(height: I32) {
    (if height < 0 then height + 0x1_0000_0000 else height) >= COMMITMENT_HEIGHT
  }

  // ---- numbers ----

  function IntText(n: int): Text {
    if n < 0 then "-" + Decimal(-n) else Decimal(n)
  }

  function SkipSpaces(t: Text): Text {
    if t != [] && t[0] in {' ', '\t', '\n', 0x0b as char, 0x0c as char, '\r'} then SkipSpaces(t[1..]) else t
  }

  function DigitRun(t: Text): (n: nat)
    ensures n <= |t| && AllDigits(t[..n])
  {
    if t == [] || !IsDigit(t[0]) then 0
    else
      assert t[..1 + DigitRun(t[1..])] == [t[0]] + t[1..][..DigitRun(t[1..])];
      1 + DigitRun(t[1..])
  }

  /** What the standard conversions read off the front of a text: a sign and digits. */
  function Scanned(t: Text): Option<(bool, nat)> {
    var s := SkipSpaces(t);
    var minus := s != [] && s[0] == '-';
    var digits := if s != [] && (s[0] == '-' || s[0] == '+') then s[1..] else s;
    if DigitRun(digits) == 0 then None else Some((minus, DecimalValue(digits[..DigitRun(digits)])))
  }

  /** std::stoi; None is the exception. */
  function Stoi(t: Text): Option<I32> {
    var r := Scanned(t);
    if r.None? then None
    else
      var n := if r.value.0 then -(r.value.1 as int) else r.value.1 as int;
      if -0x8000_0000 <= n < 0x8000_0000 then Some(n) else None
  }

  /** std::stoul and std::stoull: a minus sign negates modulo 2^64. */
  function Stoul(t: Text): Option<U64> {
    var r := Scanned(t);
    if r.None? || r.value.1 > U64_MAX then None
    else if r.value.0 && r.value.1 != 0 then Some(U64_MAX + 1 - r.value.1)
    else Some(r.value.1)
  }

  lemma {:induction false} AllDigitRun(t: Text)
    requires AllDigits(t)
    ensures DigitRun(t) == |t|
  {
    if t != [] {
      AllDigitRun(t[1..]);
    }
  }

  lemma NumbersReadBack(n: nat, i: I32)
    ensures n <= U64_MAX ==> Stoul(Decimal(n)) == Some(n)
    ensures Stoi(IntText(i)) == Some(i)
  {
    DecimalReadsBack(n);
    if i < 0 {
      MinusReadsBack(-(i as int));
    } else {
      DecimalReadsBack(i);
    }
  }

  lemma MinusReadsBack(n: nat)
    ensures Scanned("-" + Decimal(n)) == Some((true, n))
  {
    var d := Decimal(n);
    var t: Text := "-" + d;
    assert t[0] == '-' && t[1..] == d;
    assert SkipSpaces(t) == t;
    AllDigitRun(d);
    assert d[..|d|] == d;
    DecimalDenotes(n);
  }

  lemma DecimalReadsBack(n: nat)
    ensures Scanned(Decimal(n)) == Some((false, n))
  {
    var d := Decimal(n);
    assert IsDigit(d[0]);
    assert SkipSpaces(d) == d;
    AllDigitRun(d);
    assert d[..|d|] == d;
    DecimalDenotes(n);
  }

  // ---- finding things ----

  /** std::string::find of one character. */
  function FindChar(data: Text, c: ByteChar, from: nat): (r: Option<nat>)
    ensures r.Some? ==> from <= r.value < |data| && data[r.value] == c
    decreases |data| - from
  {
    if from >= |data| then None else if data[from] == c then Some(from) else FindChar(data, c, from + 1)
  }

  /** std::string::find of a text. */
  function FindText(data: Text, pattern: Text, from: nat): (r: Option<nat>)
    ensures r.Some? ==> from <= r.value && r.value + |pattern| <= |data| && data[r.value..r.value + |pattern|] == pattern
    decreases |data| - from
  {
    if from + |pattern| > |data| then None
    else if data[from..from + |pattern|] == pattern then Some(from)
    else FindText(data, pattern, from + 1)
  }

  lemma {:induction false} FindCharAfter(data: Text, c: ByteChar, from: nat, skip: Text, rest: Text)
    requires from <= |data| && data[from..] == skip + [c] + rest && c !in skip
    ensures FindChar(data, c, from) == Some(from + |skip|)
    decreases |skip|
  {
    assert data[from] == data[from..][0];
    if skip != [] {
      assert data[from + 1..] == data[from..][1..] == skip[1..] + [c] + rest;
      FindCharAfter(data, c, from + 1, skip[1..], rest);
    }
  }

  predicate Ascending(p: seq<nat>, from: nat, n: nat) {
    && (forall j :: 0 <= j < |p| ==> from <= p[j] < n)
    && (forall j :: 0 < j < |p| ==> p[j - 1] < p[j])
  }

  /** The first k positions of '|' from a given position. */
  function Pipes(data: Text, from: nat, k: nat): (r: seq<nat>)
    ensures |r| <= k
    ensures Ascending(r, from, |data|)
    decreases k
  {
    var p := FindChar(data, '|', from);
    if k == 0 || p.None? then [] else [p.value] + Pipes(data, p.value + 1, k - 1)
  }

  method FindPipes(data: Text, k: nat) returns (positions: seq<nat>)
    ensures positions == Pipes(data, 0, k)
  {
    hide FindChar, Ascending;
    positions := [];
    var pos := 0;
    while |positions| < k && pos < |data|
      invariant |positions| <= k && 0 <= pos <= |data|
      invariant Pipes(data, 0, k) == positions + Pipes(data, pos, k - |positions|)
      decreases k - |positions|
    {
      var p := FindChar(data, '|', pos);
      if p.None? {
        break;
      }
      assert positions + ([p.value] + Pipes(data, p.value + 1, k - |positions| - 1))
          == positions + [p.value] + Pipes(data, p.value + 1, k - |positions| - 1);
      positions := positions + [p.value];
      pos := p.value + 1;
    }
    assert positions + [] == positions;
  }

  /** The text between two delimiters, the first one starting at from. */
  function FieldAt(data: Text, from: nat, p: seq<nat>, i: nat): Text
    requires i < |p| && Ascending(p, from, |data|)
  {
    if i == 0 then data[from..p[0]] else data[p[i - 1] + 1..p[i]]
  }

  function Piped(fields: seq<Text>): Text {
    if fields == [] then [] else fields[0] + "|" + Piped(fields[1..])
  }

  predicate PipeFree(fields: seq<Text>) {
    forall i :: 0 <= i < |fields| ==> '|' !in fields[i]
  }

  /** Delimited fields stand at a position, followed by rest. */
  predicate PipedAt(data: Text, from: nat, fields: seq<Text>, rest: Text) {
    from <= |data| && data[from..] == Piped(fields) + rest
  }

  lemma {:induction false} PipesOfPiped(data: Text, from: nat, fields: seq<Text>, rest: Text)
    requires PipedAt(data, from, fields, rest) && PipeFree(fields)
    ensures var p := Pipes(data, from, |fields|);
            && |p| == |fields|
            && (fields != [] ==> p[|p| - 1] + 1 == from + |Piped(fields)|)
            && forall i :: 0 <= i < |p| ==> FieldAt(data, from, p, i) == fields[i]
    decreases |fields|
  {
    hide FindChar, FieldAt, Piped, Pipes, Ascending, PipedAt;
    NoPipes(data, from);
    if fields != [] {
      var q := from + |fields[0]| + 1;
      FirstField(data, from, fields, rest);
      PipesOfPiped(data, q, fields[1..], rest);
      NextPipe(data, from, q, |fields|);
      Shifted(data, from, q, fields[0], Pipes(data, q, |fields| - 1), fields);
    }
  }

  lemma NoPipes(data: Text, from: nat)
    ensures Pipes(data, from, 0) == [] && |Piped([])| == 0
  {
  }

  lemma NextPipe(data: Text, from: nat, q: nat, k: nat)
    requires k > 0 && q > 0 && FindChar(data, '|', from) == Some(q - 1)
    ensures Pipes(data, from, k) == [q - 1] + Pipes(data, q, k - 1)
  {
    hide FindChar;
  }

  lemma FirstField(data: Text, from: nat, fields: seq<Text>, rest: Text)
    requires fields != [] && PipeFree(fields) && PipedAt(data, from, fields, rest)
    ensures var q := from + |fields[0]| + 1;
            && q <= |data| && FindChar(data, '|', from) == Some(q - 1)
            && data[from..q - 1] == fields[0] && PipedAt(data, q, fields[1..], rest)
            && |Piped(fields)| == |fields[0]| + 1 + |Piped(fields[1..])|
  {
    var f, tail := fields[0], Piped(fields[1..]);
    hide FindChar;
    Grouped(f, ['|'], tail, rest);
    CutAt(data, from, f, '|', tail + rest);
  }

  lemma Grouped(a: Text, b: Text, c: Text, d: Text)
    ensures a + b + c + d == a + (b + (c + d))
  {
  }

  /** A text up to a delimiter, and what follows it. */
  lemma CutAt(data: Text, pos: nat, d: Text, c: ByteChar, rest: Text)
    requires pos <= |data| && data[pos..] == d + ([c] + rest) && c !in d
    ensures var at := pos + |d|;
            && at < |data| && FindChar(data, c, pos) == Some(at) && data[pos..at] == d && data[at + 1..] == rest
  {
    assert d + ([c] + rest) == d + [c] + rest;
    FindCharAfter(data, c, pos, d, rest);
    hide FindChar;
    SliceOfDrop(data, pos, 0, |d|);
    SliceOfDrop(data, pos, 0, |d| + 1);
    assert data[pos..][..|d|] == d;
    assert data[pos..][|d| + 1..] == rest;
  }

  lemma Shifted(data: Text, from: nat, q: nat, f: Text, r: seq<nat>, fields: seq<Text>)
    requires fields != [] && |r| == |fields| - 1 && f == fields[0]
    requires from < q <= |data| && data[from..q - 1] == f && Ascending(r, q, |data|)
    requires forall i :: 0 <= i < |r| ==> FieldAt(data, q, r, i) == fields[1..][i]
    ensures var p := [q - 1] + r;
            Ascending(p, from, |data|) && forall i :: 0 <= i < |p| ==> FieldAt(data, from, p, i) == fields[i]
  {
    var p := [q - 1] + r;
    forall i | 0 <= i < |p| ensures FieldAt(data, from, p, i) == fields[i] {
      if i > 0 {
        assert FieldAt(data, q, r, i - 1) == fields[1..][i - 1];
      }
    }
  }

  // ---- length-prefixed records ----

  /** One transaction and the delimiter that follows it. */
  function Record(t: Text): Text {
    Decimal(|t|) + ":" + t + "|"
  }

  function Records(ts: seq<Text>): Text {
    if ts == [] then [] else Record(ts[0]) + Records(ts[1..])
  }

  /** std::string::substr clamps to the end. */
  function Substr(data: Text, from: nat, len: nat): Text
    requires from <= |data|
  {
    if from + len <= |data| then data[from..from + len] else data[from..]
  }

  /** size_t addition. */
  function WrapAdd(a: nat, b: nat): nat {
    (a + b) % (U64_MAX + 1)
  }

  datatype TxRead<T> = TxThrew | TxGot(txs: seq<T>, pos: nat)

  /** The transaction loop: a missing or overlong length ends it, a bad one throws. */
  function ReadTxs<T>(data: Text, pos: nat, n: nat, decode: Text -> Option<T>): TxRead<T>
    decreases n
  {
    if n == 0 then TxGot([], pos)
    else
      var colon := FindChar(data, ':', pos);
      if colon.None? then TxGot([], pos)
      else
        var len := Stoul(data[pos..colon.value]);
        if len.None? then TxThrew
        else
          var end := WrapAdd(colon.value + 1, len.value);
          if end > |data| then TxGot([], pos)
          else
            var tx := decode(Substr(data, colon.value + 1, len.value));
            if tx.None? then TxThrew
            else
              var more := ReadTxs(data, if end < |data| && data[end] == '|' then end + 1 else end, n - 1, decode);
              if more.TxThrew? then TxThrew else TxGot([tx.value] + more.txs, more.pos)
  }

  method ReadTransactions<T>(data: Text, start: nat, n: nat, decode: Text -> Option<T>) returns (r: TxRead<T>)
    ensures r == ReadTxs(data, start, n, decode)
  {
    hide FindChar, Stoul, WrapAdd, Substr;
    var txs: seq<T> := [];
    var pos: nat := start;
    ghost var whole := ReadTxs(data, start, n, decode);
    assert whole.TxGot? ==> txs + whole.txs == whole.txs;
    for i := 0 to n
      invariant 0 <= pos
      invariant var more := ReadTxs(data, pos, n - i, decode);
                whole == if more.TxThrew? then TxThrew else TxGot(txs + more.txs, more.pos)
    {
      var colon := FindChar(data, ':', pos);
      if colon.None? {
        assert txs + [] == txs;
        return TxGot(txs, pos);
      }
      var len := Stoul(data[pos..colon.value]);
      if len.None? {
        return TxThrew;
      }
      var end := WrapAdd(colon.value + 1, len.value);
      if end > |data| {
        assert txs + [] == txs;
        return TxGot(txs, pos);
      }
      var tx := decode(Substr(data, colon.value + 1, len.value));
      if tx.None? {
        return TxThrew;
      }
      pos := if end < |data| && data[end] == '|' then end + 1 else end;
      ghost var more := ReadTxs(data, pos, n - i - 1, decode);
      assert more.TxGot? ==> txs + ([tx.value] + more.txs) == txs + [tx.value] + more.txs;
      txs := txs + [tx.value];
    }
    assert txs + [] == txs;
    return TxGot(txs, pos);
  }

  /** A prefix up to a colon and what follows it, cut at known lengths. */
  lemma CutAtColon(data: Text, pos: nat, d: Text, t: Text, rest: Text)
    requires pos <= |data| && data[pos..] == d + ([':'] + (t + rest)) && ':' !in d
    ensures var colon := pos + |d|;
            && colon + 1 + |t| <= |data| && FindChar(data, ':', pos) == Some(colon)
            && data[pos..colon] == d && data[colon + 1..colon + 1 + |t|] == t && data[colon + 1 + |t|..] == rest
  {
    hide FindChar;
    CutAt(data, pos, d, ':', t + rest);
    var from := pos + |d| + 1;
    SliceOfDrop(data, from, 0, |t|);
    assert data[from..][..|t|] == t && data[from..][|t|..] == rest;
  }

  /** A length-prefixed text stands at pos. */
  predicate SizedAt(data: Text, pos: nat, t: Text, rest: Text) {
    pos <= |data| <= U64_MAX && data[pos..] == Decimal(|t|) + ([':'] + (t + rest))
  }

  lemma LengthReadsBack(data: Text, pos: nat, t: Text, rest: Text)
    requires SizedAt(data, pos, t, rest)
    ensures var colon := pos + |Decimal(|t|)|;
            && FindChar(data, ':', pos) == Some(colon) && colon + 1 + |t| <= |data|
            && Stoul(data[pos..colon]) == Some(|t|)
            && WrapAdd(colon + 1, |t|) == colon + 1 + |t|
            && Substr(data, colon + 1, |t|) == t
            && data[colon + 1 + |t|..] == rest
  {
    hide Stoul, FindChar, Decimal;
    NoColon(|t|);
    CutAtColon(data, pos, Decimal(|t|), t, rest);
    hide SizedAt;
    NumbersReadBack(|t|, 0);
  }

  lemma NoColon(n: nat)
    ensures ':' !in Decimal(n)
  {
    assert forall d :: d in Decimal(n) ==> IsDigit(d);
  }

  lemma ReadOne<T>(data: Text, pos: nat, n: nat, decode: Text -> Option<T>, t: Text, rest: Text)
    requires n > 0 && pos <= |data| <= U64_MAX && data[pos..] == Record(t) + rest && decode(t).Some?
    ensures var next := pos + |Record(t)|;
            && next <= |data| && data[next..] == rest
            && ReadTxs(data, pos, n, decode)
               == var more := ReadTxs(data, next, n - 1, decode);
                  if more.TxThrew? then TxThrew else TxGot([decode(t).value] + more.txs, more.pos)
  {
    hide FindChar, Stoul, WrapAdd, Substr, Decimal, ReadTxs;
    var d := Decimal(|t|);
    RecordParts(t, rest);
    LengthReadsBack(data, pos, t, ['|'] + rest);
    var end := pos + |d| + 1 + |t|;
    assert data[end] == data[end..][0] == '|';
    assert data[end + 1..] == data[end..][1..] == rest;
    ReadStep(data, pos, n, decode, pos + |d|, |t|, t);
  }

  lemma RecordParts(t: Text, rest: Text)
    ensures Record(t) + rest == Decimal(|t|) + ([':'] + (t + (['|'] + rest)))
    ensures |Record(t)| == |Decimal(|t|)| + |t| + 2
  {
    hide Decimal;
  }

  lemma ReadStep<T>(data: Text, pos: nat, n: nat, decode: Text -> Option<T>, colon: nat, len: U64, t: Text)
    requires n > 0 && FindChar(data, ':', pos) == Some(colon) && Stoul(data[pos..colon]) == Some(len)
    requires WrapAdd(colon + 1, len) == colon + 1 + len < |data| && data[colon + 1 + len] == '|'
    requires Substr(data, colon + 1, len) == t && decode(t).Some?
    ensures ReadTxs(data, pos, n, decode)
            == var more := ReadTxs(data, colon + 2 + len, n - 1, decode);
               if more.TxThrew? then TxThrew else TxGot([decode(t).value] + more.txs, more.pos)
  {
    hide FindChar, Stoul, WrapAdd, Substr;
  }

  /** Whatever the transactions contain, their records read back as they were. */
  lemma {:induction false} RecordsReadBack<T>(data: Text, pos: nat, txs: seq<T>, encode: T -> Text, decode: Text -> Option<T>, rest: Text)
    requires pos <= |data| <= U64_MAX && data[pos..] == Records(Texts(txs, encode)) + rest
    requires forall i :: 0 <= i < |txs| ==> decode(encode(txs[i])) == Some(txs[i])
    ensures pos + |Records(Texts(txs, encode))| <= |data|
    ensures ReadTxs(data, pos, |txs|, decode) == TxGot(txs, pos + |Records(Texts(txs, encode))|)
    decreases |txs|
  {
    hide Record;
    if txs != [] {
      hide ReadTxs;
      var t := encode(txs[0]);
      assert Texts(txs, encode)[1..] == Texts(txs[1..], encode);
      var more := Records(Texts(txs[1..], encode));
      assert data[pos..] == Record(t) + (more + rest);
      ReadOne(data, pos, |txs|, decode, t, more + rest);
      RecordsReadBack(data, pos + |Record(t)|, txs[1..], encode, decode, rest);
      assert [txs[0]] + txs[1..] == txs;
    }
  }

  function Texts<T>(txs: seq<T>, encode: T -> Text): (r: seq<Text>)
    ensures |r| == |txs|
  {
    seq(|txs|, i requires 0 <= i < |txs| => encode(txs[i]))
  }

  // ---- metadata ----

  datatype MetaRead = MetaThrew | MetaAbsent | MetaText(text: Text)

  function ReadMeta(data: Text, start: nat): MetaRead {
    ReadMetaAt(data, FindText(data, MARK, start))
  }

  function ReadMetaAt(data: Text, mark: Option<nat>): MetaRead {
    if mark.None? then MetaAbsent else ReadSized(data, mark.value + 10)
  }

  /** A length, a colon and that many characters. */
  function ReadSized(data: Text, pos: nat): MetaRead {
    var colon := FindChar(data, ':', pos);
    if colon.None? then MetaAbsent
    else
      var len := Stoul(data[pos..colon.value]);
      if len.None? then MetaThrew
      else if WrapAdd(colon.value + 1, len.value) > |data| then MetaAbsent
      else MetaText(Substr(data, colon.value + 1, len.value))
  }

  function MetaTail(m: Text): Text {
    META_WORD + Decimal(|m|) + ":" + m
  }

  // ---- whole blocks ----

  function HeadFields<T, M>(b: Block<T, M>): (fields: seq<Text>)
    ensures |fields| == 11
  {
    [IntText(b.version), b.prevHash, b.merkleRoot, Decimal(b.timestamp), Decimal(b.bits), Decimal(b.nonce),
     b.blockHash, Decimal(b.chainWork), b.parentHash, IntText(b.height), Decimal(|b.transactions|)]
  }

  function Encoded<T, M>(b: Block<T, M>, encodeTx: T -> Text, encodeMeta: M -> Text): Text {
    Piped(HeadFields(b)) + Records(Texts(b.transactions, encodeTx)) + MetaTail(encodeMeta(b.metadata))
  }

  /** The count field and where the first record starts. */
  function CountAndStart(data: Text, p: seq<nat>): Option<(U64, nat)>
    requires |p| >= 10 && Ascending(p, 0, |data|)
  {
    if |p| > 10 then
      var n := Stoul(data[p[9] + 1..p[10]]);
      if n.None? then None else Some((n.value, p[10] + 1))
    else
      var colon := FindChar(data, ':', p[9] + 1);
      var n := Stoul(if colon.None? then data[p[9] + 1..] else data[p[9] + 1..colon.value]);
      if n.None? then None else Some((n.value, if colon.None? then 0 else colon.value + 1))
  }

  /** The eight fixed fields before the count, the transactions still missing. */
  function HeadOf<T, M>(data: Text, p: seq<nat>, metadata: M): Option<Block<T, M>>
    requires |p| >= 10 && Ascending(p, 0, |data|)
  {
    var version := Stoi(FieldAt(data, 0, p, 0));
    var timestamp, bits, nonce := Stoul(FieldAt(data, 0, p, 3)), Stoul(FieldAt(data, 0, p, 4)), Stoul(FieldAt(data, 0, p, 5));
    var chainWork, height := Stoul(FieldAt(data, 0, p, 7)), Stoi(FieldAt(data, 0, p, 9));
    if version.None? || timestamp.None? || bits.None? || nonce.None? || chainWork.None? || height.None? then None
    else
      Some(Block(version.value, FieldAt(data, 0, p, 1), FieldAt(data, 0, p, 2),
                 timestamp.value % (U32_MAX + 1), bits.value % (U32_MAX + 1), nonce.value,
                 FieldAt(data, 0, p, 6), 0, FieldAt(data, 0, p, 8), height.value, [], metadata))
  }

  /** Where the metadata search begins: on the pipe the transaction loop consumed, from
      the activation height on. */
  function MetaStart(height: I32, pos: nat): nat {
    if Active(height) && pos > 0 then pos - 1 else pos
  }

  function Decoded<T, M>(data: Text, decodeTx: (Text, bool) -> Option<T>, decodeMeta: Text -> M, empty: M): Option<Block<T, M>> {
    var p := Pipes(data, 0, 11);
    if |p| < 10 then None
    else
      var head: Option<Block<T, M>> := HeadOf(data, p, empty);
      var count := CountAndStart(data, p);
      if head.None? || count.None? then None
      else
        var height := head.value.height;
        var txs := if count.value.0 == 0 then TxGot([], 0)
                   else ReadTxs(data, count.value.1, count.value.0, t => decodeTx(t, Active(height)));
        if txs.TxThrew? then None
        else
          var meta := ReadMeta(data, MetaStart(height, txs.pos));
          if meta.MetaThrew? then None
          else Some(head.value.(transactions := txs.txs, metadata := if meta.MetaText? then decodeMeta(meta.text) else empty))
  }

  /** One more field; the caller has streamed the delimiter before it. */
  lemma Streamed(out: Text, f: seq<Text>, x: Text)
    requires out == Piped(f)
    ensures out + x + "|" == Piped(f + [x])
  {
    PipedSnoc(f, x);
  }

  method SerializeHeader<T, M>(b: Block<T, M>) returns (out: Text)
    ensures out + "|" == Piped(HeadFields(b)[..6])
  {
    hide Piped, IntText, Decimal;
    out := [];
    ghost var f: seq<Text> := [];
    PipedNothing();
    Streamed(out, f, IntText(b.version));
    out, f := out + IntText(b.version) + "|", f + [IntText(b.version)];
    Streamed(out, f, b.prevHash);
    out, f := out + b.prevHash + "|", f + [b.prevHash];
    Streamed(out, f, b.merkleRoot);
    out, f := out + b.merkleRoot + "|", f + [b.merkleRoot];
    Streamed(out, f, Decimal(b.timestamp));
    out, f := out + Decimal(b.timestamp) + "|", f + [Decimal(b.timestamp)];
    Streamed(out, f, Decimal(b.bits));
    out, f := out + Decimal(b.bits) + "|", f + [Decimal(b.bits)];
    Streamed(out, f, Decimal(b.nonce));
    out, f := out + Decimal(b.nonce), f + [Decimal(b.nonce)];
    assert f == HeadFields(b)[..6];
  }

  lemma PipedNothing()
    ensures Piped([]) == []
  {
  }

  method Serialize<T, M>(b: Block<T, M>, encodeTx: T -> Text, encodeMeta: M -> Text) returns (data: Text)
    ensures data == Encoded(b, encodeTx, encodeMeta)
  {
    hide Piped, IntText, Decimal, Records, Record;
    var out: Text := SerializeHeader(b);
    ghost var f := HeadFields(b)[..6];
    out := out + "|";
    Streamed(out, f, b.blockHash);
    out, f := out + b.blockHash + "|", f + [b.blockHash];
    Streamed(out, f, Decimal(b.chainWork));
    out, f := out + Decimal(b.chainWork) + "|", f + [Decimal(b.chainWork)];
    Streamed(out, f, b.parentHash);
    out, f := out + b.parentHash + "|", f + [b.parentHash];
    Streamed(out, f, IntText(b.height));
    out, f := out + IntText(b.height) + "|", f + [IntText(b.height)];
    Streamed(out, f, Decimal(|b.transactions|));
    out, f := out + Decimal(|b.transactions|), f + [Decimal(|b.transactions|)];
    assert f == HeadFields(b);
    ghost var head := Piped(f);
    ghost var texts := Texts(b.transactions, encodeTx);
    NoRecords();
    for i := 0 to |b.transactions|
      invariant out + "|" == head + Records(texts[..i])
    {
      var txData := encodeTx(b.transactions[i]);
      RecordsSnoc(texts, i);
      RecordStreamed(out, txData);
      ghost var before := out + "|";
      out := out + "|" + Decimal(|txData|) + ":" + txData;
      assert before + Record(txData) == head + (Records(texts[..i]) + Record(txData));
    }
    assert texts[..|texts|] == texts;
    var metadataStr := encodeMeta(b.metadata);
    MetaStreamed(out, metadataStr);
    data := out + MARK + Decimal(|metadataStr|) + ":" + metadataStr;
  }

  lemma NoRecords()
    ensures Records([]) == []
  {
  }

  lemma Regrouped(x: Text, b: Text, c: Text, d: Text, e: Text)
    ensures x + b + c + d + e == x + (b + c + d + e)
  {
  }

  lemma RecordStreamed(out: Text, t: Text)
    ensures out + "|" + Decimal(|t|) + ":" + t + "|" == out + "|" + Record(t)
  {
    hide Decimal;
    Regrouped(out + "|", Decimal(|t|), ":", t, "|");
  }

  lemma MetaStreamed(out: Text, m: Text)
    ensures out + MARK + Decimal(|m|) + ":" + m == out + "|" + MetaTail(m)
  {
    hide Decimal;
    WordStreamed(out, META_WORD, Decimal(|m|), m);
  }

  lemma WordStreamed(out: Text, word: Text, d: Text, m: Text)
    ensures out + ("|" + word) + d + ":" + m == out + "|" + (word + d + ":" + m)
  {
    assert out + ("|" + word) == out + "|" + word;
    Regrouped(out + "|", word, d, ":", m);
  }

  lemma {:induction false} PipedSnoc(f: seq<Text>, x: Text)
    ensures Piped(f + [x]) == Piped(f) + x + "|"
  {
    if f == [] {
      assert (f + [x])[1..] == [];
    } else {
      PipedSnoc(f[1..], x);
      assert (f + [x])[1..] == f[1..] + [x];
    }
  }

  lemma RecordsSnoc(ts: seq<Text>, i: nat)
    requires i < |ts|
    ensures Records(ts[..i + 1]) == Records(ts[..i]) + Record(ts[i])
  {
    assert ts[..i + 1] == ts[..i] + [ts[i]];
    RecordsAppend(ts[..i], ts[i]);
  }

  lemma {:induction false} RecordsAppend(ts: seq<Text>, t: Text)
    ensures Records(ts + [t]) == Records(ts) + Record(t)
  {
    hide Record;
    if ts == [] {
      assert (ts + [t])[1..] == [];
    } else {
      RecordsAppend(ts[1..], t);
      assert (ts + [t])[1..] == ts[1..] + [t];
    }
  }

  method Deserialize<T, M>(data: Text, decodeTx: (Text, bool) -> Option<T>, decodeMeta: Text -> M, empty: M)
    returns (r: Option<Block<T, M>>)
    ensures r == Decoded(data, decodeTx, decodeMeta, empty)
  {
    hide Stoul, Stoi, FindChar, FindText, ReadTxs, ReadMeta, Active;
    if data == [] {
      NoPipesInNothing();
      return None;
    }
    var p := FindPipes(data, 11);
    if |p| < 10 {
      return None;
    }
    var head: Option<Block<T, M>> := HeadOf(data, p, empty);
    if head.None? {
      return None;
    }
    var count := CountAndStart(data, p);
    if count.None? {
      return None;
    }
    var block, currentPos := head.value, 0;
    if count.value.0 > 0 {
      var height := block.height;
      var txs := ReadTransactions(data, count.value.1, count.value.0, t => decodeTx(t, Active(height)));
      if txs.TxThrew? {
        return None;
      }
      block, currentPos := block.(transactions := txs.txs), txs.pos;
    }
    var meta := ReadMeta(data, MetaStart(block.height, currentPos));
    if meta.MetaThrew? {
      return None;
    }
    if meta.MetaText? {
      block := block.(metadata := decodeMeta(meta.text));
    }
    return Some(block);
  }

  lemma NoPipesInNothing()
    ensures Pipes([], 0, 11) == []
  {
  }

  // ---- round trips ----

  predicate HashesPipeFree<T, M>(b: Block<T, M>) {
    '|' !in b.prevHash && '|' !in b.merkleRoot && '|' !in b.blockHash && '|' !in b.parentHash
  }

  /** The given codecs read back what this block holds. */
  ghost predicate CodecsInvert<T, M>(b: Block<T, M>, encodeTx: T -> Text, encodeMeta: M -> Text,
                                     decodeTx: (Text, bool) -> Option<T>, decodeMeta: Text -> M) {
    && (forall i :: 0 <= i < |b.transactions| ==>
          decodeTx(encodeTx(b.transactions[i]), Active(b.height)) == Some(b.transactions[i]))
    && decodeMeta(encodeMeta(b.metadata)) == b.metadata
  }

  lemma DigitsHaveNoPipe(n: nat, i: int)
    ensures '|' !in Decimal(n) && '|' !in IntText(i)
  {
    assert forall d :: d in Decimal(n) ==> IsDigit(d);
    if i < 0 {
      assert forall d :: d in Decimal(-i) ==> IsDigit(d);
    } else {
      assert forall d :: d in Decimal(i) ==> IsDigit(d);
    }
  }

  lemma HeadPipeFree<T, M>(b: Block<T, M>)
    requires HashesPipeFree(b)
    ensures PipeFree(HeadFields(b))
  {
    hide Decimal, IntText;
    DigitsHaveNoPipe(b.timestamp, b.version);
    DigitsHaveNoPipe(b.bits, b.height);
    DigitsHaveNoPipe(b.nonce, 0);
    DigitsHaveNoPipe(b.chainWork, 0);
    DigitsHaveNoPipe(|b.transactions|, 0);
  }

  /** The eleven delimited fields read back as texts, */
  lemma FieldsReadBack<T, M>(b: Block<T, M>, data: Text, rest: Text)
    requires HashesPipeFree(b) && data == Piped(HeadFields(b)) + rest
    ensures var p := Pipes(data, 0, 11);
            && |p| == 11 && p[10] + 1 == |Piped(HeadFields(b))|
            && forall i :: 0 <= i < 11 ==> FieldAt(data, 0, p, i) == HeadFields(b)[i]
  {
    HeadPipeFree(b);
    hide Piped, Pipes, PipeFree, IntText, Decimal, FieldAt;
    assert data[0..] == data;
    PipesOfPiped(data, 0, HeadFields(b), rest);
  }

  /** and then as numbers. */
  lemma HeadReadsBack<T, M>(b: Block<T, M>, data: Text, p: seq<nat>, empty: M)
    requires |b.transactions| <= U64_MAX && |p| == 11 && Ascending(p, 0, |data|)
    requires forall i :: 0 <= i < 11 ==> FieldAt(data, 0, p, i) == HeadFields(b)[i]
    ensures HeadOf(data, p, empty) == Some(b.(chainWork := 0, transactions := [], metadata := empty))
    ensures CountAndStart(data, p) == Some((|b.transactions|, p[10] + 1))
  {
    hide Stoul, Stoi, IntText, Decimal;
    var f := HeadFields(b);
    assert data[p[9] + 1..p[10]] == FieldAt(data, 0, p, 10) == f[10];
    hide FieldAt;
    NumbersReadBack(b.timestamp, b.version);
    NumbersReadBack(b.bits, b.height);
    NumbersReadBack(b.nonce, 0);
    NumbersReadBack(b.chainWork, 0);
    NumbersReadBack(|b.transactions|, 0);
  }

  lemma CutMark(data: Text, start: nat, mark: Text, d: Text, m: Text)
    requires start <= |data| && data[start..] == mark + d + ":" + m
    ensures start + |mark| <= |data| && data[start..start + |mark|] == mark
    ensures data[start + |mark|..] == d + ([':'] + (m + []))
  {
    SliceOfDrop(data, start, 0, |mark|);
    assert data[start..][..|mark|] == mark;
    assert data[start..][|mark|..] == d + ([':'] + (m + []));
  }

  lemma SizedReadsBack(data: Text, pos: nat, m: Text, rest: Text)
    requires SizedAt(data, pos, m, rest)
    ensures ReadSized(data, pos) == MetaText(m)
  {
    hide Stoul, FindChar, Decimal, WrapAdd, Substr, ReadSized, SizedAt;
    LengthReadsBack(data, pos, m, rest);
    SizedStep(data, pos, pos + |Decimal(|m|)|, |m|, m);
  }

  lemma SizedStep(data: Text, pos: nat, colon: nat, len: U64, t: Text)
    requires FindChar(data, ':', pos) == Some(colon)
    requires Stoul(data[pos..colon]) == Some(len)
    requires WrapAdd(colon + 1, len) <= |data| && Substr(data, colon + 1, len) == t
    ensures ReadSized(data, pos) == MetaText(t)
  {
    hide Stoul, FindChar, WrapAdd, Substr;
  }

  predicate MatchAt(data: Text, i: nat) {
    i + 10 <= |data| && data[i..i + 10] == MARK
  }

  lemma FoundHere(data: Text, at: nat)
    requires MatchAt(data, at)
    ensures FindText(data, MARK, at) == Some(at)
  {
    MarkLength();
  }

  lemma MetaReadsBack(data: Text, start: nat, m: Text)
    requires start <= |data| <= U64_MAX && data[start..] == MARK + Decimal(|m|) + ":" + m
    ensures FindText(data, MARK, start) == Some(start)
    ensures ReadMeta(data, start) == MetaText(m)
  {
    hide Decimal, FindText, ReadSized;
    MarkLength();
    CutMark(data, start, MARK, Decimal(|m|), m);
    FoundHere(data, start);
    SizedReadsBack(data, start + 10, m, []);
  }

  lemma MarkLength()
    ensures |MARK| == 10 && |META_WORD| == 9 && MARK[0] == '|' && MARK[1..] == META_WORD
    ensures '|' !in META_WORD
  {
  }

  /** From where the transaction records end, the tail with the pipe just consumed. */
  lemma TailAt<T, M>(b: Block<T, M>, encodeTx: T -> Text, encodeMeta: M -> Text, data: Text, n: nat)
    requires data == Encoded(b, encodeTx, encodeMeta)
    requires n == |Piped(HeadFields(b))| + |Records(Texts(b.transactions, encodeTx))|
    ensures 0 < n <= |data| && data[n - 1..] == MARK + Decimal(|encodeMeta(b.metadata)|) + ":" + encodeMeta(b.metadata)
    ensures data[n..] == MetaTail(encodeMeta(b.metadata))
  {
    var head, records, m := Piped(HeadFields(b)), Records(Texts(b.transactions, encodeTx)), encodeMeta(b.metadata);
    EndsInPipe(HeadFields(b), Texts(b.transactions, encodeTx));
    hide Decimal, Piped, Records, HeadFields, Texts;
    CutTail(head + records, MetaTail(m));
    WordStreamed([], META_WORD, Decimal(|m|), m);
  }

  lemma CutTail(body: Text, tail: Text)
    requires body != [] && body[|body| - 1] == '|'
    ensures var n := |body|; (body + tail)[n - 1..] == ['|'] + tail && (body + tail)[n..] == tail
  {
  }

  lemma EndsInPipe(f: seq<Text>, ts: seq<Text>)
    requires f != []
    ensures var body := Piped(f) + Records(ts); body != [] && body[|body| - 1] == '|'
  {
    PipedEnds(f);
    RecordsEnds(ts);
  }

  lemma {:induction false} PipedEnds(f: seq<Text>)
    requires f != []
    ensures Piped(f) != [] && Piped(f)[|Piped(f)| - 1] == '|'
  {
    if |f| > 1 {
      PipedEnds(f[1..]);
    } else {
      assert f[1..] == [];
    }
  }

  lemma {:induction false} RecordsEnds(ts: seq<Text>)
    ensures ts != [] ==> Records(ts) != [] && Records(ts)[|Records(ts)| - 1] == '|'
  {
    hide Decimal;
    if |ts| > 1 {
      RecordsEnds(ts[1..]);
    } else if |ts| == 1 {
      assert ts[1..] == [];
    }
  }

  ghost predicate Setting<T, M>(b: Block<T, M>, encodeTx: T -> Text, encodeMeta: M -> Text,
                                decodeTx: (Text, bool) -> Option<T>, decodeMeta: Text -> M) {
    && HashesPipeFree(b) && CodecsInvert(b, encodeTx, encodeMeta, decodeTx, decodeMeta)
    && |b.transactions| <= U64_MAX && |Encoded(b, encodeTx, encodeMeta)| <= U64_MAX
  }

  /** Everything but the metadata, for every block. */
  lemma BodyReadsBack<T, M>(b: Block<T, M>, encodeTx: T -> Text, encodeMeta: M -> Text,
                            decodeTx: (Text, bool) -> Option<T>, decodeMeta: Text -> M, empty: M)
    requires Setting(b, encodeTx, encodeMeta, decodeTx, decodeMeta)
    ensures var data := Encoded(b, encodeTx, encodeMeta);
            var n := |Piped(HeadFields(b))| + |Records(Texts(b.transactions, encodeTx))|;
            var meta := ReadMeta(data, MetaStart(b.height, if b.transactions == [] then 0 else n));
            Decoded(data, decodeTx, decodeMeta, empty)
            == if meta.MetaThrew? then None
               else Some(b.(chainWork := 0, metadata := if meta.MetaText? then decodeMeta(meta.text) else empty))
  {
    var data := Encoded(b, encodeTx, encodeMeta);
    var head, records, m := Piped(HeadFields(b)), Records(Texts(b.transactions, encodeTx)), encodeMeta(b.metadata);
    hide Piped, Records, Pipes, HeadOf, CountAndStart, ReadTxs, ReadMeta, MetaTail, HeadFields, Texts, Active;
    assert data == head + (records + MetaTail(m));
    FieldsReadBack(b, data, records + MetaTail(m));
    HeadReadsBack(b, data, Pipes(data, 0, 11), empty);
    assert data[|head|..] == records + MetaTail(m);
    RecordsReadBack(data, |head|, b.transactions, encodeTx, t => decodeTx(t, Active(b.height)), MetaTail(m));
  }

  /** From the activation height on a block with transactions survives serialization
      whole, whatever its transactions contain; only the legacy work field is reset. */
  lemma BlockRoundTrip<T, M>(b: Block<T, M>, encodeTx: T -> Text, encodeMeta: M -> Text,
                             decodeTx: (Text, bool) -> Option<T>, decodeMeta: Text -> M, empty: M)
    requires Setting(b, encodeTx, encodeMeta, decodeTx, decodeMeta)
    requires Active(b.height) && b.transactions != []
    ensures Decoded(Encoded(b, encodeTx, encodeMeta), decodeTx, decodeMeta, empty) == Some(b.(chainWork := 0))
  {
    var data := Encoded(b, encodeTx, encodeMeta);
    hide Encoded, Piped, Records, ReadMeta, Decoded;
    var n := |Piped(HeadFields(b))| + |Records(Texts(b.transactions, encodeTx))|;
    TailAt(b, encodeTx, encodeMeta, data, n);
    MetaReadsBack(data, n - 1, encodeMeta(b.metadata));
    BodyReadsBack(b, encodeTx, encodeMeta, decodeTx, decodeMeta, empty);
  }
}
