/** src/block.cpp, lines 476-521: when the metadata of a block survive. The search for the
    mark starts too late below the activation height and at the very front of a block
    without transactions; both failures are given with their exact conditions. */
module BlockMetadata {
  import opened ByteCodec
  import opened Decimals
  import opened BlockCodec

  lemma NoMatchAt(data: Text, i: nat)
    requires i + 10 <= |data|
    ensures MatchAt(data, i) <==> data[i] == '|' && data[i + 1..i + 10] == META_WORD
  {
    MarkLength();
    var s := data[i..i + 10];
    assert s == [data[i]] + data[i + 1..i + 10];
    assert MARK == [MARK[0]] + MARK[1..];
  }

  lemma NoRoom(data: Text, at: nat)
    requires at + 10 > |data|
    ensures FindText(data, MARK, at) == None
  {
    MarkLength();
  }

  lemma SkipOne(data: Text, at: nat)
    requires !MatchAt(data, at)
    ensures FindText(data, MARK, at) == FindText(data, MARK, at + 1)
  {
    MarkLength();
  }

  lemma {:induction false} FindSkips(data: Text, from: nat, to: nat)
    requires from <= to
    requires forall i :: from <= i < to ==> !MatchAt(data, i)
    ensures FindText(data, MARK, from) == FindText(data, MARK, to)
    decreases (to as int) - (from as int)
  {
    hide FindText, MatchAt;
    if from < to {
      SkipOne(data, from);
      FindSkips(data, from + 1, to);
    }
  }

  /** What the block is given after its fields and transactions were read. */
  function WithMeta<T, M>(b: Block<T, M>, meta: MetaRead, decodeMeta: Text -> M, empty: M): Option<Block<T, M>> {
    if meta.MetaThrew? then None
    else Some(b.(chainWork := 0, metadata := if meta.MetaText? then decodeMeta(meta.text) else empty))
  }

  /** What was read gives back the metadata that were written. */
  ghost predicate Restores<M>(meta: MetaRead, decodeMeta: Text -> M, empty: M, metadata: M) {
    match meta
    case MetaThrew => false
    case MetaAbsent => metadata == empty
    case MetaText(t) => decodeMeta(t) == metadata
  }

  // ---- blocks with transactions below the activation height ----

  ghost predicate HoldsMark(m: Text) {
    exists i: nat :: MatchAt(m, i)
  }

  /** What the search reads when it sees the metadata text alone, at an offset that matters
      only to the wrap-around of the bounds check: the first mark inside the text. */
  function InnerMeta(m: Text, offset: nat): MetaRead {
    var mark := FindText(m, MARK, 0);
    if mark.None? then MetaAbsent else InnerSized(m, offset, mark.value + 10)
  }

  function InnerSized(m: Text, offset: nat, pos: nat): MetaRead {
    var colon := FindChar(m, ':', pos);
    if colon.None? then MetaAbsent
    else
      var len := Stoul(m[pos..colon.value]);
      if len.None? then MetaThrew
      else if WrapAdd(offset + colon.value + 1, len.value) > offset + |m| then MetaAbsent
      else MetaText(Substr(m, colon.value + 1, len.value))
  }

  lemma MatchInside(data: Text, offset: nat, m: Text, i: nat)
    requires offset <= |data| && data[offset..] == m
    ensures MatchAt(data, offset + i) <==> MatchAt(m, i)
  {
    if i + 10 <= |m| {
      SliceOfDrop(data, offset, i, i + 10);
    }
  }

  lemma {:induction false} FindTextInside(data: Text, offset: nat, m: Text, from: nat)
    requires offset <= |data| && data[offset..] == m
    ensures FindText(data, MARK, offset + from)
         == var k := FindText(m, MARK, from); if k.None? then None else Some(offset + k.value)
    decreases |m| - from
  {
    hide FindText, MatchAt;
    MatchInside(data, offset, m, from);
    if from + 10 > |m| {
      NoRoom(data, offset + from);
      NoRoom(m, from);
    } else if MatchAt(m, from) {
      FoundHere(data, offset + from);
      FoundHere(m, from);
    } else {
      SkipOne(data, offset + from);
      SkipOne(m, from);
      FindTextInside(data, offset, m, from + 1);
    }
  }

  lemma {:induction false} FindCharInside(data: Text, offset: nat, m: Text, c: ByteChar, from: nat)
    requires offset <= |data| && data[offset..] == m
    ensures FindChar(data, c, offset + from)
         == var k := FindChar(m, c, from); if k.None? then None else Some(offset + k.value)
    decreases |m| - from
  {
    if from < |m| {
      assert data[offset + from] == data[offset..][from];
      FindCharInside(data, offset, m, c, from + 1);
    }
  }

  lemma InnerMetaRead(data: Text, offset: nat, m: Text)
    requires offset <= |data| && data[offset..] == m
    ensures ReadMeta(data, offset) == InnerMeta(m, offset)
  {
    hide FindText, ReadSized, InnerSized;
    FindTextInside(data, offset, m, 0);
    var mark := FindText(m, MARK, 0);
    if mark.Some? {
      InnerSizedRead(data, offset, m, mark.value + 10);
    }
  }

  lemma InnerSizedRead(data: Text, offset: nat, m: Text, pos: nat)
    requires offset <= |data| && data[offset..] == m
    ensures ReadSized(data, offset + pos) == InnerSized(m, offset, pos)
  {
    hide FindChar, Stoul, WrapAdd, Substr;
    FindCharInside(data, offset, m, ':', pos);
    var colon := FindChar(m, ':', pos);
    if colon.Some? {
      SliceOfDrop(data, offset, pos, colon.value);
      PieceInside(data, offset, m, colon.value + 1);
    }
  }

  lemma PieceInside(data: Text, offset: nat, m: Text, at: nat)
    requires offset <= |data| && data[offset..] == m && at <= |m|
    ensures forall len: nat :: Substr(data, offset + at, len) == Substr(m, at, len)
  {
    forall len: nat ensures Substr(data, offset + at, len) == Substr(m, at, len) {
      if at + len <= |m| {
        SliceOfDrop(data, offset, at, at + len);
      } else {
        SliceOfDrop(data, offset, at, at);
      }
    }
  }

  /** Whatever the search finds inside the metadata text is a shorter text. */
  lemma InnerTextIsShorter(m: Text, offset: nat)
    ensures InnerMeta(m, offset).MetaText? ==> HoldsMark(m) && |InnerMeta(m, offset).text| + 11 <= |m|
    ensures InnerMeta(m, offset).MetaThrew? ==> HoldsMark(m)
  {
    hide FindText, FindChar, Stoul, WrapAdd;
    MarkLength();
    var mark := FindText(m, MARK, 0);
    assert mark.Some? ==> MatchAt(m, mark.value);
  }

  lemma NoMarkNothingRead(m: Text, offset: nat)
    requires !HoldsMark(m)
    ensures InnerMeta(m, offset) == MetaAbsent
  {
    MarkLength();
    var mark := FindText(m, MARK, 0);
    assert mark.Some? ==> MatchAt(m, mark.value);
  }

  /** The words before the metadata text hold no pipe, so the search runs into the text. */
  lemma SearchEntersText(data: Text, n: nat, m: Text)
    requires n <= |data| && data[n..] == MetaTail(m)
    ensures |m| <= |data| && n <= |data| - |m| && data[|data| - |m|..] == m
    ensures ReadMeta(data, n) == InnerMeta(m, |data| - |m|)
  {
    var offset := |data| - |m|;
    var words := META_WORD + Decimal(|m|) + ":";
    assert data[n..] == words + m;
    assert data[n..][|words|..] == m;
    SliceOfDrop(data, n, 0, |words|);
    assert data[n..][..|words|] == words;
    DigitsHaveNoPipe(|m|, 0);
    MarkLength();
    hide FindText, MatchAt, InnerMeta, ReadMetaAt, Decimal;
    assert '|' !in words;
    NoMarkBefore(data, n, offset, words);
    FindSkips(data, n, offset);
    SameMark(data, n, offset);
    InnerMetaRead(data, offset, m);
  }

  /** Below the activation height the search starts past the pipe that opens the metadata,
      so of a block with transactions it reads only what the metadata text itself holds. */
  lemma LegacyReadsInside<T, M>(b: Block<T, M>, encodeTx: T -> Text, encodeMeta: M -> Text,
                                decodeTx: (Text, bool) -> Option<T>, decodeMeta: Text -> M, empty: M)
    requires Setting(b, encodeTx, encodeMeta, decodeTx, decodeMeta)
    requires !Active(b.height) && b.transactions != []
    ensures var data, m := Encoded(b, encodeTx, encodeMeta), encodeMeta(b.metadata);
            && |m| <= |data|
            && Decoded(data, decodeTx, decodeMeta, empty) == WithMeta(b, InnerMeta(m, |data| - |m|), decodeMeta, empty)
  {
    var data, m := Encoded(b, encodeTx, encodeMeta), encodeMeta(b.metadata);
    hide Encoded, Piped, Records, Decoded, MetaTail, HeadFields, Texts, FindText, Decimal, ReadMeta, InnerMeta;
    var n := |Piped(HeadFields(b))| + |Records(Texts(b.transactions, encodeTx))|;
    TailAt(b, encodeTx, encodeMeta, data, n);
    SearchEntersText(data, n, m);
    BodyReadsBack(b, encodeTx, encodeMeta, decodeTx, decodeMeta, empty);
  }

  /** So metadata whose text does not hold the mark are lost, whatever they are. */
  lemma LegacyDropsMetadata<T, M>(b: Block<T, M>, encodeTx: T -> Text, encodeMeta: M -> Text,
                                  decodeTx: (Text, bool) -> Option<T>, decodeMeta: Text -> M, empty: M)
    requires Setting(b, encodeTx, encodeMeta, decodeTx, decodeMeta)
    requires !Active(b.height) && b.transactions != [] && !HoldsMark(encodeMeta(b.metadata))
    ensures Decoded(Encoded(b, encodeTx, encodeMeta), decodeTx, decodeMeta, empty)
         == Some(b.(chainWork := 0, metadata := empty))
  {
    var data, m := Encoded(b, encodeTx, encodeMeta), encodeMeta(b.metadata);
    hide Encoded, Decoded, Setting, InnerMeta;
    LegacyReadsInside(b, encodeTx, encodeMeta, decodeTx, decodeMeta, empty);
    NoMarkNothingRead(m, |data| - |m|);
  }

  /** A block with transactions survives exactly from the activation height on, or when the
      metadata text holds a mark that reads back to the same metadata, or when it holds none
      to read and there were no metadata. It is unreadable exactly below the activation
      height with an inner mark whose length does not parse. */
  lemma MetadataSurvivesIff<T, M>(b: Block<T, M>, encodeTx: T -> Text, encodeMeta: M -> Text,
                                  decodeTx: (Text, bool) -> Option<T>, decodeMeta: Text -> M, empty: M)
    requires Setting(b, encodeTx, encodeMeta, decodeTx, decodeMeta)
    requires b.transactions != []
    ensures var data, m := Encoded(b, encodeTx, encodeMeta), encodeMeta(b.metadata);
            var r := Decoded(data, decodeTx, decodeMeta, empty);
            && |m| <= |data|
            && var inner := InnerMeta(m, |data| - |m|);
               && (r == Some(b.(chainWork := 0)) <==> Active(b.height) || Restores(inner, decodeMeta, empty, b.metadata))
               && (r == None <==> !Active(b.height) && inner.MetaThrew?)
               && (!HoldsMark(m) ==> (r == Some(b.(chainWork := 0)) <==> Active(b.height) || b.metadata == empty))
  {
    var data, m := Encoded(b, encodeTx, encodeMeta), encodeMeta(b.metadata);
    TextFits(b, encodeTx, encodeMeta);
    hide Encoded, Decoded, Setting, InnerMeta, HoldsMark;
    if Active(b.height) {
      BlockRoundTrip(b, encodeTx, encodeMeta, decodeTx, decodeMeta, empty);
    } else {
      LegacyReadsInside(b, encodeTx, encodeMeta, decodeTx, decodeMeta, empty);
      if !HoldsMark(m) {
        NoMarkNothingRead(m, |data| - |m|);
      }
    }
  }

  /** A metadata text with such a mark makes an older block unreadable. */
  lemma InnerMarkThrows<T, M>(b: Block<T, M>, encodeTx: T -> Text, encodeMeta: M -> Text,
                              decodeTx: (Text, bool) -> Option<T>, decodeMeta: Text -> M, empty: M,
                              front: Text, d: Text, more: Text)
    requires Setting(b, encodeTx, encodeMeta, decodeTx, decodeMeta)
    requires !Active(b.height) && b.transactions != []
    requires encodeMeta(b.metadata) == front + (MARK + (d + ([':'] + more)))
    requires '|' !in front && ':' !in d && Stoul(d).None?
    ensures Decoded(Encoded(b, encodeTx, encodeMeta), decodeTx, decodeMeta, empty) == None
  {
    var data, m := Encoded(b, encodeTx, encodeMeta), encodeMeta(b.metadata);
    hide Encoded, Decoded, Setting, InnerMeta, Stoul;
    LegacyReadsInside(b, encodeTx, encodeMeta, decodeTx, decodeMeta, empty);
    UnreadableInside(m, |data| - |m|, front, d, more);
  }

  lemma UnreadableInside(m: Text, offset: nat, front: Text, d: Text, more: Text)
    requires m == front + (MARK + (d + ([':'] + more))) && '|' !in front && ':' !in d && Stoul(d).None?
    ensures InnerMeta(m, offset) == MetaThrew
  {
    hide FindText, FindChar, Stoul, MatchAt;
    var at := |front|;
    MarkLength();
    assert m[0..at] == front;
    SliceOfDrop(m, at, 0, 10);
    assert m[at..] == MARK + (d + ([':'] + more));
    assert m[at..][..10] == MARK && m[at..][10..] == d + ([':'] + more);
    AtMark(m, at);
    NoMarkBefore(m, 0, at, front);
    FindSkips(m, 0, at);
    CutAt(m, at + 10, d, ':', more);
  }

  lemma AtMark(m: Text, at: nat)
    requires at + 10 <= |m| && m[at..at + 10] == MARK
    ensures FindText(m, MARK, at) == Some(at)
  {
    FoundHere(m, at);
  }

  lemma TextFits<T, M>(b: Block<T, M>, encodeTx: T -> Text, encodeMeta: M -> Text)
    ensures |encodeMeta(b.metadata)| <= |Encoded(b, encodeTx, encodeMeta)|
  {
    hide Piped, Records, HeadFields, Texts, Decimal;
  }

  // ---- blocks without transactions ----

  /** No field could be mistaken for the start of the metadata. */
  predicate NoFalseMark<T, M>(b: Block<T, M>) {
    && !StartsWithMark(b.prevHash) && !StartsWithMark(b.merkleRoot)
    && !StartsWithMark(b.blockHash) && !StartsWithMark(b.parentHash)
  }

  predicate StartsWithMark(t: Text) {
    |t| >= 9 && t[..9] == META_WORD
  }

  /** The first field from j on that could be mistaken for the start of the metadata, or
      where the metadata really start. */
  function PosingField(fields: seq<Text>, j: nat): (r: nat)
    requires j <= |fields|
    ensures j <= r <= |fields|
    ensures forall i :: j <= i < r ==> !StartsWithMark(fields[i])
    ensures r < |fields| ==> StartsWithMark(fields[r])
    decreases |fields| - j
  {
    if j == |fields| || StartsWithMark(fields[j]) then j else PosingField(fields, j + 1)
  }

  /** The first field holds no pipe, so no mark starts in it. */
  lemma SkipFirstField(data: Text, from: nat, fields: seq<Text>, tail: Text)
    requires fields != [] && PipeFree(fields) && PipedAt(data, from, fields, tail)
    requires |tail| >= 9
    ensures var pipe := from + |fields[0]|;
            && pipe + 10 <= |data| && data[pipe] == '|' && PipedAt(data, pipe + 1, fields[1..], tail)
            && FindText(data, MARK, from) == FindText(data, MARK, pipe)
            && |Piped(fields)| == |fields[0]| + 1 + |Piped(fields[1..])| && PipeFree(fields[1..])
  {
    hide FindText, Piped, MatchAt, PipeFree, PipedAt;
    FirstField(data, from, fields, tail);
    PipeFound(data, from);
    hide FindChar;
    var pipe := from + |fields[0]|;
    var rest := fields[1..];
    TailFits(data, pipe + 1, rest, tail);
    PipeFreeTail(fields);
    SkipText(data, from, pipe, fields[0]);
  }

  lemma PipeFound(data: Text, from: nat)
    ensures var k := FindChar(data, '|', from); k.Some? ==> k.value < |data| && data[k.value] == '|'
  {
  }

  lemma SkipText(data: Text, from: nat, pipe: nat, f: Text)
    requires from <= pipe && pipe + 10 <= |data| && data[from..pipe] == f && '|' !in f
    ensures FindText(data, MARK, from) == FindText(data, MARK, pipe)
  {
    hide FindText, MatchAt;
    NoMarkBefore(data, from, pipe, f);
    FindSkips(data, from, pipe);
  }

  lemma TailFits(data: Text, from: nat, fields: seq<Text>, tail: Text)
    requires PipedAt(data, from, fields, tail)
    ensures from + |tail| <= |data|
  {
  }

  lemma NoMarkBefore(data: Text, from: nat, pipe: nat, f: Text)
    requires from <= pipe <= |data| && data[from..pipe] == f && '|' !in f
    ensures forall i :: from <= i < pipe ==> !MatchAt(data, i)
  {
    hide MatchAt;
    forall i | from <= i < pipe ensures !MatchAt(data, i) {
      assert data[i] == data[from..pipe][i - from];
      MatchMeans(data, i);
    }
  }

  lemma MatchMeans(data: Text, i: nat)
    ensures MatchAt(data, i) ==> i < |data| && data[i] == '|'
  {
    if i + 10 <= |data| {
      NoMatchAt(data, i);
    }
  }

  lemma PipeFreeTail(fields: seq<Text>)
    requires fields != [] && PipeFree(fields)
    ensures PipeFree(fields[1..]) && '|' !in fields[0]
  {
  }

  lemma MarkHere(data: Text, pipe: nat, tail: Text)
    requires pipe + 10 <= |data| && data[pipe] == '|' && data[pipe + 1..] == tail
    requires |tail| >= 9 && tail[..9] == META_WORD
    ensures FindText(data, MARK, pipe) == Some(pipe)
  {
    hide FindText, MatchAt;
    SliceOfDrop(data, pipe + 1, 0, 9);
    NoMatchAt(data, pipe);
    FoundHere(data, pipe);
  }

  lemma FieldNotMark(data: Text, pipe: nat, fields: seq<Text>, tail: Text)
    requires fields != [] && PipeFree(fields) && !StartsWithMark(fields[0])
    requires pipe + 10 <= |data| && PipedAt(data, pipe + 1, fields, tail)
    ensures !MatchAt(data, pipe)
  {
    hide MatchAt, Piped, PipeFree, StartsWithMark;
    SliceOfDrop(data, pipe + 1, 0, 9);
    NextFieldNoMark(fields, tail);
    NoMatchAt(data, pipe);
  }

  lemma NextFieldNoMark(fields: seq<Text>, tail: Text)
    requires fields != [] && PipeFree(fields) && !StartsWithMark(fields[0]) && |Piped(fields) + tail| >= 9
    ensures (Piped(fields) + tail)[..9] != META_WORD
  {
    MarkLength();
    var f, all := fields[0], Piped(fields) + tail;
    assert all == f + (['|'] + (Piped(fields[1..]) + tail));
    if |f| < 9 {
      assert all[|f|] == '|';
      assert all[..9][|f|] == '|';
    } else {
      assert all[..9] == f[..9];
    }
  }

  lemma TailStarts(m: Text)
    ensures |MetaTail(m)| >= 9 && MetaTail(m)[..9] == META_WORD
  {
    hide Decimal;
    MarkLength();
    assert MetaTail(m) == META_WORD + (Decimal(|m|) + ":" + m);
  }

  lemma SameMark(data: Text, a: nat, c: nat)
    requires FindText(data, MARK, a) == FindText(data, MARK, c)
    ensures ReadMeta(data, a) == ReadMeta(data, c)
  {
    hide FindText, ReadMetaAt;
  }

  lemma PosingHere(data: Text, pipe: nat, fields: seq<Text>, tail: Text)
    requires pipe + 10 <= |data| && data[pipe] == '|' && PipedAt(data, pipe + 1, fields, tail)
    requires |tail| >= 9 && tail[..9] == META_WORD && (fields != [] ==> StartsWithMark(fields[0]))
    ensures FindText(data, MARK, pipe) == Some(pipe)
  {
    hide FindText;
    var all := Piped(fields) + tail;
    if fields == [] {
      assert all == tail;
    } else {
      assert all == fields[0] + ("|" + Piped(fields[1..]) + tail);
      assert all[..9] == fields[0][..9];
    }
    MarkHere(data, pipe, all);
  }

  lemma PipedFront(fields: seq<Text>, j: nat)
    requires 0 < j <= |fields|
    ensures |Piped(fields[..j])| == |fields[0]| + 1 + |Piped(fields[1..][..j - 1])|
  {
    assert fields[..j][1..] == fields[1..][..j - 1];
  }

  /** The first mark stands on the pipe before the first posing field. */
  lemma {:induction false} FirstMark(data: Text, from: nat, fields: seq<Text>, tail: Text, j: nat)
    requires 0 < j <= |fields| && PipeFree(fields) && PipedAt(data, from, fields, tail)
    requires |tail| >= 9 && tail[..9] == META_WORD
    requires forall i :: 0 < i < j ==> !StartsWithMark(fields[i])
    requires j < |fields| ==> StartsWithMark(fields[j])
    ensures |Piped(fields[..j])| > 0
    ensures FindText(data, MARK, from) == Some(from + |Piped(fields[..j])| - 1)
    decreases |fields|
  {
    hide FindText, FindChar, Piped, PipeFree, StartsWithMark, MatchAt, PipedAt;
    var pipe := from + |fields[0]|;
    SkipFirstField(data, from, fields, tail);
    PipedFront(fields, j);
    if j == 1 {
      NothingPiped();
      PosingHere(data, pipe, fields[1..], tail);
    } else {
      FieldNotMark(data, pipe, fields[1..], tail);
      SkipOne(data, pipe);
      FirstMark(data, pipe + 1, fields[1..], tail, j - 1);
    }
  }

  lemma NothingPiped()
    ensures Piped([]) == []
  {
  }

  lemma {:induction false} PipedSplit(fields: seq<Text>, j: nat)
    requires j <= |fields|
    ensures Piped(fields) == Piped(fields[..j]) + Piped(fields[j..])
    decreases j
  {
    if j == 0 {
      assert fields[0..] == fields;
    } else {
      assert fields[..j][1..] == fields[1..][..j - 1];
      assert fields[1..][j - 1..] == fields[j..];
      PipedSplit(fields[1..], j - 1);
    }
  }

  lemma NumberIsNoMark(n: nat, i: int)
    ensures !StartsWithMark(Decimal(n)) && !StartsWithMark(IntText(i))
  {
    assert META_WORD[0] == 'M';
    assert IsDigit(Decimal(n)[0]);
    assert i >= 0 ==> IsDigit(Decimal(i)[0]);
    forall t: Text | |t| >= 9 && t[..9] == META_WORD ensures t[0] == 'M' {
      assert t[0] == t[..9][0];
    }
  }

  /** Only the four hash fields can pose. */
  lemma HashesPose<T, M>(b: Block<T, M>)
    ensures PosingField(HeadFields(b), 1) == 11 <==> NoFalseMark(b)
    ensures forall j :: 0 < j < 11 && StartsWithMark(HeadFields(b)[j]) ==> j in {1, 2, 6, 8}
  {
    NumberIsNoMark(b.timestamp, b.version);
    NumberIsNoMark(b.bits, b.height);
    NumberIsNoMark(b.nonce, 0);
    NumberIsNoMark(b.chainWork, 0);
    NumberIsNoMark(|b.transactions|, 0);
    hide StartsWithMark, Decimal, IntText;
    var f := HeadFields(b);
    assert f[1] == b.prevHash && f[2] == b.merkleRoot && f[6] == b.blockHash && f[8] == b.parentHash;
  }

  lemma PlainData<T, M>(b: Block<T, M>, encodeTx: T -> Text, encodeMeta: M -> Text)
    requires b.transactions == []
    ensures Encoded(b, encodeTx, encodeMeta) == Piped(HeadFields(b)) + MetaTail(encodeMeta(b.metadata))
    ensures Records(Texts(b.transactions, encodeTx)) == []
  {
    NoRecords();
    assert Texts(b.transactions, encodeTx) == [];
    hide Piped, HeadFields, MetaTail;
  }

  lemma FrontIsShorter(fields: seq<Text>, j: nat)
    requires j <= |fields|
    ensures |Piped(fields[..j])| <= |Piped(fields)|
    ensures |Piped(fields[..j])| == |Piped(fields)| <==> j == |fields|
  {
    hide Piped;
    PipedSplit(fields, j);
    if j < |fields| {
      PipedEnds(fields[j..]);
    } else {
      assert fields[..j] == fields;
    }
  }

  /** Where the search of a block without transactions stops: on the metadata exactly when
      no field poses as the mark. */
  lemma EmptyBlockMark<T, M>(b: Block<T, M>, encodeTx: T -> Text, encodeMeta: M -> Text)
    requires HashesPipeFree(b) && b.transactions == []
    ensures var data, f := Encoded(b, encodeTx, encodeMeta), HeadFields(b);
            && FindText(data, MARK, 0) == Some(|Piped(f[..PosingField(f, 1)])| - 1)
            && (FindText(data, MARK, 0) == Some(|Piped(f)| - 1) <==> NoFalseMark(b))
  {
    var data, m, f := Encoded(b, encodeTx, encodeMeta), encodeMeta(b.metadata), HeadFields(b);
    hide Encoded, Piped, FindText, MetaTail, PosingField, StartsWithMark, NoFalseMark, Records, Texts, Decimal, IntText;
    PlainData(b, encodeTx, encodeMeta);
    HeadPipeFree(b);
    HashesPose(b);
    TailStarts(m);
    assert data[0..] == data;
    FirstMark(data, 0, f, MetaTail(m), PosingField(f, 1));
    FrontIsShorter(f, PosingField(f, 1));
  }

  /** What is read of a block without transactions: from the first posing field, or from
      the real metadata if there is none. */
  function PosedMeta<T, M>(b: Block<T, M>, data: Text): MetaRead {
    var f := HeadFields(b);
    ReadSized(data, |Piped(f[..PosingField(f, 1)])| + 9)
  }

  lemma EmptyBlockReads<T, M>(b: Block<T, M>, encodeTx: T -> Text, encodeMeta: M -> Text,
                              decodeTx: (Text, bool) -> Option<T>, decodeMeta: Text -> M, empty: M)
    requires Setting(b, encodeTx, encodeMeta, decodeTx, decodeMeta) && b.transactions == []
    ensures var data := Encoded(b, encodeTx, encodeMeta);
            && Decoded(data, decodeTx, decodeMeta, empty) == WithMeta(b, PosedMeta(b, data), decodeMeta, empty)
            && (NoFalseMark(b) ==> PosedMeta(b, data) == MetaText(encodeMeta(b.metadata)))
  {
    var data, m, f := Encoded(b, encodeTx, encodeMeta), encodeMeta(b.metadata), HeadFields(b);
    hide Encoded, Piped, Records, Texts, Decoded, ReadSized, MetaTail, FindText, PosingField, NoFalseMark, Active, Decimal, IntText;
    PlainData(b, encodeTx, encodeMeta);
    TailAt(b, encodeTx, encodeMeta, data, |Piped(f)|);
    EmptyBlockMark(b, encodeTx, encodeMeta);
    HashesPose(b);
    assert f[..11] == f;
    MetaReadsBack(data, |Piped(f)| - 1, m);
    BodyReadsBack(b, encodeTx, encodeMeta, decodeTx, decodeMeta, empty);
  }

  /** A block without transactions survives exactly when no field poses as the mark, or the
      first that does reads back to the same metadata. It is unreadable exactly when the
      first that does has a length that does not parse. */
  lemma EmptyBlockSurvivesIff<T, M>(b: Block<T, M>, encodeTx: T -> Text, encodeMeta: M -> Text,
                                    decodeTx: (Text, bool) -> Option<T>, decodeMeta: Text -> M, empty: M)
    requires Setting(b, encodeTx, encodeMeta, decodeTx, decodeMeta) && b.transactions == []
    ensures var data := Encoded(b, encodeTx, encodeMeta);
            var r := Decoded(data, decodeTx, decodeMeta, empty);
            && (r == Some(b.(chainWork := 0))
                <==> NoFalseMark(b) || Restores(PosedMeta(b, data), decodeMeta, empty, b.metadata))
            && (r == None <==> !NoFalseMark(b) && PosedMeta(b, data).MetaThrew?)
  {
    hide Encoded, Decoded, PosedMeta, NoFalseMark;
    EmptyBlockReads(b, encodeTx, encodeMeta, decodeTx, decodeMeta, empty);
  }

  lemma EmptyBlockRoundTrip<T, M>(b: Block<T, M>, encodeTx: T -> Text, encodeMeta: M -> Text,
                                  decodeTx: (Text, bool) -> Option<T>, decodeMeta: Text -> M, empty: M)
    requires Setting(b, encodeTx, encodeMeta, decodeTx, decodeMeta)
    requires b.transactions == [] && NoFalseMark(b)
    ensures Decoded(Encoded(b, encodeTx, encodeMeta), decodeTx, decodeMeta, empty) == Some(b.(chainWork := 0))
  {
    hide Encoded, Decoded, PosedMeta, NoFalseMark;
    EmptyBlockSurvivesIff(b, encodeTx, encodeMeta, decodeTx, decodeMeta, empty);
  }

  /** Everything that stands behind a field. */
  function Behind<T, M>(b: Block<T, M>, encodeMeta: M -> Text, j: nat): Text
    requires j < 11
  {
    "|" + Piped(HeadFields(b)[j + 1..]) + MetaTail(encodeMeta(b.metadata))
  }

  lemma CutField(data: Text, front: Text, field: Text, rest: Text)
    requires data == front + (field + rest) && |field| >= 9
    ensures |front| + 9 <= |data| && data[|front| + 9..] == field[9..] + rest
  {
  }

  lemma RegroupField(a: Text, f: Text, c: Text, tail: Text)
    ensures a + (f + "|" + c) + tail == a + (f + ("|" + c + tail))
  {
  }

  lemma PipedFrom(fields: seq<Text>, j: nat, tail: Text)
    requires j < |fields|
    ensures Piped(fields) + tail == Piped(fields[..j]) + (fields[j] + ("|" + Piped(fields[j + 1..]) + tail))
  {
    PipedSplit(fields, j);
    OneField(fields, j);
    hide Piped;
    RegroupField(Piped(fields[..j]), fields[j], Piped(fields[j + 1..]), tail);
  }

  lemma OneField(fields: seq<Text>, j: nat)
    requires j < |fields|
    ensures Piped(fields[j..]) == fields[j] + "|" + Piped(fields[j + 1..])
  {
    assert fields[j..][1..] == fields[j + 1..];
  }

  /** What the first posing field holds after the mark stands where the search reads on. */
  lemma PosedAt<T, M>(b: Block<T, M>, encodeTx: T -> Text, encodeMeta: M -> Text, j: nat)
    requires b.transactions == [] && 0 < j < 11 && PosingField(HeadFields(b), 1) == j
    ensures var data, f, at := Encoded(b, encodeTx, encodeMeta), HeadFields(b), |Piped(HeadFields(b)[..j])| + 9;
            && |f[j]| >= 9 && at <= |data| && data[at..] == f[j][9..] + Behind(b, encodeMeta, j)
            && PosedMeta(b, data) == ReadSized(data, at)
  {
    var data, m, f := Encoded(b, encodeTx, encodeMeta), encodeMeta(b.metadata), HeadFields(b);
    hide Encoded, Piped, HeadFields, MetaTail, PosingField, ReadSized, Records, Texts;
    PlainData(b, encodeTx, encodeMeta);
    PipedFrom(f, j, MetaTail(m));
    CutField(data, Piped(f[..j]), f[j], Behind(b, encodeMeta, j));
  }

  /** After the mark a field carries a length and that much text. */
  predicate Carries(field: Text, t: Text, more: Text) {
    |field| >= 9 && field[9..] == Decimal(|t|) + ":" + t + more
  }

  lemma RegroupSized(d: Text, t: Text, more: Text, rest: Text)
    ensures d + ":" + t + more + rest == d + ([':'] + (t + (more + rest)))
  {
  }

  lemma SizedField(data: Text, at: nat, field: Text, t: Text, more: Text, rest: Text)
    requires Carries(field, t, more) && at <= |data| <= U64_MAX && data[at..] == field[9..] + rest
    ensures ReadSized(data, at) == MetaText(t)
  {
    hide Decimal, ReadSized;
    RegroupSized(Decimal(|t|), t, more, rest);
    SizedReadsBack(data, at, t, more + rest);
  }

  lemma UnreadableField(data: Text, at: nat, field: Text, d: Text, more: Text, rest: Text)
    requires at <= |data| && |field| >= 9 && data[at..] == field[9..] + rest
    requires field == META_WORD + (d + ":" + more) && ':' !in d && Stoul(d).None?
    ensures ReadSized(data, at) == MetaThrew
  {
    MarkLength();
    hide Stoul, FindChar;
    assert field[9..] == d + ":" + more;
    assert data[at..] == d + ([':'] + (more + rest));
    CutAt(data, at, d, ':', more + rest);
  }

  /** A posing field that carries a length and that much text hides the real metadata. */
  lemma FalseMarkHidesMetadata<T, M>(b: Block<T, M>, encodeTx: T -> Text, encodeMeta: M -> Text,
                                     decodeTx: (Text, bool) -> Option<T>, decodeMeta: Text -> M, empty: M,
                                     j: nat, t: Text, more: Text)
    requires Setting(b, encodeTx, encodeMeta, decodeTx, decodeMeta) && b.transactions == []
    requires 0 < j < 11 && PosingField(HeadFields(b), 1) == j && Carries(HeadFields(b)[j], t, more)
    ensures Decoded(Encoded(b, encodeTx, encodeMeta), decodeTx, decodeMeta, empty)
         == Some(b.(chainWork := 0, metadata := decodeMeta(t)))
  {
    hide Encoded, Decoded, HeadFields, Piped, Carries, ReadSized, PosingField, PosedMeta, Behind, NoFalseMark;
    var data, at := Encoded(b, encodeTx, encodeMeta), |Piped(HeadFields(b)[..j])| + 9;
    PosedAt(b, encodeTx, encodeMeta, j);
    SizedField(data, at, HeadFields(b)[j], t, more, Behind(b, encodeMeta, j));
    EmptyBlockReads(b, encodeTx, encodeMeta, decodeTx, decodeMeta, empty);
  }

  /** A posing field whose length does not parse makes the whole block unreadable. */
  lemma FalseMarkThrows<T, M>(b: Block<T, M>, encodeTx: T -> Text, encodeMeta: M -> Text,
                              decodeTx: (Text, bool) -> Option<T>, decodeMeta: Text -> M, empty: M,
                              j: nat, d: Text, more: Text)
    requires Setting(b, encodeTx, encodeMeta, decodeTx, decodeMeta) && b.transactions == []
    requires 0 < j < 11 && PosingField(HeadFields(b), 1) == j && HeadFields(b)[j] == META_WORD + (d + ":" + more)
    requires ':' !in d && Stoul(d).None?
    ensures Decoded(Encoded(b, encodeTx, encodeMeta), decodeTx, decodeMeta, empty) == None
  {
    hide Encoded, Decoded, HeadFields, Piped, Stoul, ReadSized, PosingField, PosedMeta, Behind, NoFalseMark;
    var data, at := Encoded(b, encodeTx, encodeMeta), |Piped(HeadFields(b)[..j])| + 9;
    PosedAt(b, encodeTx, encodeMeta, j);
    UnreadableField(data, at, HeadFields(b)[j], d, more, Behind(b, encodeMeta, j));
    EmptyBlockReads(b, encodeTx, encodeMeta, decodeTx, decodeMeta, empty);
  }

  /** Two such blocks: a previous-block hash that hides the metadata, and one that no
      reader can get past. */
  lemma PosingHashes<T, M>(b: Block<T, M>, encodeTx: T -> Text, encodeMeta: M -> Text,
                           decodeTx: (Text, bool) -> Option<T>, decodeMeta: Text -> M, empty: M)
    requires Setting(b, encodeTx, encodeMeta, decodeTx, decodeMeta) && b.transactions == []
    ensures b.prevHash == "METADATA:0:" ==>
              Decoded(Encoded(b, encodeTx, encodeMeta), decodeTx, decodeMeta, empty)
              == Some(b.(chainWork := 0, metadata := decodeMeta([])))
    ensures b.prevHash == "METADATA:zz:" ==> Decoded(Encoded(b, encodeTx, encodeMeta), decodeTx, decodeMeta, empty) == None
  {
    hide Encoded, Decoded, Setting;
    var zero: Text, letters: Text := "0", "zz";
    assert Decimal(0) == zero;
    assert Stoul(letters).None?;
    if b.prevHash == "METADATA:0:" {
      assert b.prevHash[9..] == Decimal(0) + ":" + [] + [];
      FalseMarkHidesMetadata(b, encodeTx, encodeMeta, decodeTx, decodeMeta, empty, 1, [], []);
    }
    if b.prevHash == "METADATA:zz:" {
      assert b.prevHash == META_WORD + (letters + ":" + []);
      FalseMarkThrows(b, encodeTx, encodeMeta, decodeTx, decodeMeta, empty, 1, letters, []);
    }
  }
}
