/** src/consensus09_commitment.h: committing a block's payload in its coinbase. The hash,
    the binary form of a transaction, the transaction identifier, the JSON printer and the
    token-or-lock recogniser are parameters. */
module PayloadCommitment {
  import opened ByteCodec
  import opened InitEnvelope

  const COMMITMENT_HEIGHT: nat := 50_000
  const TAG: Text := "TRU-BLOCK-PAYLOAD-V1|21e8|"
  const COMMITMENT_PREFIX: Text := "6a2454523039"

  datatype Input = Input(pubKey: Bytes, scriptPubKey: Bytes, rest: Bytes)
  datatype Output = Output(amount: int, script: Text)
  datatype Tx<J> = Tx(isCoinbase: bool, txid: Text, sender: Text, vin: seq<Input>, vout: seq<Output>, metadata: map<Text, J>)
  datatype Block<J> = Block(height: int, txs: seq<Tx<J>>, metadata: map<Text, J>)

  /** What this header takes from the rest of the node. */
  datatype Node<!J> = Node(
    serialize: Tx<J> -> Bytes, txidOf: Tx<J> -> Text, hash: Bytes -> Text,
    dump: J -> Text, isObject: J -> bool, isTokenOrLock: Text -> bool)

  predicate Active(height: int) {
    height % 0x1_0000_0000 >= COMMITMENT_HEIGHT
  }

  // ---- the digest ----

  function Field(s: Bytes): Bytes {
    Le(|s|, 8) + s
  }

  function InputFields(vin: seq<Input>): Bytes {
    if vin == [] then [] else Field(vin[0].pubKey) + (Field(vin[0].scriptPubKey) + InputFields(vin[1..]))
  }

  function Flag(b: bool): Byte {
    if b then 1 else 0
  }

  function TxFields<J>(node: Node<J>, tx: Tx<J>): Bytes {
    Field(node.serialize(tx)) + ([Flag(tx.isCoinbase)] + (Field(BytesOf(tx.txid)) + (Field(BytesOf(tx.sender)) + InputFields(tx.vin))))
  }

  function AllTxFields<J>(node: Node<J>, txs: seq<Tx<J>>): Bytes {
    if txs == [] then [] else TxFields(node, txs[0]) + AllTxFields(node, txs[1..])
  }

  lemma {:induction false} PrecedesTotal(a: Text, b: Text)
    ensures a == b || Precedes(a, b) || Precedes(b, a)
  {
    if a != [] && b != [] && a[0] == b[0] {
      PrecedesTotal(a[1..], b[1..]);
    }
  }

  lemma {:induction false} HasMinimum(s: set<Text>) returns (m: Text)
    requires s != {}
    ensures m in s && forall x :: x in s && x != m ==> Precedes(m, x)
    decreases |s|
  {
    var x :| x in s;
    var rest := s - {x};
    if rest == {} {
      m := x;
      assert forall z :: z in s ==> z == x || z in rest;
    } else {
      var y := HasMinimum(rest);
      PrecedesTotal(x, y);
      if Precedes(x, y) {
        m := x;
        forall z | z in s && z != x ensures Precedes(x, z) {
          if z != y {
            PrecedesTransitive(x, y, z);
          }
        }
      } else {
        m := y;
      }
    }
  }

  ghost predicate IsMinimum(m: Text, s: set<Text>) {
    m in s && forall x :: x in s && x != m ==> Precedes(m, x)
  }

  ghost function SortedKeys(s: set<Text>): (r: seq<Text>)
    ensures forall k :: k in r <==> k in s
    ensures |r| == |s|
    decreases |s|
  {
    if s == {} then []
    else
      assert exists m :: IsMinimum(m, s) by {
        var m := HasMinimum(s);
        assert IsMinimum(m, s);
      }
      var m :| IsMinimum(m, s);
      [m] + SortedKeys(s - {m})
  }

  /** The entries of a std::map, in its key order. */
  function MetaFields(keys: seq<Text>, dumps: map<Text, Text>): Bytes
    requires forall k :: k in keys ==> k in dumps
  {
    if keys == [] then []
    else Field(BytesOf(keys[0])) + (Field(BytesOf(dumps[keys[0]])) + MetaFields(keys[1..], dumps))
  }

  function Dumps<J>(node: Node<J>, metadata: map<Text, J>): map<Text, Text> {
    map k | k in metadata :: node.dump(metadata[k])
  }

  /** Everything the digest binds, in order. */
  ghost function Preimage<J>(node: Node<J>, b: Block<J>): Bytes
    requires b.txs != []
  {
    var dumps := Dumps(node, b.metadata);
    BytesOf(TAG) + (Le(b.height % 0x1_0000_0000, 4) + (Le(|b.txs| - 1, 8) + (AllTxFields(node, b.txs[1..])
    + (Le(|dumps|, 8) + MetaFields(SortedKeys(dumps.Keys), dumps)))))
  }

  ghost function Digest<J>(node: Node<J>, b: Block<J>): Text
    requires b.txs != []
  {
    node.hash(Preimage(node, b))
  }

  // ---- what the digest binds ----

  /** Two texts of equal length in front can be taken off together. */
  lemma SameFront(a: Bytes, b: Bytes, x: Bytes, y: Bytes)
    requires |a| == |b| && a + x == b + y
    ensures a == b && x == y
  {
    assert (a + x)[..|a|] == a && (b + y)[..|b|] == b;
    assert (a + x)[|a|..] == x && (b + y)[|b|..] == y;
  }

  lemma Assoc(a: Bytes, b: Bytes, c: Bytes)
    ensures a + b + c == a + (b + c)
  {
  }

  lemma FieldSplits(s: Bytes, t: Bytes, x: Bytes, y: Bytes)
    requires |s| <= U64_MAX && |t| <= U64_MAX && Field(s) + x == Field(t) + y
    ensures s == t && x == y
  {
    hide Le;
    Assoc(Le(|s|, 8), s, x);
    Assoc(Le(|t|, 8), t, y);
    SameFront(Le(|s|, 8), Le(|t|, 8), s + x, t + y);
    U64RoundTrip(|s|, []);
    U64RoundTrip(|t|, []);
    SameFront(s, t, x, y);
  }

  /** No vector or string in the block is longer than its 64-bit length field can say. */
  predicate InputsFit(vin: seq<Input>) {
    forall i :: 0 <= i < |vin| ==> |vin[i].pubKey| <= U64_MAX && |vin[i].scriptPubKey| <= U64_MAX
  }

  predicate SameInputs(v: seq<Input>, w: seq<Input>) {
    |v| == |w| && forall i :: 0 <= i < |v| ==> v[i].pubKey == w[i].pubKey && v[i].scriptPubKey == w[i].scriptPubKey
  }

  lemma {:induction false} InputsSplit(v: seq<Input>, w: seq<Input>, x: Bytes, y: Bytes)
    requires |v| == |w| && InputsFit(v) && InputsFit(w) && InputFields(v) + x == InputFields(w) + y
    ensures SameInputs(v, w) && x == y
  {
    hide Field;
    if v != [] {
      var a, b := InputFields(v[1..]), InputFields(w[1..]);
      Regroup(Field(v[0].pubKey), Field(v[0].scriptPubKey), a, x);
      Regroup(Field(w[0].pubKey), Field(w[0].scriptPubKey), b, y);
      FieldSplits(v[0].pubKey, w[0].pubKey, Field(v[0].scriptPubKey) + (a + x), Field(w[0].scriptPubKey) + (b + y));
      FieldSplits(v[0].scriptPubKey, w[0].scriptPubKey, a + x, b + y);
      InputsSplit(v[1..], w[1..], x, y);
      forall i | 0 <= i < |v| ensures v[i].pubKey == w[i].pubKey && v[i].scriptPubKey == w[i].scriptPubKey {
        if i > 0 {
          assert v[i] == v[1..][i - 1] && w[i] == w[1..][i - 1];
        }
      }
    } else {
      assert [] + x == x && [] + y == y;
    }
  }

  lemma Regroup(a: Bytes, b: Bytes, c: Bytes, x: Bytes)
    ensures a + (b + c) + x == a + (b + (c + x))
  {
  }

  predicate TxFits<J>(node: Node<J>, tx: Tx<J>) {
    |node.serialize(tx)| <= U64_MAX && |tx.txid| <= U64_MAX && |tx.sender| <= U64_MAX && InputsFit(tx.vin)
  }

  /** What the digest says about one transaction. */
  predicate SameTx<J>(node: Node<J>, a: Tx<J>, b: Tx<J>) {
    && node.serialize(a) == node.serialize(b)
    && a.isCoinbase == b.isCoinbase && a.txid == b.txid && a.sender == b.sender && SameInputs(a.vin, b.vin)
  }

  /** The binary form of a transaction fixes how many inputs it has. */
  ghost predicate CountsInputs<J(!new)>(node: Node<J>) {
    forall a: Tx<J>, b: Tx<J> :: node.serialize(a) == node.serialize(b) ==> |a.vin| == |b.vin|
  }

  lemma TxSplits<J(!new)>(node: Node<J>, a: Tx<J>, b: Tx<J>, x: Bytes, y: Bytes)
    requires CountsInputs(node) && TxFits(node, a) && TxFits(node, b)
    requires TxFields(node, a) + x == TxFields(node, b) + y
    ensures SameTx(node, a, b) && x == y
  {
    hide Field, InputFields;
    var ra, rb := node.serialize(a), node.serialize(b);
    var ta, tb := BytesOf(a.txid), BytesOf(b.txid);
    var sa, sb := BytesOf(a.sender), BytesOf(b.sender);
    var ia, ib := InputFields(a.vin), InputFields(b.vin);
    TxParts(Field(ra), [Flag(a.isCoinbase)], Field(ta), Field(sa), ia, x);
    TxParts(Field(rb), [Flag(b.isCoinbase)], Field(tb), Field(sb), ib, y);
    FieldSplits(ra, rb, [Flag(a.isCoinbase)] + (Field(ta) + (Field(sa) + (ia + x))),
                [Flag(b.isCoinbase)] + (Field(tb) + (Field(sb) + (ib + y))));
    SameFront([Flag(a.isCoinbase)], [Flag(b.isCoinbase)], Field(ta) + (Field(sa) + (ia + x)), Field(tb) + (Field(sb) + (ib + y)));
    FieldSplits(ta, tb, Field(sa) + (ia + x), Field(sb) + (ib + y));
    FieldSplits(sa, sb, ia + x, ib + y);
    InputsSplit(a.vin, b.vin, x, y);
    TextBytesRoundTrip(a.txid, []);
    TextBytesRoundTrip(b.txid, []);
    TextBytesRoundTrip(a.sender, []);
    TextBytesRoundTrip(b.sender, []);
    assert [Flag(a.isCoinbase)][0] == [Flag(b.isCoinbase)][0];
  }

  lemma TxParts(a: Bytes, b: Bytes, c: Bytes, d: Bytes, e: Bytes, x: Bytes)
    ensures a + (b + (c + (d + e))) + x == a + (b + (c + (d + (e + x))))
  {
    Regroup(d, e, [], x);
    assert e + [] == e;
    assert (d + e) + x == d + (e + x);
    assert (c + (d + e)) + x == c + ((d + e) + x);
    assert (b + (c + (d + e))) + x == b + ((c + (d + e)) + x);
  }

  ghost predicate SameTxs<J>(node: Node<J>, a: seq<Tx<J>>, b: seq<Tx<J>>) {
    |a| == |b| && forall i :: 0 <= i < |a| ==> SameTx(node, a[i], b[i])
  }

  lemma {:induction false} TxsSplit<J(!new)>(node: Node<J>, a: seq<Tx<J>>, b: seq<Tx<J>>, x: Bytes, y: Bytes)
    requires CountsInputs(node) && |a| == |b|
    requires forall i :: 0 <= i < |a| ==> TxFits(node, a[i]) && TxFits(node, b[i])
    requires AllTxFields(node, a) + x == AllTxFields(node, b) + y
    ensures SameTxs(node, a, b) && x == y
  {
    hide TxFields, TxFits, SameTx, CountsInputs;
    if a != [] {
      var p, q := AllTxFields(node, a[1..]), AllTxFields(node, b[1..]);
      assert TxFields(node, a[0]) + p + x == TxFields(node, a[0]) + (p + x);
      assert TxFields(node, b[0]) + q + y == TxFields(node, b[0]) + (q + y);
      TxSplits(node, a[0], b[0], p + x, q + y);
      TxsSplit(node, a[1..], b[1..], x, y);
      forall i | 0 <= i < |a| ensures SameTx(node, a[i], b[i]) {
        if i > 0 {
          assert a[i] == a[1..][i - 1] && b[i] == b[1..][i - 1];
        }
      }
    } else {
      assert [] + x == x && [] + y == y;
    }
  }

  predicate DumpsFit(dumps: map<Text, Text>) {
    |dumps| <= U64_MAX && forall k :: k in dumps ==> |k| <= U64_MAX && |dumps[k]| <= U64_MAX
  }

  lemma {:induction false} MetaSplits(k: seq<Text>, l: seq<Text>, d: map<Text, Text>, e: map<Text, Text>)
    requires |k| == |l| && (forall x :: x in k ==> x in d) && (forall x :: x in l ==> x in e)
    requires DumpsFit(d) && DumpsFit(e) && MetaFields(k, d) == MetaFields(l, e)
    ensures k == l && forall i :: 0 <= i < |k| ==> d[k[i]] == e[l[i]]
  {
    hide Field, BytesOf;
    if k != [] {
      var a, b, c, f := k[0], l[0], d[k[0]], e[l[0]];
      FieldSplits(BytesOf(a), BytesOf(b), Field(BytesOf(c)) + MetaFields(k[1..], d), Field(BytesOf(f)) + MetaFields(l[1..], e));
      FieldSplits(BytesOf(c), BytesOf(f), MetaFields(k[1..], d), MetaFields(l[1..], e));
      TextBytesRoundTrip(a, []);
      TextBytesRoundTrip(b, []);
      TextBytesRoundTrip(c, []);
      TextBytesRoundTrip(f, []);
      MetaSplits(k[1..], l[1..], d, e);
      assert k == [k[0]] + k[1..] && l == [l[0]] + l[1..];
      forall i | 0 <= i < |k| ensures d[k[i]] == e[l[i]] {
        if i > 0 {
          assert k[i] == k[1..][i - 1] && l[i] == l[1..][i - 1];
        }
      }
    }
  }

  ghost predicate BlockFits<J>(node: Node<J>, b: Block<J>) {
    && 0 < |b.txs| <= U64_MAX
    && (forall i :: 0 < i < |b.txs| ==> TxFits(node, b.txs[i]))
    && DumpsFit(Dumps(node, b.metadata))
  }

  /** The digest preimage is injective: it determines the height, every payload
      transaction, and the printed metadata. */
  lemma PreimageInjective<J(!new)>(node: Node<J>, a: Block<J>, b: Block<J>)
    requires CountsInputs(node) && BlockFits(node, a) && BlockFits(node, b)
    requires Preimage(node, a) == Preimage(node, b)
    ensures a.height % 0x1_0000_0000 == b.height % 0x1_0000_0000
    ensures SameTxs(node, a.txs[1..], b.txs[1..])
    ensures Dumps(node, a.metadata) == Dumps(node, b.metadata)
  {
    hide AllTxFields, MetaFields, Le, TxFits, CountsInputs, Dumps, DumpsFit, SameTxs;
    var d, e := Dumps(node, a.metadata), Dumps(node, b.metadata);
    var ka, kb := SortedKeys(d.Keys), SortedKeys(e.Keys);
    var ha, hb := a.height % 0x1_0000_0000, b.height % 0x1_0000_0000;
    var ma, mb := Le(|d|, 8) + MetaFields(ka, d), Le(|e|, 8) + MetaFields(kb, e);
    var ta, tb := AllTxFields(node, a.txs[1..]), AllTxFields(node, b.txs[1..]);
    SameFront(BytesOf(TAG), BytesOf(TAG), Le(ha, 4) + (Le(|a.txs| - 1, 8) + (ta + ma)), Le(hb, 4) + (Le(|b.txs| - 1, 8) + (tb + mb)));
    SameFront(Le(ha, 4), Le(hb, 4), Le(|a.txs| - 1, 8) + (ta + ma), Le(|b.txs| - 1, 8) + (tb + mb));
    SameFront(Le(|a.txs| - 1, 8), Le(|b.txs| - 1, 8), ta + ma, tb + mb);
    LeOfU32(ha, []);
    LeOfU32(hb, []);
    U64RoundTrip(|a.txs| - 1, []);
    U64RoundTrip(|b.txs| - 1, []);
    TailFits(node, a);
    TailFits(node, b);
    TxsSplit(node, a.txs[1..], b.txs[1..], ma, mb);
    SameFront(Le(|d|, 8), Le(|e|, 8), MetaFields(ka, d), MetaFields(kb, e));
    DumpCounts(d, e);
    MetaSplits(ka, kb, d, e);
    SameMaps(d, e);
  }

  lemma TailFits<J>(node: Node<J>, b: Block<J>)
    requires BlockFits(node, b)
    ensures forall i :: 0 <= i < |b.txs[1..]| ==> TxFits(node, b.txs[1..][i])
  {
    hide TxFits, DumpsFit, Dumps;
    forall i | 0 <= i < |b.txs[1..]| ensures TxFits(node, b.txs[1..][i]) {
      assert b.txs[1..][i] == b.txs[i + 1];
    }
  }

  lemma DumpCounts(d: map<Text, Text>, e: map<Text, Text>)
    requires DumpsFit(d) && DumpsFit(e) && Le(|d|, 8) == Le(|e|, 8)
    ensures |d| == |e| && |d.Keys| == |d| && |e.Keys| == |e|
  {
    hide Le;
    U64RoundTrip(|d|, []);
    U64RoundTrip(|e|, []);
  }

  lemma SameMaps(d: map<Text, Text>, e: map<Text, Text>)
    requires SortedKeys(d.Keys) == SortedKeys(e.Keys)
    requires forall i :: 0 <= i < |SortedKeys(d.Keys)| ==>
               d[SortedKeys(d.Keys)[i]] == e[SortedKeys(e.Keys)[i]]
    ensures d == e
  {
    var k := SortedKeys(d.Keys);
    hide SortedKeys;
    assert forall x :: x in d.Keys <==> x in e.Keys by {
      assert forall x :: x in d.Keys <==> x in k;
      assert forall x :: x in e.Keys <==> x in k;
    }
    assert d.Keys == e.Keys;
    forall x | x in d ensures d[x] == e[x] {
      assert x in k;
      var i :| 0 <= i < |k| && k[i] == x;
    }
  }

  // ---- preparing and checking ----

  predicate HasPrefix(t: Text, prefix: Text) {
    |prefix| <= |t| && t[..|prefix|] == prefix
  }

  predicate IsCommitment(o: Output) {
    HasPrefix(o.script, COMMITMENT_PREFIX)
  }

  /** A non-coinbase transaction with its non-wire caches cleared. */
  function Scrubbed<J>(tx: Tx<J>): Tx<J> {
    tx.(sender := [], vin := ScrubbedInputs(tx.vin))
  }

  function ScrubbedInputs(vin: seq<Input>): (r: seq<Input>)
    ensures |r| == |vin| && forall i :: 0 <= i < |vin| ==> r[i] == vin[i].(scriptPubKey := [])
  {
    if vin == [] then [] else ScrubbedInputs(vin[..|vin| - 1]) + [vin[|vin| - 1].(scriptPubKey := [])]
  }

  function ScrubbedAll<J>(txs: seq<Tx<J>>): (r: seq<Tx<J>>)
    ensures |r| == |txs| && forall i :: 0 <= i < |txs| ==> r[i] == (if i == 0 then txs[0] else Scrubbed(txs[i]))
  {
    if txs == [] then []
    else if |txs| == 1 then txs
    else ScrubbedAll(txs[..|txs| - 1]) + [Scrubbed(txs[|txs| - 1])]
  }

  /** The metadata of all payload transactions, later ones winning. */
  function Gathered<J>(txs: seq<Tx<J>>): map<Text, J> {
    if |txs| <= 1 then map[] else Gathered(txs[..|txs| - 1]) + txs[|txs| - 1].metadata
  }

  /** A transaction may only carry metadata about itself. */
  predicate OwnMetadata<J>(tx: Tx<J>) {
    forall k :: k in tx.metadata ==> k == tx.txid
  }

  function Kept(vout: seq<Output>): (r: seq<Output>)
    ensures forall i :: 0 <= i < |r| ==> !IsCommitment(r[i])
    ensures forall o :: o in r <==> o in vout && !IsCommitment(o)
  {
    if vout == [] then []
    else
      var front, o := Kept(vout[..|vout| - 1]), vout[|vout| - 1];
      assert vout == vout[..|vout| - 1] + [o];
      if IsCommitment(o) then front else front + [o]
  }

  predicate HasCoinbase<J>(b: Block<J>) {
    b.txs != [] && b.txs[0].isCoinbase
  }

  predicate Preparable<J>(b: Block<J>) {
    HasCoinbase(b) && forall i :: 0 < i < |b.txs| ==> OwnMetadata(b.txs[i])
  }

  /** The payload part of a prepared block. */
  function WithPayload<J>(b: Block<J>): Block<J> {
    b.(txs := ScrubbedAll(b.txs), metadata := Gathered(b.txs))
  }

  ghost function CommitmentOf<J>(node: Node<J>, b: Block<J>): Output
    requires b.txs != []
  {
    Output(0, COMMITMENT_PREFIX + Digest(node, b))
  }

  function WithCoinbase<J>(b: Block<J>, cb: Tx<J>): Block<J>
    requires b.txs != []
  {
    b.(txs := b.txs[0 := cb])
  }

  ghost function Prepared<J>(node: Node<J>, b: Block<J>): Block<J>
    requires b.txs != []
  {
    var p := WithPayload(b);
    var cb := p.txs[0].(metadata := map[], vout := Kept(p.txs[0].vout) + [CommitmentOf(node, p)]);
    WithCoinbase(p, cb.(txid := node.txidOf(cb)))
  }

  predicate IsScrubbed<J>(tx: Tx<J>) {
    tx.sender == [] && forall i :: 0 <= i < |tx.vin| ==> tx.vin[i].scriptPubKey == []
  }

  /** Metadata that is the transaction's own and made of objects. */
  predicate BoundMetadata<J>(node: Node<J>, tx: Tx<J>) {
    OwnMetadata(tx) && forall k :: k in tx.metadata ==> node.isObject(tx.metadata[k])
  }

  /** What validation requires of the payload transactions. */
  predicate PayloadOk<J>(node: Node<J>, b: Block<J>) {
    && (forall i :: 0 < i < |b.txs| ==> IsScrubbed(b.txs[i]) && BoundMetadata(node, b.txs[i]))
    && Dumps(node, b.metadata) == Dumps(node, Gathered(b.txs))
  }

  /** Exactly one commitment output, worth nothing and naming this payload, and no token
      or lock output in the coinbase. */
  ghost predicate CoinbaseOk<J>(node: Node<J>, b: Block<J>)
    requires b.txs != []
  {
    var vout, wanted := b.txs[0].vout, CommitmentOf(node, b);
    && (forall i :: 0 <= i < |vout| ==> !node.isTokenOrLock(vout[i].script) && (IsCommitment(vout[i]) ==> vout[i] == wanted))
    && (exists i :: 0 <= i < |vout| && IsCommitment(vout[i]))
    && (forall i, j :: 0 <= i < |vout| && 0 <= j < |vout| && IsCommitment(vout[i]) && IsCommitment(vout[j]) ==> i == j)
  }

  ghost predicate Accepted<J>(node: Node<J>, b: Block<J>) {
    HasCoinbase(b) && b.txs[0].metadata == map[] && PayloadOk(node, b) && CoinbaseOk(node, b)
  }

  /** What the miner must bring for preparation to end in an acceptable block. */
  ghost predicate Clean<J>(node: Node<J>, b: Block<J>)
    requires b.txs != []
  {
    && (forall i :: 0 < i < |b.txs| ==> forall k :: k in b.txs[i].metadata ==> node.isObject(b.txs[i].metadata[k]))
    && (forall o :: o in b.txs[0].vout && !IsCommitment(o) ==> !node.isTokenOrLock(o.script))
    && !node.isTokenOrLock(CommitmentOf(node, WithPayload(b)).script)
  }

  // ---- the digest leaves the coinbase out ----

  lemma DigestIgnoresCoinbase<J>(node: Node<J>, b: Block<J>, cb: Tx<J>)
    requires b.txs != []
    ensures Digest(node, WithCoinbase(b, cb)) == Digest(node, b)
  {
    assert WithCoinbase(b, cb).txs[1..] == b.txs[1..];
  }

  lemma {:induction false} GatheredIgnoresCoinbase<J>(txs: seq<Tx<J>>, cb: Tx<J>)
    requires txs != []
    ensures Gathered(txs[0 := cb]) == Gathered(txs)
  {
    if |txs| > 1 {
      GatheredIgnoresCoinbase(txs[..|txs| - 1], cb);
      assert txs[0 := cb][..|txs| - 1] == txs[..|txs| - 1][0 := cb];
    }
  }

  lemma {:induction false} GatheredScrubbed<J>(txs: seq<Tx<J>>)
    ensures Gathered(ScrubbedAll(txs)) == Gathered(txs)
  {
    if |txs| > 1 {
      GatheredScrubbed(txs[..|txs| - 1]);
      assert ScrubbedAll(txs)[..|txs| - 1] == ScrubbedAll(txs[..|txs| - 1]);
    }
  }

  lemma ScrubbedTwice<J>(tx: Tx<J>)
    ensures Scrubbed(Scrubbed(tx)) == Scrubbed(tx) && IsScrubbed(Scrubbed(tx))
  {
    assert ScrubbedInputs(ScrubbedInputs(tx.vin)) == ScrubbedInputs(tx.vin);
  }

  lemma PreparedParts<J>(node: Node<J>, b: Block<J>)
    requires HasCoinbase(b)
    ensures var p, q := WithPayload(b), Prepared(node, b);
            && HasCoinbase(q) && |q.txs| == |b.txs| && q.height == b.height && q.metadata == Gathered(b.txs)
            && (forall i :: 0 < i < |b.txs| ==> q.txs[i] == Scrubbed(b.txs[i]))
            && q.txs[0].metadata == map[] && q.txs[0].vout == Kept(b.txs[0].vout) + [CommitmentOf(node, p)]
            && Gathered(q.txs) == Gathered(b.txs)
            && CommitmentOf(node, q) == CommitmentOf(node, p)
  {
    hide Digest, ScrubbedAll, Gathered, Kept;
    var p := WithPayload(b);
    var cb := Prepared(node, b).txs[0];
    assert Prepared(node, b) == WithCoinbase(p, cb);
    DigestIgnoresCoinbase(node, p, cb);
    GatheredScrubbed(b.txs);
    GatheredIgnoresCoinbase(p.txs, cb);
  }

  // ---- what preparation keeps ----

  /** Every payload transaction keeps what goes over the wire; only the sender and the
      scripts of its inputs are emptied. */
  lemma PayloadKept<J>(node: Node<J>, b: Block<J>, i: nat)
    requires HasCoinbase(b) && 0 < i < |b.txs|
    ensures |Prepared(node, b).txs| == |b.txs| && Prepared(node, b).height == b.height
    ensures var x, y := b.txs[i], Prepared(node, b).txs[i];
            && y.isCoinbase == x.isCoinbase && y.txid == x.txid && y.vout == x.vout
            && y.metadata == x.metadata && y.sender == [] && |y.vin| == |x.vin|
            && forall k :: 0 <= k < |x.vin| ==>
                 && y.vin[k].pubKey == x.vin[k].pubKey && y.vin[k].rest == x.vin[k].rest
                 && y.vin[k].scriptPubKey == []
  {
    PreparedParts(node, b);
    hide Prepared;
  }

  /** The coinbase keeps its inputs and its sender, loses its metadata, and is named by its
      new contents. Of its outputs the ones at `kept` stay: all that do not start with the
      commitment prefix, each once and in order, followed by one commitment worth nothing
      to the prepared block itself. */
  lemma CoinbaseKept<J>(node: Node<J>, b: Block<J>) returns (kept: seq<nat>)
    requires HasCoinbase(b)
    ensures HasCoinbase(Prepared(node, b))
    ensures var x, y := b.txs[0], Prepared(node, b).txs[0];
            && y.isCoinbase == x.isCoinbase && y.vin == x.vin && y.sender == x.sender
            && y.metadata == map[] && y.txid == node.txidOf(y.(txid := x.txid))
            && |y.vout| == |kept| + 1
            && y.vout[|kept|] == Output(0, "6a2454523039" + Digest(node, Prepared(node, b)))
            && Selects(kept, x.vout)
            && (forall j :: 0 <= j < |kept| ==> y.vout[j] == x.vout[kept[j]])
  {
    kept := KeptIndices(b.txs[0].vout);
    CoinbaseFields(node, b);
    PreparedParts(node, b);
    hide Prepared, Kept, Digest, WithPayload, Selects;
  }

  /** Increasing indices of exactly the outputs that are no commitments. */
  ghost predicate Selects(at: seq<nat>, vout: seq<Output>) {
    && (forall j :: 0 <= j < |at| ==> at[j] < |vout|)
    && (forall j, k :: 0 <= j < k < |at| ==> at[j] < at[k])
    && (forall n: nat :: n < |vout| ==> (n in at <==> !("6a2454523039" <= vout[n].script)))
  }

  lemma CoinbaseFields<J>(node: Node<J>, b: Block<J>)
    requires HasCoinbase(b)
    ensures HasCoinbase(Prepared(node, b))
    ensures var x, y := b.txs[0], Prepared(node, b).txs[0];
            && y.isCoinbase == x.isCoinbase && y.vin == x.vin && y.sender == x.sender
            && y.txid == node.txidOf(y.(txid := x.txid))
  {
    hide Digest, Gathered, Kept;
    var p := WithPayload(b);
    var cb := p.txs[0].(metadata := map[], vout := Kept(p.txs[0].vout) + [CommitmentOf(node, p)]);
    assert Prepared(node, b).txs[0] == cb.(txid := node.txidOf(cb));
    assert p.txs[0] == b.txs[0];
  }

  ghost predicate Keeps(at: seq<nat>, vout: seq<Output>, kept: seq<Output>) {
    |at| == |kept| && forall j :: 0 <= j < |at| ==> at[j] < |vout| && kept[j] == vout[at[j]]
  }

  lemma {:induction false} KeptIndices(vout: seq<Output>) returns (at: seq<nat>)
    ensures Selects(at, vout) && Keeps(at, vout, Kept(vout))
  {
    at := [];
    if vout != [] {
      var n := |vout| - 1;
      var front := KeptIndices(vout[..n]);
      at := if IsCommitment(vout[n]) then front else front + [n];
      hide Selects, Keeps, IsCommitment;
      SelectsMore(front, vout);
      KeepsMore(front, vout, Kept(vout[..n]));
    }
  }

  lemma SelectsMore(at: seq<nat>, vout: seq<Output>)
    requires vout != [] && Selects(at, vout[..|vout| - 1])
    ensures Selects(if IsCommitment(vout[|vout| - 1]) then at else at + [|vout| - 1], vout)
  {
    var n := |vout| - 1;
    assert IsCommitment(vout[n]) <==> "6a2454523039" <= vout[n].script;
    hide IsCommitment;
    forall m: nat | m < n ensures m in at <==> !("6a2454523039" <= vout[m].script) {
      assert vout[..n][m] == vout[m];
    }
    assert n !in at;
  }

  lemma KeepsMore(at: seq<nat>, vout: seq<Output>, kept: seq<Output>)
    requires vout != [] && Keeps(at, vout[..|vout| - 1], kept)
    ensures Keeps(at, vout, kept)
    ensures Keeps(at + [|vout| - 1], vout, kept + [vout[|vout| - 1]])
  {
  }

  ghost predicate LastWith<J>(txs: seq<Tx<J>>, k: Text, i: int) {
    0 < i < |txs| && k in txs[i].metadata && forall j :: i < j < |txs| ==> k !in txs[j].metadata
  }

  lemma {:induction false} GatheredIs<J>(txs: seq<Tx<J>>, k: Text) returns (i: int)
    ensures k in Gathered(txs) ==> LastWith(txs, k, i) && Gathered(txs)[k] == txs[i].metadata[k]
    ensures k !in Gathered(txs) ==> forall j :: 0 < j < |txs| ==> k !in txs[j].metadata
  {
    i := |txs| - 1;
    if |txs| > 1 && k !in txs[i].metadata {
      var last := i;
      var front := txs[..last];
      i := GatheredIs(front, k);
      assert forall j :: 0 < j < last ==> txs[j] == front[j];
    }
  }

  /** The block's metadata are those of its payload transactions: every key some of them
      brings, with the value of the last that brings it. */
  lemma MetadataGathered<J>(node: Node<J>, b: Block<J>, k: Text) returns (i: int)
    requires HasCoinbase(b)
    ensures var gathered := Prepared(node, b).metadata;
            && (k in gathered ==> LastWith(b.txs, k, i) && gathered[k] == b.txs[i].metadata[k])
            && (k !in gathered ==> forall j :: 0 < j < |b.txs| ==> k !in b.txs[j].metadata)
  {
    i := GatheredIs(b.txs, k);
    PreparedParts(node, b);
    hide Prepared, Gathered;
  }

  /** Two accepted blocks with one commitment carry one payload, unless their two
      preimages collide under the hash. */
  lemma CommitmentBindsPayload<J(!new)>(node: Node<J>, a: Block<J>, b: Block<J>, i: nat, j: nat)
    requires CountsInputs(node) && BlockFits(node, a) && BlockFits(node, b)
    requires Accepted(node, a) && Accepted(node, b)
    requires i < |a.txs[0].vout| && j < |b.txs[0].vout|
    requires IsCommitment(a.txs[0].vout[i]) && a.txs[0].vout[i] == b.txs[0].vout[j]
    requires node.hash(Preimage(node, a)) == node.hash(Preimage(node, b)) ==> Preimage(node, a) == Preimage(node, b)
    ensures SameTxs(node, a.txs[1..], b.txs[1..]) && Dumps(node, a.metadata) == Dumps(node, b.metadata)
    ensures a.height % 0x1_0000_0000 == b.height % 0x1_0000_0000
  {
    hide CountsInputs, BlockFits, Preimage, SameTxs, Dumps, PayloadOk, IsCommitment;
    SameBehind(COMMITMENT_PREFIX, Digest(node, a), Digest(node, b));
    PreimageInjective(node, a, b);
  }

  lemma SameBehind(prefix: Text, s: Text, t: Text)
    requires prefix + s == prefix + t
    ensures s == t
  {
    assert s == (prefix + s)[|prefix|..];
    assert t == (prefix + t)[|prefix|..];
  }

  lemma CommitmentIsCommitment<J>(node: Node<J>, b: Block<J>)
    requires b.txs != []
    ensures IsCommitment(CommitmentOf(node, b))
  {
    hide Digest;
    PrefixFirst(COMMITMENT_PREFIX, Digest(node, b));
  }

  lemma PrefixFirst(prefix: Text, t: Text)
    ensures HasPrefix(prefix + t, prefix)
  {
  }

  /** Validation accepts what preparation made exactly when the payload metadata are
      objects and no coinbase output is a token or a lock. */
  lemma PrepareEstablishesCheck<J>(node: Node<J>, b: Block<J>)
    requires Preparable(b)
    ensures Accepted(node, Prepared(node, b)) <==> Clean(node, b)
  {
    hide PayloadOk, CoinbaseOk, Prepared, CommitmentOf, Gathered, Kept, Scrubbed, IsCommitment, WithPayload, OwnMetadata;
    PreparedParts(node, b);
    PayloadAccepted(node, b);
    CoinbaseAccepted(node, b);
  }

  lemma PayloadAccepted<J>(node: Node<J>, b: Block<J>)
    requires Preparable(b)
    ensures PayloadOk(node, Prepared(node, b))
       <==> forall i :: 0 < i < |b.txs| ==> forall k :: k in b.txs[i].metadata ==> node.isObject(b.txs[i].metadata[k])
  {
    hide Digest, ScrubbedAll, Gathered, Kept, Dumps, Scrubbed;
    PreparedParts(node, b);
    hide Prepared, CommitmentOf;
    forall i | 0 < i < |b.txs|
      ensures IsScrubbed(Scrubbed(b.txs[i])) && Scrubbed(b.txs[i]).metadata == b.txs[i].metadata
      ensures OwnMetadata(Scrubbed(b.txs[i]))
    {
      ScrubbedTwice(b.txs[i]);
      ScrubbedKeeps(b.txs[i]);
    }
  }

  lemma ScrubbedKeeps<J>(tx: Tx<J>)
    ensures Scrubbed(tx).metadata == tx.metadata && Scrubbed(tx).txid == tx.txid
    ensures OwnMetadata(tx) ==> OwnMetadata(Scrubbed(tx))
  {
  }

  lemma CoinbaseAccepted<J>(node: Node<J>, b: Block<J>)
    requires Preparable(b)
    ensures var q := Prepared(node, b);
            q.txs != [] && (CoinbaseOk(node, q)
            <==> (forall o :: o in b.txs[0].vout && !IsCommitment(o) ==> !node.isTokenOrLock(o.script))
                 && !node.isTokenOrLock(CommitmentOf(node, WithPayload(b)).script))
  {
    hide Digest, ScrubbedAll, Gathered, Kept, IsCommitment;
    PreparedParts(node, b);
    CommitmentIsCommitment(node, WithPayload(b));
    hide Prepared, CommitmentOf, WithPayload;
    var kept, c := Kept(b.txs[0].vout), CommitmentOf(node, WithPayload(b));
    var vout := kept + [c];
    assert vout[|kept|] == c;
    forall o | o in b.txs[0].vout && !IsCommitment(o) ensures exists i :: 0 <= i < |kept| && vout[i] == o {
      assert o in kept;
      var i :| 0 <= i < |kept| && kept[i] == o;
      assert vout[i] == o;
    }
  }

  lemma {:induction false} KeptAgain(vout: seq<Output>, c: Output)
    requires IsCommitment(c)
    ensures Kept(Kept(vout) + [c]) == Kept(vout)
  {
    assert (Kept(vout) + [c])[..|Kept(vout)|] == Kept(vout);
    KeptAll(Kept(vout));
  }

  lemma {:induction false} KeptAll(vout: seq<Output>)
    requires forall i :: 0 <= i < |vout| ==> !IsCommitment(vout[i])
    ensures Kept(vout) == vout
  {
    if vout != [] {
      KeptAll(vout[..|vout| - 1]);
    }
  }

  /** computeTxId hashes the transaction, not the identifier it stores. */
  ghost predicate TxidIgnoresItself<J(!new)>(node: Node<J>) {
    forall tx: Tx<J>, t: Text :: node.txidOf(tx.(txid := t)) == node.txidOf(tx)
  }

  /** Preparing a prepared block changes nothing. */
  lemma PrepareIsIdempotent<J(!new)>(node: Node<J>, b: Block<J>)
    requires HasCoinbase(b) && TxidIgnoresItself(node)
    ensures HasCoinbase(Prepared(node, b)) && Prepared(node, Prepared(node, b)) == Prepared(node, b)
  {
    hide Digest, Gathered, Kept, Preimage;
    PreparedParts(node, b);
    var q := Prepared(node, b);
    PreparedParts(node, q);
    CommitmentIsCommitment(node, WithPayload(b));
    KeptAgain(b.txs[0].vout, CommitmentOf(node, WithPayload(b)));
    forall i | 0 < i < |b.txs| ensures Scrubbed(q.txs[i]) == q.txs[i] {
      ScrubbedTwice(b.txs[i]);
    }
    assert ScrubbedAll(q.txs) == q.txs;
    assert WithPayload(q) == q;
    var c := CommitmentOf(node, WithPayload(b));
    assert Kept(q.txs[0].vout) + [c] == q.txs[0].vout;
    var cb := q.txs[0].(metadata := map[], vout := Kept(q.txs[0].vout) + [c]);
    assert cb == q.txs[0];
    CoinbaseTxid(node, b);
    assert Prepared(node, q).txs == q.txs;
  }

  lemma CoinbaseTxid<J(!new)>(node: Node<J>, b: Block<J>)
    requires HasCoinbase(b) && TxidIgnoresItself(node)
    ensures var cb := Prepared(node, b).txs[0]; cb.(txid := node.txidOf(cb)) == cb
  {
    hide Digest, Gathered, Kept;
    var p := WithPayload(b);
    var cb := p.txs[0].(metadata := map[], vout := Kept(p.txs[0].vout) + [CommitmentOf(node, p)]);
    assert Prepared(node, b).txs[0] == cb.(txid := node.txidOf(cb));
  }

  // ---- the code ----

  lemma {:induction false} InputFieldsAppend(a: seq<Input>, x: Input)
    ensures InputFields(a + [x]) == InputFields(a) + Field(x.pubKey) + Field(x.scriptPubKey)
  {
    hide Field;
    if a == [] {
      assert (a + [x])[1..] == [];
      assert InputFields([]) == [];
    } else {
      InputFieldsAppend(a[1..], x);
      assert (a + [x])[1..] == a[1..] + [x];
      var f, g, h, i, j := Field(a[0].pubKey), Field(a[0].scriptPubKey), InputFields(a[1..]), Field(x.pubKey), Field(x.scriptPubKey);
      assert f + (g + (h + i + j)) == f + (g + h) + i + j;
    }
  }

  lemma {:induction false} AllTxFieldsAppend<J>(node: Node<J>, a: seq<Tx<J>>, x: Tx<J>)
    ensures AllTxFields(node, a + [x]) == AllTxFields(node, a) + TxFields(node, x)
  {
    hide TxFields;
    if a == [] {
      assert (a + [x])[1..] == [];
    } else {
      AllTxFieldsAppend(node, a[1..], x);
      assert (a + [x])[1..] == a[1..] + [x];
    }
  }

  /** One transaction's fields appended to the buffer. */
  method AppendTx<J>(node: Node<J>, data: Bytes, tx: Tx<J>) returns (out: Bytes)
    ensures out == data + TxFields(node, tx)
  {
    hide Field;
    var raw := node.serialize(tx);
    out := data + Field(raw);
    out := out + [if tx.isCoinbase then 1 else 0];
    out := out + Field(BytesOf(tx.txid));
    out := out + Field(BytesOf(tx.sender));
    ghost var head := out;
    for i := 0 to |tx.vin|
      invariant out == head + InputFields(tx.vin[..i])
    {
      assert tx.vin[..i + 1] == tx.vin[..i] + [tx.vin[i]];
      InputFieldsAppend(tx.vin[..i], tx.vin[i]);
      var a, b := Field(tx.vin[i].pubKey), Field(tx.vin[i].scriptPubKey);
      assert head + InputFields(tx.vin[..i]) + a + b == head + (InputFields(tx.vin[..i]) + a + b);
      out := out + a;
      out := out + b;
    }
    assert tx.vin[..|tx.vin|] == tx.vin;
    Gather5(data, Field(raw), [Flag(tx.isCoinbase)], Field(BytesOf(tx.txid)), Field(BytesOf(tx.sender)), InputFields(tx.vin));
  }

  lemma Gather5(data: Bytes, a: Bytes, b: Bytes, c: Bytes, d: Bytes, e: Bytes)
    ensures data + a + b + c + d + e == data + (a + (b + (c + (d + e))))
  {
    Assoc(data + a + b + c, d, e);
    Assoc(data + a + b, c, d + e);
    Assoc(data + a, b, c + (d + e));
    Assoc(data, a, b + (c + (d + e)));
  }

  /** Walking the std::map in its order. */
  method AppendMeta(data: Bytes, dumps: map<Text, Text>) returns (out: Bytes)
    ensures out == data + MetaFields(SortedKeys(dumps.Keys), dumps)
  {
    hide Field, SortedKeys;
    out := data;
    var todo := dumps.Keys;
    assert forall k :: k in SortedKeys(dumps.Keys) ==> k in dumps;
    while todo != {}
      invariant todo <= dumps.Keys
      invariant forall k :: k in SortedKeys(todo) ==> k in dumps
      invariant data + MetaFields(SortedKeys(dumps.Keys), dumps) == out + MetaFields(SortedKeys(todo), dumps)
      decreases |todo|
    {
      ghost var least := HasMinimum(todo);
      assert IsMinimum(least, todo);
      var k :| k in todo && forall x :: x in todo && x != k ==> Precedes(k, x);
      SortedStep(todo, k);
      assert forall x :: x in SortedKeys(todo - {k}) ==> x in dumps;
      var a, b := Field(BytesOf(k)), Field(BytesOf(dumps[k]));
      ghost var more := MetaFields(SortedKeys(todo - {k}), dumps);
      MetaCons(k, SortedKeys(todo - {k}), dumps);
      assert out + (a + (b + more)) == out + a + b + more;
      out := out + a;
      out := out + b;
      todo := todo - {k};
    }
    NoKeys(dumps);
    assert out + [] == out;
  }

  lemma NoKeys(dumps: map<Text, Text>)
    ensures SortedKeys({}) == [] && MetaFields([], dumps) == []
  {
  }

  lemma MetaCons(k: Text, rest: seq<Text>, dumps: map<Text, Text>)
    requires k in dumps && forall x :: x in rest ==> x in dumps
    ensures MetaFields([k] + rest, dumps) == Field(BytesOf(k)) + (Field(BytesOf(dumps[k])) + MetaFields(rest, dumps))
  {
    assert ([k] + rest)[1..] == rest;
  }

  lemma SortedStep(s: set<Text>, k: Text)
    requires IsMinimum(k, s)
    ensures SortedKeys(s) == [k] + SortedKeys(s - {k})
  {
    var m :| IsMinimum(m, s) && SortedKeys(s) == [m] + SortedKeys(s - {m});
    OneMinimum(s, k, m);
  }

  lemma OneMinimum(s: set<Text>, k: Text, m: Text)
    requires IsMinimum(k, s) && IsMinimum(m, s)
    ensures k == m
  {
    if k != m {
      assert m in s && k in s;
      NotBothWays(k, m);
    }
  }

  lemma {:induction false} NotBothWays(a: Text, b: Text)
    ensures !(Precedes(a, b) && Precedes(b, a))
  {
    if a != [] && b != [] && a[0] == b[0] {
      NotBothWays(a[1..], b[1..]);
    }
  }

  method ComputeDigest<J>(node: Node<J>, b: Block<J>) returns (digest: Text)
    requires b.txs != []
    ensures digest == Digest(node, b)
  {
    hide AllTxFields, MetaFields, SortedKeys, Le, TxFields;
    var data := BytesOf(TAG);
    data := data + Le(b.height % 0x1_0000_0000, 4);
    data := data + Le(|b.txs| - 1, 8);
    ghost var head := data;
    ghost var payload := b.txs[1..];
    NoTxFields(node);
    for i := 1 to |b.txs|
      invariant data == head + AllTxFields(node, payload[..i - 1])
    {
      assert payload[..i] == payload[..i - 1] + [b.txs[i]];
      AllTxFieldsAppend(node, payload[..i - 1], b.txs[i]);
      Assoc(head, AllTxFields(node, payload[..i - 1]), TxFields(node, b.txs[i]));
      data := AppendTx(node, data, b.txs[i]);
    }
    assert payload[..|payload|] == payload;
    var dumps := Dumps(node, b.metadata);
    data := data + Le(|dumps|, 8);
    data := AppendMeta(data, dumps);
    Gather5(BytesOf(TAG), Le(b.height % 0x1_0000_0000, 4), Le(|b.txs| - 1, 8), AllTxFields(node, payload), Le(|dumps|, 8),
            MetaFields(SortedKeys(dumps.Keys), dumps));
    digest := node.hash(data);
  }

  lemma NoTxFields<J>(node: Node<J>)
    ensures AllTxFields(node, []) == []
  {
  }

  /** The block being mined, edited in place. */
  class Template<!J> {
    const height: int
    var txs: seq<Tx<J>>
    var metadata: map<Text, J>

    constructor (b: Block<J>)
      ensures Value() == b
    {
      height, txs, metadata := b.height, b.txs, b.metadata;
    }

    ghost function Value(): Block<J>
      reads this
    {
      Block(height, txs, metadata)
    }

    /** prepare: before activation it does nothing; otherwise it ends in the prepared
        block, or throws when there is no coinbase or metadata is not a transaction's own. */
    method Prepare(node: Node<J>) returns (ok: bool)
      modifies this
      ensures !Active(height) ==> ok && Value() == old(Value())
      ensures Active(height) ==> (ok <==> Preparable(old(Value())))
      ensures Active(height) && ok ==> Value() == Prepared(node, old(Value()))
    {
      if !Active(height) {
        return true;
      }
      if txs == [] || !txs[0].isCoinbase {
        return false;
      }
      ghost var was := Value();
      Scrub();
      var gathered := Gather(was);
      if !gathered {
        return false;
      }
      Commit(node, was);
      return true;
    }

    method Scrub()
      requires txs != []
      modifies this`txs
      ensures txs == ScrubbedAll(old(txs))
    {
      ghost var was := txs;
      for i := 1 to |txs|
        invariant |txs| == |was|
        invariant forall j :: 0 <= j < |was| ==> txs[j] == if 0 < j < i then Scrubbed(was[j]) else was[j]
      {
        txs := txs[i := Scrubbed(txs[i])];
      }
      assert txs == ScrubbedAll(was);
    }

    method Gather(ghost was: Block<J>) returns (ok: bool)
      requires txs == ScrubbedAll(was.txs) && HasCoinbase(was)
      modifies this`metadata
      ensures ok <==> Preparable(was)
      ensures ok ==> metadata == Gathered(was.txs)
    {
      hide ScrubbedAll, Scrubbed, Gathered;
      metadata := map[];
      NoneGathered(was.txs);
      for i := 1 to |txs|
        invariant metadata == Gathered(was.txs[..i])
        invariant forall j :: 0 < j < i ==> OwnMetadata(was.txs[j])
      {
        ScrubbedKeeps(was.txs[i]);
        GatheredStep(was.txs, i);
        if exists k :: k in txs[i].metadata && k != txs[i].txid {
          return false;
        }
        metadata := metadata + txs[i].metadata;
      }
      assert was.txs[..|was.txs|] == was.txs;
      return true;
    }

    method Commit(node: Node<J>, ghost was: Block<J>)
      requires HasCoinbase(was) && Value() == WithPayload(was)
      modifies this`txs
      ensures Value() == Prepared(node, was)
    {
      hide ScrubbedAll, Gathered, Digest, Kept;
      var cb := txs[0].(metadata := map[]);
      cb := cb.(vout := Kept(cb.vout));
      txs := txs[0 := cb];
      assert Value() == WithCoinbase(WithPayload(was), cb);
      DigestIgnoresCoinbase(node, WithPayload(was), cb);
      var digest := ComputeDigest(node, Block(height, txs, metadata));
      cb := cb.(vout := cb.vout + [Output(0, COMMITMENT_PREFIX + digest)]);
      cb := cb.(txid := node.txidOf(cb));
      txs := txs[0 := cb];
      assert Value() == WithCoinbase(WithPayload(was), cb);
    }
  }

  lemma GatheredStep<J>(txs: seq<Tx<J>>, i: nat)
    requires 0 < i < |txs|
    ensures Gathered(txs[..i + 1]) == Gathered(txs[..i]) + txs[i].metadata
  {
    assert txs[..i + 1][..i] == txs[..i];
    assert txs[..i + 1][i] == txs[i];
  }

  lemma NoneGathered<J>(txs: seq<Tx<J>>)
    requires txs != []
    ensures Gathered(txs[..1]) == map[]
  {
  }

  /** check. */
  method Check<J>(node: Node<J>, b: Block<J>) returns (ok: bool)
    ensures ok <==> !Active(b.height) || Accepted(node, b)
  {
    hide Digest, Gathered, Dumps;
    if !Active(b.height) {
      return true;
    }
    if b.txs == [] || !b.txs[0].isCoinbase || b.txs[0].metadata != map[] {
      return false;
    }
    var payload := CheckPayload(node, b);
    if !payload {
      return false;
    }
    ok := CheckCoinbase(node, b);
  }

  method CheckPayload<J>(node: Node<J>, b: Block<J>) returns (ok: bool)
    requires HasCoinbase(b)
    ensures ok <==> PayloadOk(node, b)
  {
    hide Dumps, Gathered;
    var scrubbed := CheckScrubbed(b);
    if !scrubbed {
      return false;
    }
    var expected := ExpectedMetadata(node, b);
    if expected.None? {
      return false;
    }
    return Dumps(node, b.metadata) == expected.value;
  }

  method CheckScrubbed<J>(b: Block<J>) returns (ok: bool)
    requires b.txs != []
    ensures ok <==> forall i :: 0 < i < |b.txs| ==> IsScrubbed(b.txs[i])
  {
    for i := 1 to |b.txs|
      invariant forall j :: 0 < j < i ==> IsScrubbed(b.txs[j])
    {
      if b.txs[i].sender != [] {
        return false;
      }
      var vin := b.txs[i].vin;
      for j := 0 to |vin|
        invariant forall k :: 0 <= k < j ==> vin[k].scriptPubKey == []
      {
        if vin[j].scriptPubKey != [] {
          return false;
        }
      }
    }
    return true;
  }

  method ExpectedMetadata<J>(node: Node<J>, b: Block<J>) returns (r: Option<map<Text, Text>>)
    requires b.txs != []
    ensures r.Some? <==> forall i :: 0 < i < |b.txs| ==> BoundMetadata(node, b.txs[i])
    ensures r.Some? ==> r.value == Dumps(node, Gathered(b.txs))
  {
    hide Dumps, Gathered;
    var expected: map<Text, Text> := map[];
    NoneExpected(node, b.txs);
    for i := 1 to |b.txs|
      invariant expected == Dumps(node, Gathered(b.txs[..i]))
      invariant forall j :: 0 < j < i ==> BoundMetadata(node, b.txs[j])
    {
      var metadata := b.txs[i].metadata;
      if exists k :: k in metadata && (k != b.txs[i].txid || !node.isObject(metadata[k])) {
        return None;
      }
      DumpsGathered(node, b.txs, i);
      expected := expected + Dumps(node, metadata);
    }
    assert b.txs[..|b.txs|] == b.txs;
    return Some(expected);
  }

  lemma NoneExpected<J>(node: Node<J>, txs: seq<Tx<J>>)
    requires txs != []
    ensures Dumps(node, Gathered(txs[..1])) == map[]
  {
    NoneGathered(txs);
  }

  lemma DumpsGathered<J>(node: Node<J>, txs: seq<Tx<J>>, i: nat)
    requires 0 < i < |txs|
    ensures Dumps(node, Gathered(txs[..i + 1])) == Dumps(node, Gathered(txs[..i])) + Dumps(node, txs[i].metadata)
  {
    assert txs[..i + 1][..i] == txs[..i];
    assert txs[..i + 1][i] == txs[i];
  }

  method CheckCoinbase<J>(node: Node<J>, b: Block<J>) returns (ok: bool)
    requires HasCoinbase(b)
    ensures ok <==> CoinbaseOk(node, b)
  {
    hide Digest, IsCommitment;
    var digest := ComputeDigest(node, b);
    var wanted := COMMITMENT_PREFIX + digest;
    var vout := b.txs[0].vout;
    var found, at := 0, 0;
    ghost var other := 0;
    for i := 0 to |vout|
      invariant forall j :: 0 <= j < i ==>
        !node.isTokenOrLock(vout[j].script) && (IsCommitment(vout[j]) ==> vout[j] == Output(0, wanted))
      invariant found == 0 ==> forall j :: 0 <= j < i ==> !IsCommitment(vout[j])
      invariant found == 1 ==> forall j :: 0 <= j < i && IsCommitment(vout[j]) ==> j == at
      invariant found >= 1 ==> at < i && IsCommitment(vout[at])
      invariant found >= 2 ==> other < at && IsCommitment(vout[other])
      invariant 0 <= found
    {
      if node.isTokenOrLock(vout[i].script) {
        return false;
      }
      if IsCommitment(vout[i]) {
        if vout[i].amount != 0 || vout[i].script != wanted {
          return false;
        }
        other := at;
        found, at := found + 1, i;
      }
    }
    return found == 1;
  }
}
