/** src/ai_oracle_service.cpp, lines 374-434: the text form of a queue item, and why the
    byte bounds on the stored arrays can never be what refuses them. */
module AnchorItem {
  import opened ByteCodec
  import opened Decimals
  import opened Lineage

  const MAX_ITEM_CHARS: nat := 64
  const MAX_ITEMS: nat := 256
  const MAX_BYTES: nat := 65536

  predicate IsLowerHexExact(t: Text, n: nat) {
    |t| == n && forall i :: 0 <= i < n ==> IsLowerHexDigit(t[i])
  }

  predicate IsTokenId(t: Text) {
    IsLowerHexExact(t, 8) || IsLowerHexExact(t, 16)
  }

  datatype Item = Item(token: Text, epoch: nat)

  function Render(i: Item): Text {
    i.token + ":" + Decimal(i.epoch)
  }

  /** What text the parser accepts as which item; leading zeros are let through. */
  ghost predicate Spells(t: Text, i: Item) {
    && IsTokenId(i.token) && 0 < i.epoch <= U64_MAX && |t| <= MAX_ITEM_CHARS
    && exists digits: Text :: t == i.token + ":" + digits && digits != [] && AllDigits(digits) && DecimalValue(digits) == i.epoch
  }

  ghost predicate IsItemText(t: Text) {
    exists i :: Spells(t, i)
  }

  /** std::string::rfind. */
  method RFind(t: Text, c: ByteChar) returns (r: Option<nat>)
    ensures r.Some? ==> r.value < |t| && t[r.value] == c && forall i :: r.value < i < |t| ==> t[i] != c
    ensures r.None? ==> c !in t
  {
    var i := |t|;
    while i > 0
      invariant 0 <= i <= |t| && forall j :: i <= j < |t| ==> t[j] != c
    {
      i := i - 1;
      if t[i] == c {
        return Some(i);
      }
    }
    return None;
  }

  lemma LastColon(t: Text, token: Text, digits: Text, pos: nat)
    requires t == token + ":" + digits && AllDigits(digits)
    requires pos < |t| && t[pos] == ':' && forall i :: pos < i < |t| ==> t[i] != ':'
    ensures pos == |token| && t[..pos] == token && t[pos + 1..] == digits
  {
    assert t[|token|] == ':';
    forall i | |token| < i < |t| ensures t[i] != ':' {
      assert t[i] == digits[i - |token| - 1] && IsDigit(digits[i - |token| - 1]);
    }
  }

  lemma NeedsColon(t: Text, i: Item)
    ensures Spells(t, i) ==> ':' in t
  {
    if Spells(t, i) {
      assert t[|i.token|] == ':';
    }
  }

  /** std::stoull on digits only; out of range throws. */
  method StoUll(t: Text) returns (r: Option<nat>)
    requires AllDigits(t)
    ensures r == if DecimalValue(t) <= U64_MAX then Some(DecimalValue(t)) else None
  {
    var value := 0;
    for i := 0 to |t|
      invariant value == DecimalValue(t[..i]) <= U64_MAX
    {
      assert t[..i + 1] == t[..i] + [t[i]];
      DecimalValueSnoc(t[..i], t[i]);
      value := value * 10 + DigitValue(t[i]);
      if value > U64_MAX {
        DecimalValuePrefix(t, i + 1);
        return None;
      }
    }
    assert t[..|t|] == t;
    return Some(value);
  }

  method ParseEvolutionAnchorQueueItem(t: Text) returns (r: Option<Item>)
    ensures r.Some? ==> Spells(t, r.value)
    ensures r.None? ==> !IsItemText(t)
  {
    hide IsTokenId;
    if t == [] || |t| > MAX_ITEM_CHARS {
      return None;
    }
    var pos := RFind(t, ':');
    if pos.None? {
      forall i ensures !Spells(t, i) {
        NeedsColon(t, i);
      }
      return None;
    }
    var token, digits := t[..pos.value], t[pos.value + 1..];
    assert t == token + ":" + digits;
    forall i | Spells(t, i) ensures i.token == token && digits != [] && AllDigits(digits) && DecimalValue(digits) == i.epoch {
      var d: Text :| t == i.token + ":" + d && d != [] && AllDigits(d) && DecimalValue(d) == i.epoch;
      LastColon(t, i.token, d, pos.value);
    }
    if pos.value == 0 || pos.value + 1 >= |t| || !IsTokenId(token) || !AllDigits(digits) {
      EmptyIsNoToken();
      return None;
    }
    var epoch := StoUll(digits);
    if epoch.None? || epoch.value == 0 {
      return None;
    }
    return Some(Item(token, epoch.value));
  }

  lemma EmptyIsNoToken()
    ensures !IsTokenId([])
  {
  }

  /** A text spells at most one item. */
  lemma SpellsOne(t: Text, i: Item, j: Item)
    requires Spells(t, i) && Spells(t, j)
    ensures i == j
  {
    hide IsTokenId;
    var d: Text :| t == i.token + ":" + d && d != [] && AllDigits(d) && DecimalValue(d) == i.epoch;
    var e: Text :| t == j.token + ":" + e && e != [] && AllDigits(e) && DecimalValue(e) == j.epoch;
    assert t[|i.token|] == ':';
    forall k | |i.token| < k < |t| ensures t[k] != ':' {
      assert IsDigit(d[k - |i.token| - 1]);
    }
    LastColon(t, j.token, e, |i.token|);
    assert t[|i.token| + 1..] == d && t[..|i.token|] == i.token;
  }

  lemma {:induction false} DecimalLength(n: nat, k: nat)
    requires n < Pow10(k) && k > 0
    ensures |Decimal(n)| <= k
    decreases k
  {
    if n >= 10 {
      DecimalLength(n / 10, k - 1);
    }
  }

  predicate ValidItem(i: Item) {
    IsTokenId(i.token) && 0 < i.epoch <= U64_MAX
  }

  lemma TwentyDigits()
    ensures U64_MAX < Pow10(20)
  {
    assert Pow10(5) == 100_000;
    assert Pow10(10) == 100_000 * Pow10(5) by {
      assert Pow10(10) == 10 * (10 * (10 * (10 * (10 * Pow10(5)))));
    }
    assert Pow10(15) == 10 * (10 * (10 * (10 * (10 * Pow10(10)))));
    assert Pow10(20) == 10 * (10 * (10 * (10 * (10 * Pow10(15)))));
  }

  /** What enqueueing writes is what every pass reads back. */
  lemma RenderIsSpelled(i: Item)
    requires ValidItem(i)
    ensures Spells(Render(i), i)
  {
    TwentyDigits();
    DecimalLength(i.epoch, 20);
    DecimalDenotes(i.epoch);
  }

  /** The canonical text of the item a text spells. */
  ghost predicate IsCanonicalText(t: Text) {
    exists i :: Spells(t, i) && t == Render(i)
  }

  /** A text that spells an item is its rendered text exactly when its epoch has no leading
      zero. */
  lemma RenderedUnlessZero(t: Text, i: Item)
    requires Spells(t, i)
    ensures |i.token| + 1 < |t|
    ensures t == Render(i) <==> t[|i.token| + 1] != '0'
  {
    hide IsTokenId;
    var d: Text :| t == i.token + ":" + d && d != [] && AllDigits(d) && DecimalValue(d) == i.epoch;
    assert t[|i.token| + 1] == d[0];
    assert Render(i)[|i.token| + 1] == Decimal(i.epoch)[0];
    DecimalDenotes(i.epoch);
    if d[0] != '0' {
      CanonicalDecimalIsRendered(d);
    }
  }

  /** So comparing texts compares items exactly when no epoch has a leading zero: two texts
      without one are equal if and only if their items are, and a text with one differs from
      another text of its own item, the rendered one. */
  lemma TextsCompareItems(t: Text, i: Item, u: Text, j: Item)
    requires Spells(t, i) && Spells(u, j)
    ensures |i.token| + 1 < |t| && |j.token| + 1 < |u|
    ensures t[|i.token| + 1] != '0' && u[|j.token| + 1] != '0' ==> (t == u <==> i == j)
    ensures t[|i.token| + 1] == '0' ==> Spells(Render(i), i) && Render(i) != t
  {
    hide Spells, Render;
    RenderedUnlessZero(t, i);
    RenderedUnlessZero(u, j);
    if t == u {
      SpellsOne(t, i, j);
    }
    SpelledIsValid(t, i);
    RenderIsSpelled(i);
  }

  lemma SpelledIsValid(t: Text, i: Item)
    requires Spells(t, i)
    ensures ValidItem(i)
  {
  }

  /** Such a text: the parser lets the zero through. */
  lemma LeadingZeroSpells()
    ensures Spells("0123abcd:07", Item("0123abcd", 7)) && "0123abcd:07" != Render(Item("0123abcd", 7))
  {
    var t: Text, token: Text, digits: Text := "0123abcd:07", "0123abcd", "07";
    assert t == token + ":" + digits;
    assert digits[..1] == ['0'];
    assert [digits[0]][..0] == [];
    assert DecimalValue(['0']) == 0;
    assert DecimalValue(digits) == 7;
    assert Decimal(7) == ['7'];
    assert |Render(Item(token, 7))| == 10;
  }

  lemma RenderedApart(i: Item, j: Item)
    requires ValidItem(i) && ValidItem(j) && Render(i) == Render(j)
    ensures i == j
  {
    RenderIsSpelled(i);
    RenderIsSpelled(j);
    SpellsOne(Render(i), i, j);
  }

  // ---- stored arrays ----

  /** The length of the JSON dump of an array of strings that need no escapes. */
  function JsonSize(items: seq<Text>): nat {
    if items == [] then 2 else 1 + QuotedSize(items)
  }

  function QuotedSize(items: seq<Text>): nat {
    if items == [] then 0 else QuotedSize(items[..|items| - 1]) + |items[|items| - 1]| + 3
  }

  predicate ShortItems(items: seq<Text>) {
    forall i :: 0 <= i < |items| ==> |items[i]| <= MAX_ITEM_CHARS
  }

  lemma {:induction false} QuotedBound(items: seq<Text>)
    requires ShortItems(items)
    ensures QuotedSize(items) <= |items| * (MAX_ITEM_CHARS + 3)
  {
    if items != [] {
      QuotedBound(items[..|items| - 1]);
    }
  }

  /** With at most 256 items of at most 64 characters the byte bound never bites. */
  lemma BytesNeverBite(items: seq<Text>)
    requires ShortItems(items) && |items| <= MAX_ITEMS
    ensures JsonSize(items) <= 17_153 < MAX_BYTES
  {
    QuotedBound(items);
  }
}
