/** market/market_http_api_v1.py, lines 94-112 and 134-237: the indicative quote. Prices are
    exact rationals; nothing in the answer depends on the order of the adverts. */
module MarketQuote {
  import opened ByteCodec
  import InitEnvelope
  import opened Decimals
  import opened RatioText

  const BUY_BASE: Text := "BUY_BASE"
  const SELL_BASE: Text := "SELL_BASE"

  datatype Pair = Pair(baseDecimals: nat, quoteDecimals: nat)

  datatype Advert = Advert(advertId: Text, side: Text, baseAtoms: int, quoteAtoms: int, createdAt: int)

  datatype Entry = Entry(advert: Advert, price: Text, n: int, d: int)

  datatype Spread = Spread(price: Text, signedPrice: Text, percent: Text, bps: Text)

  datatype Midpoint = Midpoint(price: Text, n: int, d: int)

  datatype Quote = Quote(
    bidCount: nat, askCount: nat, bestBid: Option<Entry>, bestAsk: Option<Entry>,
    spread: Option<Spread>, midpoint: Option<Midpoint>, crossed: bool)

  predicate Priced(a: Advert) {
    a.baseAtoms > 0 && a.quoteAtoms > 0
  }

  /** Quote units for one base unit. */
  function Price(pair: Pair, a: Advert): real
    requires Priced(a)
  {
    a.quoteAtoms as real / Pow10(pair.quoteDecimals) as real / (a.baseAtoms as real / Pow10(pair.baseDecimals) as real)
  }

  function Numerator(pair: Pair, a: Advert): int {
    a.quoteAtoms * Pow10(pair.baseDecimals)
  }

  function Denominator(pair: Pair, a: Advert): int {
    a.baseAtoms * Pow10(pair.quoteDecimals)
  }

  /** The earlier advert, and on one second the smaller identifier. */
  predicate KeyBefore(a: Advert, b: Advert) {
    a.createdAt < b.createdAt || (a.createdAt == b.createdAt && InitEnvelope.Precedes(a.advertId, b.advertId))
  }

  /** a is the better offer: by price, then by key. */
  predicate Beats(pair: Pair, a: Advert, b: Advert, wantMax: bool)
    requires Priced(a) && Priced(b)
  {
    if Price(pair, a) == Price(pair, b) then KeyBefore(a, b)
    else (Price(pair, a) > Price(pair, b)) == wantMax
  }

  ghost predicate AllPriced(items: seq<Advert>) {
    forall a :: a in items ==> Priced(a)
  }

  /** Nothing on this side beats it. */
  ghost predicate IsBest(pair: Pair, items: seq<Advert>, best: Advert, wantMax: bool)
    requires AllPriced(items)
  {
    best in items && forall a :: a in items ==> !Beats(pair, a, best, wantMax)
  }

  /** An identifier names one advert. */
  ghost predicate IdsIdentify(adverts: seq<Advert>) {
    forall a, b :: a in adverts && b in adverts && a.advertId == b.advertId ==> a == b
  }

  function OnSide(adverts: seq<Advert>, side: Text): (r: seq<Advert>)
    ensures forall a :: a in r <==> a in adverts && a.side == side
  {
    if adverts == [] then []
    else
      var front, last := adverts[..|adverts| - 1], adverts[|adverts| - 1];
      assert adverts == front + [last];
      if last.side == side then OnSide(front, side) + [last] else OnSide(front, side)
  }

  // ----- the cross-multiplied comparison orders prices -----

  lemma Homomorphism(a: int, b: int)
    ensures (a * b) as real == a as real * b as real
  {
  }

  lemma SameQuotient(a: real, b: real, p: real, q: real)
    requires b > 0.0 && p > 0.0 && q > 0.0
    ensures a / q / (b / p) == a * p / (b * q)
  {
    var x, y := a / q / (b / p), a * p / (b * q);
    assert b / p > 0.0 && b * q > 0.0;
    assert x * (b / p) * q == a;
    assert x * (b / p) * q * p == x * (b / p * p) * q == x * b * q == x * (b * q);
    assert y * (b * q) == a * p;
    Cancel(x, y, b * q);
  }

  lemma Cancel(x: real, y: real, z: real)
    requires z > 0.0 && x * z == y * z
    ensures x == y
  {
    ScaleOrder(x, y, z);
    ScaleOrder(y, x, z);
  }

  lemma PositiveProduct(a: int, b: int)
    requires a > 0 && b > 0
    ensures a * b > 0
  {
  }

  /** The exact ratio is the price. */
  lemma RatioIsPrice(pair: Pair, a: Advert)
    requires Priced(a)
    ensures Numerator(pair, a) > 0 && Denominator(pair, a) > 0
    ensures Numerator(pair, a) as real / Denominator(pair, a) as real == Price(pair, a)
  {
    hide Pow10;
    var p, q := Pow10(pair.baseDecimals), Pow10(pair.quoteDecimals);
    PositiveProduct(a.quoteAtoms, p);
    PositiveProduct(a.baseAtoms, q);
    Homomorphism(a.quoteAtoms, p);
    Homomorphism(a.baseAtoms, q);
    SameQuotient(a.quoteAtoms as real, a.baseAtoms as real, p as real, q as real);
  }

  /** _ratio_cmp agrees with the order of the quotients. */
  lemma CrossMultiply(an: int, ad: int, bn: int, bd: int)
    requires ad > 0 && bd > 0
    ensures an * bd > bn * ad <==> an as real / ad as real > bn as real / bd as real
    ensures an * bd == bn * ad <==> an as real / ad as real == bn as real / bd as real
  {
    var x, y, c, d := an as real / ad as real, bn as real / bd as real, ad as real, bd as real;
    Homomorphism(an, bd);
    Homomorphism(bn, ad);
    Homomorphism(ad, bd);
    PositiveProduct(ad, bd);
    assert x * (c * d) == x * c * d == an as real * d;
    assert y * (c * d) == y * d * c == bn as real * c;
    ScaleOrder(x, y, c * d);
    ScaleOrder(y, x, c * d);
  }

  // ----- the order of offers -----

  lemma {:induction false} PrecedesTotal(a: Text, b: Text)
    ensures a == b || InitEnvelope.Precedes(a, b) || InitEnvelope.Precedes(b, a)
  {
    if a != [] && b != [] && a[0] == b[0] {
      PrecedesTotal(a[1..], b[1..]);
      assert a == [a[0]] + a[1..] && b == [b[0]] + b[1..];
    }
  }

  lemma BeatsTransitive(pair: Pair, a: Advert, b: Advert, c: Advert, wantMax: bool)
    requires Priced(a) && Priced(b) && Priced(c)
    requires Beats(pair, a, b, wantMax) && Beats(pair, b, c, wantMax)
    ensures Beats(pair, a, c, wantMax)
  {
    hide InitEnvelope.Precedes, Pow10, Price;
    if InitEnvelope.Precedes(a.advertId, b.advertId) && InitEnvelope.Precedes(b.advertId, c.advertId) {
      InitEnvelope.PrecedesTransitive(a.advertId, b.advertId, c.advertId);
    }
  }

  lemma BeatsIrreflexive(pair: Pair, a: Advert, wantMax: bool)
    requires Priced(a)
    ensures !Beats(pair, a, a, wantMax)
  {
    InitEnvelope.PrecedesIrreflexive(a.advertId);
  }

  lemma BeatsTotal(pair: Pair, a: Advert, b: Advert, wantMax: bool)
    requires Priced(a) && Priced(b) && a.advertId != b.advertId
    ensures Beats(pair, a, b, wantMax) || Beats(pair, b, a, wantMax)
  {
    hide InitEnvelope.Precedes, Pow10, Price;
    PrecedesTotal(a.advertId, b.advertId);
  }

  /** There is one best offer, and only membership decides which. */
  lemma BestIsUnique(pair: Pair, items: seq<Advert>, others: seq<Advert>, x: Advert, y: Advert, wantMax: bool)
    requires AllPriced(items) && AllPriced(others) && IdsIdentify(items)
    requires forall a :: a in items <==> a in others
    requires IsBest(pair, items, x, wantMax) && IsBest(pair, others, y, wantMax)
    ensures x == y
  {
    hide Beats;
    if x.advertId != y.advertId {
      BeatsTotal(pair, x, y, wantMax);
    }
  }

  lemma CommonFactor(u: int, v: int, p: int, q: int)
    requires p > 0 && q > 0
    ensures u * p * q > v * p * q <==> u > v
    ensures u * p * q == v * p * q <==> u == v
  {
    if u > v {
      assert (u - v) * p > 0;
      assert u * p - v * p > 0;
      assert (u * p - v * p) * q > 0;
    } else if u < v {
      assert (v - u) * p > 0;
      assert v * p - u * p > 0;
      assert (v * p - u * p) * q > 0;
    }
  }

  /** Prices compare as the crossed amounts do: the decimals of the pair fall out. */
  lemma PriceOrder(pair: Pair, a: Advert, b: Advert)
    requires Priced(a) && Priced(b)
    ensures Price(pair, a) > Price(pair, b) <==> a.quoteAtoms * b.baseAtoms > b.quoteAtoms * a.baseAtoms
    ensures Price(pair, a) == Price(pair, b) <==> a.quoteAtoms * b.baseAtoms == b.quoteAtoms * a.baseAtoms
  {
    hide Price, Pow10;
    var p, q := Pow10(pair.baseDecimals), Pow10(pair.quoteDecimals);
    RatioIsPrice(pair, a);
    RatioIsPrice(pair, b);
    CrossMultiply(Numerator(pair, a), Denominator(pair, a), Numerator(pair, b), Denominator(pair, b));
    Rearrange(a.quoteAtoms, b.baseAtoms, p, q);
    Rearrange(b.quoteAtoms, a.baseAtoms, p, q);
    CommonFactor(a.quoteAtoms * b.baseAtoms, b.quoteAtoms * a.baseAtoms, p, q);
  }

  lemma Rearrange(x: int, y: int, p: int, q: int)
    ensures x * p * (y * q) == x * y * p * q
  {
  }

  /** Which advert is chosen: no other has a better price; of those with the same price
      none is older; and of those of the same second none has a smaller identifier, by the
      first byte that differs. */
  lemma BestIsEarliest(pair: Pair, items: seq<Advert>, best: Advert, wantMax: bool, a: Advert)
    requires AllPriced(items) && IsBest(pair, items, best, wantMax) && a in items
    ensures wantMax ==> a.quoteAtoms * best.baseAtoms <= best.quoteAtoms * a.baseAtoms
    ensures !wantMax ==> a.quoteAtoms * best.baseAtoms >= best.quoteAtoms * a.baseAtoms
    ensures a.quoteAtoms * best.baseAtoms == best.quoteAtoms * a.baseAtoms ==> best.createdAt <= a.createdAt
    ensures a.quoteAtoms * best.baseAtoms == best.quoteAtoms * a.baseAtoms && best.createdAt == a.createdAt
        ==> a.advertId == best.advertId || exists n: nat :: InitEnvelope.ComesFirst(best.advertId, a.advertId, n)
  {
    PriceOrder(pair, a, best);
    hide Price, InitEnvelope.Precedes, InitEnvelope.ComesFirst;
    PrecedesTotal(a.advertId, best.advertId);
    InitEnvelope.PrecedesIs(best.advertId, a.advertId);
  }

  /** A new leader beats everything its predecessor was not beaten by. */
  lemma NewLeader(pair: Pair, items: seq<Advert>, leader: Advert, a: Advert, wantMax: bool)
    requires AllPriced(items + [a]) && AllPriced(items) && IsBest(pair, items, leader, wantMax)
    ensures IsBest(pair, items + [a], if Beats(pair, a, leader, wantMax) then a else leader, wantMax)
  {
    hide Beats;
    BeatsIrreflexive(pair, a, wantMax);
    if Beats(pair, a, leader, wantMax) {
      forall o | o in items + [a] ensures !Beats(pair, o, a, wantMax) {
        if o in items && Beats(pair, o, a, wantMax) {
          BeatsTransitive(pair, o, a, leader, wantMax);
        }
      }
    }
  }

  // ----- choosing -----

  /** choose: fails on the first advert with an amount not positive. */
  method Choose(pair: Pair, items: seq<Advert>, wantMax: bool) returns (priced: bool, best: Option<Advert>)
    ensures priced <==> AllPriced(items)
    ensures priced ==> (best.None? <==> items == [])
    ensures priced && best.Some? ==> IsBest(pair, items, best.value, wantMax)
  {
    hide Beats, Pow10, Price;
    best := None;
    for i := 0 to |items|
      invariant AllPriced(items[..i])
      invariant best.None? <==> i == 0
      invariant best.Some? ==> IsBest(pair, items[..i], best.value, wantMax)
    {
      var a := items[i];
      assert items[..i + 1] == items[..i] + [a];
      var n, d := Numerator(pair, a), Denominator(pair, a);
      AmountsDecide(pair, a);
      if n <= 0 || d <= 0 {
        assert a in items;
        return false, None;
      }
      if best.None? {
        BeatsIrreflexive(pair, a, wantMax);
        best := Some(a);
        continue;
      }
      NewLeader(pair, items[..i], best.value, a, wantMax);
      var beats := Better(pair, a, best.value, wantMax);
      if beats {
        best := Some(a);
      }
    }
    assert items[..|items|] == items;
    return true, best;
  }

  lemma AmountsDecide(pair: Pair, a: Advert)
    ensures Numerator(pair, a) > 0 && Denominator(pair, a) > 0 <==> Priced(a)
  {
    hide Pow10;
    SignOfProduct(a.quoteAtoms, Pow10(pair.baseDecimals));
    SignOfProduct(a.baseAtoms, Pow10(pair.quoteDecimals));
  }

  lemma SignOfProduct(a: int, p: int)
    requires p > 0
    ensures a * p > 0 <==> a > 0
  {
  }

  method Better(pair: Pair, a: Advert, chosen: Advert, wantMax: bool) returns (better: bool)
    requires Priced(a) && Priced(chosen)
    ensures better == Beats(pair, a, chosen, wantMax)
  {
    hide Price, Pow10, InitEnvelope.Precedes;
    var left := Numerator(pair, a) * Denominator(pair, chosen);
    var right := Numerator(pair, chosen) * Denominator(pair, a);
    RatioIsPrice(pair, a);
    RatioIsPrice(pair, chosen);
    CrossMultiply(Numerator(pair, a), Denominator(pair, a), Numerator(pair, chosen), Denominator(pair, chosen));
    better := if wantMax then left > right else left < right;
    if !better && left == right {
      better := KeyBefore(a, chosen);
    }
  }

  // ----- the quote -----

  function Sign(x: real): Text {
    if x < 0.0 then "-" else ""
  }

  function Abs(x: real): real {
    if x < 0.0 then -x else x
  }

  ghost predicate SignedRenders(t: Text, x: real, places: nat) {
    exists u: Text :: t == Sign(x) + u && Renders(u, Abs(x), places)
  }

  lemma SignedOnce(t: Text, u: Text, x: real, places: nat)
    requires SignedRenders(t, x, places) && SignedRenders(u, x, places)
    ensures t == u
  {
    hide Renders;
    var a: Text :| t == Sign(x) + a && Renders(a, Abs(x), places);
    var b: Text :| u == Sign(x) + b && Renders(b, Abs(x), places);
    RendersOnce(a, b, Abs(x), places);
  }

  ghost predicate IsEntry(pair: Pair, items: seq<Advert>, e: Option<Entry>, wantMax: bool)
    requires AllPriced(items)
  {
    match e
    case None => items == []
    case Some(e) =>
      && IsBest(pair, items, e.advert, wantMax)
      && e.n == Numerator(pair, e.advert) && e.d == Denominator(pair, e.advert)
      && Renders(e.price, Price(pair, e.advert), 18)
  }

  ghost predicate IsSpread(s: Spread, bid: real, ask: real)
    requires bid + ask > 0.0
  {
    var gap, mid := ask - bid, (ask + bid) / 2.0;
    && Renders(s.price, Abs(gap), 18)
    && SignedRenders(s.signedPrice, gap, 18)
    && SignedRenders(s.percent, gap / mid * 100.0, 8)
    && SignedRenders(s.bps, gap / mid * 10000.0, 4)
  }

  predicate Positive(e: Entry) {
    e.n > 0 && e.d > 0
  }

  function ValueOf(e: Entry): real
    requires Positive(e)
  {
    e.n as real / e.d as real
  }

  ghost predicate IsMidpoint(m: Midpoint, bid: Entry, ask: Entry)
    requires Positive(bid) && Positive(ask)
  {
    && m.n == ask.n * bid.d + bid.n * ask.d && m.d == 2 * ask.d * bid.d
    && Renders(m.price, (ValueOf(ask) + ValueOf(bid)) / 2.0, 18)
  }

  lemma PositiveValue(e: Entry)
    requires Positive(e)
    ensures ValueOf(e) > 0.0
  {
  }

  ghost predicate HasBoth(q: Quote) {
    q.bestBid.Some? && q.bestAsk.Some? && Positive(q.bestBid.value) && Positive(q.bestAsk.value)
  }

  ghost predicate IsMiddle(q: Quote)
    requires HasBoth(q)
  {
    var bid, ask := q.bestBid.value, q.bestAsk.value;
    PositiveValue(bid); PositiveValue(ask);
    && q.crossed == (ValueOf(ask) <= ValueOf(bid))
    && q.midpoint.Some? && IsMidpoint(q.midpoint.value, bid, ask)
    && q.spread.Some? && IsSpread(q.spread.value, ValueOf(bid), ValueOf(ask))
  }

  /** What a quote over these adverts says. */
  ghost predicate IsQuote(pair: Pair, adverts: seq<Advert>, q: Quote) {
    var bids, asks := OnSide(adverts, BUY_BASE), OnSide(adverts, SELL_BASE);
    && AllPriced(bids) && AllPriced(asks)
    && q.bidCount == |bids| && q.askCount == |asks|
    && IsEntry(pair, bids, q.bestBid, true) && IsEntry(pair, asks, q.bestAsk, false)
    && if q.bestBid.Some? && q.bestAsk.Some? then HasBoth(q) && IsMiddle(q)
       else q.midpoint.None? && q.spread.None? && !q.crossed
  }

  /** The quote shows, of those who buy, one who pays the most, and of those who sell, one
      who asks the least. */
  lemma QuoteShowsBest(pair: Pair, adverts: seq<Advert>, q: Quote, a: Advert)
    requires IsQuote(pair, adverts, q) && a in adverts
    ensures a.side == "BUY_BASE" ==>
              && q.bestBid.Some? && q.bestBid.value.advert in adverts && q.bestBid.value.advert.side == "BUY_BASE"
              && a.quoteAtoms * q.bestBid.value.advert.baseAtoms <= q.bestBid.value.advert.quoteAtoms * a.baseAtoms
    ensures a.side == "SELL_BASE" ==>
              && q.bestAsk.Some? && q.bestAsk.value.advert in adverts && q.bestAsk.value.advert.side == "SELL_BASE"
              && a.quoteAtoms * q.bestAsk.value.advert.baseAtoms >= q.bestAsk.value.advert.quoteAtoms * a.baseAtoms
  {
    hide Beats, Price, Renders, HasBoth, IsMiddle, Numerator, Denominator, OnSide;
    if a.side == "BUY_BASE" {
      BestIsEarliest(pair, OnSide(adverts, BUY_BASE), q.bestBid.value.advert, true, a);
    }
    if a.side == "SELL_BASE" {
      BestIsEarliest(pair, OnSide(adverts, SELL_BASE), q.bestAsk.value.advert, false, a);
    }
  }

  method SignedDecimal(num: int, den: int, places: nat) returns (t: Text)
    requires den > 0
    ensures SignedRenders(t, num as real / den as real, places)
  {
    hide Renders;
    var size := if num < 0 then -num else num;
    var r := RatioDecimal(size, den, places);
    SignOfRatio(num, den);
    var u := r.value;
    assert Renders(u, Abs(num as real / den as real), places);
    t := (if num < 0 then "-" else "") + u;
    assert t == Sign(num as real / den as real) + u;
  }

  lemma SignOfRatio(num: int, den: int)
    requires den > 0
    ensures num as real / den as real < 0.0 <==> num < 0
    ensures (if num < 0 then -num else num) as real / den as real == Abs(num as real / den as real)
  {
    var x, d := num as real / den as real, den as real;
    assert x * d == num as real;
    ScaleOrder(x, 0.0, d);
    if num < 0 {
      assert -x * d == (-num) as real;
      Cancel(-x, (-num) as real / d, d);
    }
  }

  method MakeEntry(pair: Pair, items: seq<Advert>, best: Advert, wantMax: bool) returns (e: Entry)
    requires AllPriced(items) && IsBest(pair, items, best, wantMax)
    ensures IsEntry(pair, items, Some(e), wantMax) && Positive(e) && ValueOf(e) == Price(pair, best) && e.advert == best
  {
    hide Renders, Price, Pow10;
    var n, d := Numerator(pair, best), Denominator(pair, best);
    RatioIsPrice(pair, best);
    var text := RatioDecimal(n, d, 18);
    e := Entry(best, text.value, n, d);
  }

  /** The spread and midpoint ratios are the ones the prices give. */
  lemma MiddleRatios(an: int, ad: int, bn: int, bd: int)
    requires an > 0 && ad > 0 && bn > 0 && bd > 0
    ensures ad * bd > 0 && an * bd + bn * ad > 0
    ensures (an * bd - bn * ad) as real / (ad * bd) as real == an as real / ad as real - bn as real / bd as real
    ensures (an * bd + bn * ad) as real / (2 * ad * bd) as real == (an as real / ad as real + bn as real / bd as real) / 2.0
  {
    var a, b, c, d := an as real / ad as real, bn as real / bd as real, ad as real, bd as real;
    PositiveProduct(an, bd);
    PositiveProduct(bn, ad);
    PositiveProduct(ad, bd);
    Homomorphism(an, bd);
    Homomorphism(bn, ad);
    Homomorphism(ad, bd);
    assert a * (c * d) == a * c * d == (an * bd) as real;
    assert b * (c * d) == b * d * c == (bn * ad) as real;
    var sd := (ad * bd) as real;
    assert (a - b) * sd == (an * bd - bn * ad) as real;
    Cancel(a - b, (an * bd - bn * ad) as real / sd, sd);
    assert 2 * ad * bd == 2 * (ad * bd);
    assert (a + b) / 2.0 * (2.0 * sd) == (a + b) * sd == (an * bd + bn * ad) as real;
    Cancel((a + b) / 2.0, (an * bd + bn * ad) as real / (2.0 * sd), 2.0 * sd);
  }

  /** spread / midpoint, scaled. */
  lemma ScaledRatio(sn: int, sd: int, mn: int, md: int, k: int)
    requires sd > 0 && mn > 0 && md > 0
    ensures sd * mn > 0
    ensures (sn * md * k) as real / (sd * mn) as real
         == sn as real / sd as real / (mn as real / md as real) * k as real
  {
    PositiveProduct(sd, mn);
    Homomorphism(sn * md, k);
    Homomorphism(sn, md);
    Homomorphism(sd, mn);
    var s, x, m, y := sn as real, sd as real, mn as real, md as real;
    QuotientOfQuotients(s, x, m, y, k as real);
  }

  lemma QuotientOfQuotients(s: real, x: real, m: real, y: real, k: real)
    requires x > 0.0 && m > 0.0 && y > 0.0
    ensures s * y * k / (x * m) == s / x / (m / y) * k
  {
    SameQuotient(s, m, y, x);
    assert s / x / (m / y) == s * y / (m * x);
    assert m * x == x * m > 0.0;
    var z := s * y / (x * m);
    assert z * (x * m) == s * y;
    assert z * k * (x * m) == s * y * k;
    Cancel(z * k, s * y * k / (x * m), x * m);
  }

  method MakeSpread(sn: int, sd: int, mn: int, md: int) returns (s: Spread)
    requires sd > 0 && mn > 0 && md > 0
    ensures Renders(s.price, Abs(sn as real / sd as real), 18)
    ensures SignedRenders(s.signedPrice, sn as real / sd as real, 18)
    ensures SignedRenders(s.percent, sn as real / sd as real / (mn as real / md as real) * 100.0, 8)
    ensures SignedRenders(s.bps, sn as real / sd as real / (mn as real / md as real) * 10000.0, 4)
  {
    hide Renders, SignedRenders;
    SignOfRatio(sn, sd);
    ScaledRatio(sn, sd, mn, md, 100);
    ScaledRatio(sn, sd, mn, md, 10000);
    var price := RatioDecimal(if sn < 0 then -sn else sn, sd, 18);
    var signedPrice := SignedDecimal(sn, sd, 18);
    var percent := SignedDecimal(sn * md * 100, sd * mn, 8);
    var bps := SignedDecimal(sn * md * 10000, sd * mn, 4);
    s := Spread(price.value, signedPrice, percent, bps);
  }

  /** build_quote over a resolved pair. It fails exactly when some advert on either side has an
      amount that is not positive; a two-sided book always has a spread and a midpoint. */
  method BuildQuote(pair: Pair, adverts: seq<Advert>) returns (r: Option<Quote>)
    ensures r.Some? <==> forall a :: a in adverts && a.side in {BUY_BASE, SELL_BASE} ==> Priced(a)
    ensures r.Some? ==> IsQuote(pair, adverts, r.value)
  {
    hide Renders, SignedRenders, Beats, Price, Pow10, IsSpread;
    var bids, asks := OnSide(adverts, BUY_BASE), OnSide(adverts, SELL_BASE);
    var bidsPriced, bestBid := Choose(pair, bids, true);
    if !bidsPriced {
      return None;
    }
    var asksPriced, bestAsk := Choose(pair, asks, false);
    if !asksPriced {
      return None;
    }
    var q := Quote(|bids|, |asks|, None, None, None, None, false);
    if bestBid.Some? {
      var e := MakeEntry(pair, bids, bestBid.value, true);
      q := q.(bestBid := Some(e));
    }
    if bestAsk.Some? {
      var e := MakeEntry(pair, asks, bestAsk.value, false);
      q := q.(bestAsk := Some(e));
    }
    if bestBid.Some? && bestAsk.Some? {
      q := Middle(q);
    }
    return Some(q);
  }

  method Middle(q: Quote) returns (r: Quote)
    requires HasBoth(q)
    ensures r.bidCount == q.bidCount && r.askCount == q.askCount && r.bestBid == q.bestBid && r.bestAsk == q.bestAsk
    ensures HasBoth(r) && IsMiddle(r)
  {
    hide Renders, SignedRenders;
    var bid, ask := q.bestBid.value, q.bestAsk.value;
    var sn, sd := ask.n * bid.d - bid.n * ask.d, ask.d * bid.d;
    var mn, md := ask.n * bid.d + bid.n * ask.d, 2 * ask.d * bid.d;
    MiddleRatios(ask.n, ask.d, bid.n, bid.d);
    CrossMultiply(ask.n, ask.d, bid.n, bid.d);
    var price := RatioDecimal(mn, md, 18);
    var spread := MakeSpread(sn, sd, mn, md);
    r := q.(crossed := sn <= 0, midpoint := Some(Midpoint(price.value, mn, md)), spread := Some(spread));
  }

  // ----- the answer does not depend on the order of the book -----

  lemma {:induction false} OnSideCounts(adverts: seq<Advert>, side: Text, a: Advert)
    ensures multiset(OnSide(adverts, side))[a] == if a.side == side then multiset(adverts)[a] else 0
  {
    if adverts != [] {
      var front, last := adverts[..|adverts| - 1], adverts[|adverts| - 1];
      OnSideCounts(front, side, a);
      assert adverts == front + [last];
    }
  }

  lemma SameBook(adverts: seq<Advert>, others: seq<Advert>, side: Text)
    requires multiset(adverts) == multiset(others)
    ensures |OnSide(adverts, side)| == |OnSide(others, side)|
    ensures forall a :: a in OnSide(adverts, side) <==> a in OnSide(others, side)
  {
    var x, y := OnSide(adverts, side), OnSide(others, side);
    forall a ensures multiset(x)[a] == multiset(y)[a] {
      OnSideCounts(adverts, side, a);
      OnSideCounts(others, side, a);
    }
    assert multiset(x) == multiset(y);
    assert |x| == |multiset(x)| && |y| == |multiset(y)|;
    forall a ensures a in x <==> a in y {
      assert a in multiset(x) <==> a in multiset(y);
    }
  }

  lemma EntryOnce(pair: Pair, items: seq<Advert>, others: seq<Advert>, e: Option<Entry>, f: Option<Entry>, wantMax: bool)
    requires AllPriced(items) && AllPriced(others) && IdsIdentify(items)
    requires |items| == |others| && forall a :: a in items <==> a in others
    requires IsEntry(pair, items, e, wantMax) && IsEntry(pair, others, f, wantMax)
    ensures e == f
  {
    hide Renders, Price, Pow10;
    if e.Some? && f.Some? {
      BestIsUnique(pair, items, others, e.value.advert, f.value.advert, wantMax);
      RendersOnce(e.value.price, f.value.price, Price(pair, e.value.advert), 18);
    }
  }

  lemma MiddleOnce(q: Quote, r: Quote)
    requires HasBoth(q) && IsMiddle(q) && HasBoth(r) && IsMiddle(r)
    requires q.bestBid == r.bestBid && q.bestAsk == r.bestAsk
    ensures q.midpoint == r.midpoint && q.spread == r.spread && q.crossed == r.crossed
  {
    hide Renders, SignedRenders, ValueOf;
    var bid, ask := ValueOf(q.bestBid.value), ValueOf(q.bestAsk.value);
    PositiveValue(q.bestBid.value);
    PositiveValue(q.bestAsk.value);
    var gap, mid := ask - bid, (ask + bid) / 2.0;
    var s, t := q.spread.value, r.spread.value;
    RendersOnce(q.midpoint.value.price, r.midpoint.value.price, mid, 18);
    RendersOnce(s.price, t.price, Abs(gap), 18);
    SignedOnce(s.signedPrice, t.signedPrice, gap, 18);
    SignedOnce(s.percent, t.percent, gap / mid * 100.0, 8);
    SignedOnce(s.bps, t.bps, gap / mid * 10000.0, 4);
  }

  /** Every listing order of the same adverts gives the same quote, text and all. */
  lemma QuoteIsOrderFree(pair: Pair, adverts: seq<Advert>, others: seq<Advert>, q: Quote, r: Quote)
    requires multiset(adverts) == multiset(others) && IdsIdentify(adverts)
    requires IsQuote(pair, adverts, q) && IsQuote(pair, others, r)
    ensures q == r
  {
    hide IsEntry, IsMiddle, HasBoth, OnSide;
    SameBook(adverts, others, BUY_BASE);
    SameBook(adverts, others, SELL_BASE);
    EntryOnce(pair, OnSide(adverts, BUY_BASE), OnSide(others, BUY_BASE), q.bestBid, r.bestBid, true);
    EntryOnce(pair, OnSide(adverts, SELL_BASE), OnSide(others, SELL_BASE), q.bestAsk, r.bestAsk, false);
    if q.bestBid.Some? && q.bestAsk.Some? {
      MiddleOnce(q, r);
    }
  }

  /** The stated midpoint ratio lies between the two prices, which cross exactly when the ask
      is not above the bid. */
  lemma MidpointLies(pair: Pair, adverts: seq<Advert>, q: Quote)
    requires IsQuote(pair, adverts, q) && q.midpoint.Some?
    ensures Priced(q.bestBid.value.advert) && Priced(q.bestAsk.value.advert) && q.midpoint.value.d > 0
    ensures var bid, ask := Price(pair, q.bestBid.value.advert), Price(pair, q.bestAsk.value.advert);
      var mid := q.midpoint.value.n as real / q.midpoint.value.d as real;
      && q.crossed == (ask <= bid)
      && if q.crossed then ask <= mid <= bid else bid < mid < ask
  {
    hide Renders, SignedRenders, Price, Pow10, IsSpread;
    var bid, ask := q.bestBid.value, q.bestAsk.value;
    RatioIsPrice(pair, bid.advert);
    RatioIsPrice(pair, ask.advert);
    MiddleRatios(ask.n, ask.d, bid.n, bid.d);
  }
}
