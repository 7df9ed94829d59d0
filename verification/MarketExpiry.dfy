/** Lazy expiry is eager expiry: because every method first expires what is due, reads
    inserted anywhere change no later outcome under a clock that never runs backwards.
    Books are compared up to updated_at, which records when expiry was noticed. */
module MarketExpiry {
  import opened ByteCodec
  import opened MarketBook
  import opened MarketSafety

  function Unstamped(r: Reservation): Reservation {
    r.(updatedAt := 0)
  }

  function Erase(b: Book): Book {
    b.(reservations := map id | id in b.reservations :: Unstamped(b.reservations[id]))
  }

  function EraseView(v: View): View {
    if v.ReservationRow? then v.(reservation := Unstamped(v.reservation)) else v
  }

  function EraseOutcome(o: Outcome): Outcome {
    if o.Committed? then Committed(Erase(o.book), EraseView(o.view)) else o
  }

  // ---- expiring twice ----

  lemma RowTwice(r: Reservation, t1: int, t2: int)
    requires t1 <= t2
    ensures Unstamped(ExpireRow(ExpireRow(r, t1), t2)) == Unstamped(ExpireRow(r, t2))
    ensures IsOpen(ExpireRow(ExpireRow(r, t1), t2)) == IsOpen(ExpireRow(r, t2))
    ensures IsOpen(ExpireRow(r, t2)) ==> IsOpen(ExpireRow(r, t1))
    ensures ExpireRow(r, t1).advertId == ExpireRow(r, t2).advertId == ExpireRow(ExpireRow(r, t1), t2).advertId == r.advertId
  {
  }

  function Held(b: Book, ts: int): Book {
    Book(b.adverts, ExpireRows(b.reservations, ts))
  }

  lemma OpenTwice(b: Book, t1: int, t2: int, a: Id)
    requires t1 <= t2
    ensures HasOpen(Held(Expire(b, t1), t2), a) == HasOpen(Held(b, t2), a)
    ensures HasOpen(Held(b, t2), a) ==> HasOpen(Held(b, t1), a)
  {
    var x, y, z := Held(Expire(b, t1), t2), Held(b, t2), Held(b, t1);
    hide ExpireRow, IsOpen, ExpireAdvert;
    forall id: Id ensures OpenFor(x, a, id) == OpenFor(y, a, id) && (OpenFor(y, a, id) ==> OpenFor(z, a, id)) {
      if id in b.reservations {
        RowTwice(b.reservations[id], t1, t2);
      }
    }
    if HasOpen(y, a) {
      var id :| id in y.reservations && OpenFor(y, a, id);
      assert OpenFor(x, a, id) && OpenFor(z, a, id);
    }
    if HasOpen(x, a) {
      var id :| id in x.reservations && OpenFor(x, a, id);
      assert OpenFor(y, a, id);
    }
  }

  /** Expiring at t1 and again at t2 is expiring at t2. */
  lemma ExpireTwice(b: Book, t1: int, t2: int)
    requires t1 <= t2
    ensures Erase(Expire(Expire(b, t1), t2)) == Erase(Expire(b, t2))
  {
    var c, d := Expire(Expire(b, t1), t2), Expire(b, t2);
    hide ExpireRow, HasOpen, Unstamped;
    forall id | id in b.reservations ensures Unstamped(c.reservations[id]) == Unstamped(d.reservations[id]) {
      RowTwice(b.reservations[id], t1, t2);
    }
    forall a | a in b.adverts ensures c.adverts[a] == d.adverts[a] {
      OpenTwice(b, t1, t2, a);
    }
    assert Erase(c).adverts == Erase(d).adverts;
    assert Erase(c).reservations == Erase(d).reservations;
  }

  // ---- nothing looks at updated_at ----

  lemma EraseRows(b: Book, c: Book)
    requires Erase(b) == Erase(c)
    ensures b.adverts == c.adverts && b.reservations.Keys == c.reservations.Keys
    ensures forall id :: id in b.reservations ==> Unstamped(b.reservations[id]) == Unstamped(c.reservations[id])
  {
    hide Unstamped;
    assert Erase(b).reservations.Keys == b.reservations.Keys && Erase(c).reservations.Keys == c.reservations.Keys;
    forall id | id in b.reservations ensures Unstamped(b.reservations[id]) == Unstamped(c.reservations[id]) {
      assert Erase(b).reservations[id] == Erase(c).reservations[id];
    }
  }

  lemma SameQueries(b: Book, c: Book)
    requires Erase(b) == Erase(c)
    ensures forall a, id :: OpenFor(b, a, id) == OpenFor(c, a, id)
    ensures forall a :: HasOpen(b, a) == HasOpen(c, a)
    ensures forall s :: SwapUsed(b, s) == SwapUsed(c, s)
  {
    EraseRows(b, c);
    forall a, id ensures OpenFor(b, a, id) == OpenFor(c, a, id) {
    }
    forall s ensures SwapUsed(b, s) == SwapUsed(c, s) {
      if SwapUsed(b, s) {
        var id :| id in b.reservations && b.reservations[id].swapId == Some(s);
        assert c.reservations[id].swapId == Some(s);
      }
      if SwapUsed(c, s) {
        var id :| id in c.reservations && c.reservations[id].swapId == Some(s);
        assert b.reservations[id].swapId == Some(s);
      }
    }
  }

  /** Under the invariant the lookups by advert, token and owner have one answer. */
  lemma SameLookups(b: Book, c: Book)
    requires Good(b) && Good(c) && Erase(b) == Erase(c)
    ensures forall a :: OpenId(b, a) == OpenId(c, a)
    ensures forall t :: ByToken(b, t) == ByToken(c, t)
    ensures forall o :: ByOwner(b, o) == ByOwner(c, o)
  {
    EraseRows(b, c);
    SameQueries(b, c);
    hide RowOk, HasOpen, Homed, IntentsApart, SwapsApart;
  }

  lemma EraseIs(b: Book, c: Book)
    requires b.adverts == c.adverts && b.reservations.Keys == c.reservations.Keys
    requires forall id :: id in b.reservations ==> Unstamped(b.reservations[id]) == Unstamped(c.reservations[id])
    ensures Erase(b) == Erase(c)
  {
    hide Unstamped;
    assert Erase(b).reservations == Erase(c).reservations;
  }

  lemma ExpireRowCongruent(r: Reservation, s: Reservation, ts: int)
    requires Unstamped(r) == Unstamped(s)
    ensures Unstamped(ExpireRow(r, ts)) == Unstamped(ExpireRow(s, ts))
  {
  }

  lemma SameAdverts(b: Book, c: Book, ts: int)
    requires b.adverts == c.adverts && forall a :: HasOpen(b, a) == HasOpen(c, a)
    ensures (map a | a in b.adverts :: ExpireAdvert(b, a, ts)) == (map a | a in c.adverts :: ExpireAdvert(c, a, ts))
  {
    hide HasOpen;
  }

  lemma ExpireCongruent(b: Book, c: Book, ts: int)
    requires Erase(b) == Erase(c)
    ensures Erase(Expire(b, ts)) == Erase(Expire(c, ts))
  {
    EraseRows(b, c);
    hide HasOpen, Unstamped, ExpireRow, Erase;
    forall id | id in b.reservations
      ensures Unstamped(ExpireRow(b.reservations[id], ts)) == Unstamped(ExpireRow(c.reservations[id], ts))
    {
      ExpireRowCongruent(b.reservations[id], c.reservations[id], ts);
    }
    EraseIs(Held(b, ts), Held(c, ts));
    SameQueries(Held(b, ts), Held(c, ts));
    SameAdverts(Held(b, ts), Held(c, ts), ts);
    EraseIs(Expire(b, ts), Expire(c, ts));
  }

  lemma WriteCongruent(b: Book, c: Book, id: Id, s: Reservation)
    requires Erase(b) == Erase(c)
    ensures Erase(WithRow(b, id, s)) == Erase(WithRow(c, id, s))
  {
    EraseRows(b, c);
    hide Unstamped, Erase;
    EraseIs(WithRow(b, id, s), WithRow(c, id, s));
  }

  lemma AdvertCongruent(b: Book, c: Book, a: Id, row: Advert)
    requires Erase(b) == Erase(c)
    ensures Erase(b.(adverts := b.adverts[a := row])) == Erase(c.(adverts := c.adverts[a := row]))
  {
    EraseRows(b, c);
    hide Unstamped, Erase;
    EraseIs(b.(adverts := b.adverts[a := row]), c.(adverts := c.adverts[a := row]));
  }

  // ---- each request sees the same book ----

  ghost predicate Alike(b: Book, c: Book) {
    Good(b) && Good(c) && Erase(b) == Erase(c)
  }

  lemma AlikeRow(b: Book, c: Book, id: Id)
    requires Alike(b, c)
    ensures id in b.reservations <==> id in c.reservations
    ensures id in b.reservations ==> Unstamped(b.reservations[id]) == Unstamped(c.reservations[id])
    ensures b.adverts == c.adverts
  {
    hide Good, Unstamped;
    EraseRows(b, c);
  }

  lemma PostAlike(b: Book, c: Book, intent: Intent, ownerHash: string, maxActive: Option<int>, candidates: seq<Id>, ts: int)
    requires Alike(b, c)
    ensures EraseOutcome(PostCore(b, intent, ownerHash, maxActive, candidates, ts))
         == EraseOutcome(PostCore(c, intent, ownerHash, maxActive, candidates, ts))
  {
    hide Good, Erase, Unstamped;
    SameLookups(b, c);
    EraseRows(b, c);
    assert Active(b) == Active(c);
    var o := PostCore(b, intent, ownerHash, maxActive, candidates, ts);
    if o.Committed? {
      AdvertCongruent(b, c, o.view.advertId, o.view.advert);
    }
  }

  lemma ReserveAlike(b: Book, c: Book, a: Id, hold: int, tokenHash: string, candidates: seq<Id>, ts: int)
    requires Alike(b, c)
    ensures EraseOutcome(ReserveCore(b, a, hold, tokenHash, candidates, ts))
         == EraseOutcome(ReserveCore(c, a, hold, tokenHash, candidates, ts))
  {
    hide Good, Erase, HasOpen;
    SameLookups(b, c);
    SameQueries(b, c);
    EraseRows(b, c);
    var o := ReserveCore(b, a, hold, tokenHash, candidates, ts);
    if o.Committed? {
      WriteCongruent(b, c, o.view.reservationId, o.view.reservation);
    }
  }

  lemma HolderAlike(b: Book, c: Book, id: Id, tokenHash: string, swapId: string, ts: int)
    requires Alike(b, c)
    ensures EraseOutcome(HandoffCore(b, id, tokenHash)) == EraseOutcome(HandoffCore(c, id, tokenHash))
    ensures EraseOutcome(StatusViewCore(b, id, tokenHash)) == EraseOutcome(StatusViewCore(c, id, tokenHash))
    ensures EraseOutcome(ReleaseCore(b, id, tokenHash, ts)) == EraseOutcome(ReleaseCore(c, id, tokenHash, ts))
    ensures EraseOutcome(BindFreshCore(b, id, tokenHash, swapId, ts)) == EraseOutcome(BindFreshCore(c, id, tokenHash, swapId, ts))
  {
    hide Good, Erase, SwapUsed;
    AlikeRow(b, c, id);
    SameQueries(b, c);
    if ReleaseCore(b, id, tokenHash, ts).Committed? {
      WriteCongruent(b, c, id, ReleaseCore(b, id, tokenHash, ts).view.reservation);
    }
    if BindFreshCore(b, id, tokenHash, swapId, ts).Committed? {
      WriteCongruent(b, c, id, BindFreshCore(b, id, tokenHash, swapId, ts).view.reservation);
    }
  }

  lemma TakerAlike(b: Book, c: Book, id: Id, tokenHash: string, text: string, ts: int)
    requires Alike(b, c)
    ensures EraseOutcome(AcceptCore(b, id, tokenHash, text, ts)) == EraseOutcome(AcceptCore(c, id, tokenHash, text, ts))
    ensures EraseOutcome(TakerBindCore(b, id, tokenHash, text, ts)) == EraseOutcome(TakerBindCore(c, id, tokenHash, text, ts))
  {
    hide Good, Erase, SwapUsed;
    AlikeRow(b, c, id);
    SameQueries(b, c);
    if AcceptCore(b, id, tokenHash, text, ts).Committed? {
      WriteCongruent(b, c, id, AcceptCore(b, id, tokenHash, text, ts).view.reservation);
    }
    if TakerBindCore(b, id, tokenHash, text, ts).Committed? {
      WriteCongruent(b, c, id, TakerBindCore(b, id, tokenHash, text, ts).view.reservation);
    }
  }

  lemma MakerAlike(b: Book, c: Book, id: Id, text: string, swapId: string, ts: int)
    requires Alike(b, c) && id in b.reservations
    ensures id in c.reservations
    ensures var r, s := b.reservations[id], c.reservations[id];
            && EraseOutcome(OfferRow(b, id, r, text, ts)) == EraseOutcome(OfferRow(c, id, s, text, ts))
            && EraseOutcome(StartRow(b, id, r, ts)) == EraseOutcome(StartRow(c, id, s, ts))
            && EraseOutcome(FinalRow(b, id, r, text, swapId, ts)) == EraseOutcome(FinalRow(c, id, s, text, swapId, ts))
  {
    hide Good, Erase;
    AlikeRow(b, c, id);
    var r := b.reservations[id];
    if OfferRow(b, id, r, text, ts).Committed? {
      WriteCongruent(b, c, id, OfferRow(b, id, r, text, ts).view.reservation);
    }
    if StartRow(b, id, r, ts).Committed? {
      WriteCongruent(b, c, id, StartRow(b, id, r, ts).view.reservation);
    }
    if FinalRow(b, id, r, text, swapId, ts).Committed? {
      WriteCongruent(b, c, id, FinalRow(b, id, r, text, swapId, ts).view.reservation);
    }
  }

  lemma WithdrawAlike(b: Book, c: Book, a: Id, ownerHash: string, ts: int)
    requires Alike(b, c)
    ensures EraseOutcome(WithdrawCore(b, a, ownerHash, ts)) == EraseOutcome(WithdrawCore(c, a, ownerHash, ts))
  {
    hide Good, Erase, HasOpen;
    EraseRows(b, c);
    SameQueries(b, c);
    if WithdrawCore(b, a, ownerHash, ts).Committed? {
      AdvertCongruent(b, c, a, WithdrawCore(b, a, ownerHash, ts).view.advert);
    }
  }

  lemma SameOwnersOpen(b: Book, c: Book, a: Id, ownerHash: string)
    requires Alike(b, c)
    ensures OwnersOpen(b, a, ownerHash) == OwnersOpen(c, a, ownerHash)
    ensures OwnerRefusal(b, a) == OwnerRefusal(c, a)
  {
    hide Good, Erase, OpenFor;
    SameLookups(b, c);
    EraseRows(b, c);
  }

  lemma CoreAlike(b: Book, c: Book, q: Request, ts: int)
    requires Alike(b, c) && Precheck(q, ts)
    ensures EraseOutcome(Core(b, q, ts)) == EraseOutcome(Core(c, q, ts))
  {
    hide Alike, IsHexId, PostCore, ReserveCore, HandoffCore, StatusViewCore, ReleaseCore, BindFreshCore, AcceptCore;
    hide TakerBindCore, OfferRow, StartRow, FinalRow, WithdrawCore, OwnersOpen, Erase, Unstamped, Listed;
    match q
    case Post(intent, ownerHash, maxActive, candidates) =>
      PostAlike(b, c, intent.value, ownerHash, maxActive, candidates, ts);
    case ListActive(pair, _) => SameListing(b, c, pair);
    case GetPublic(a) => AlikeRow(b, c, a);
      AlikeErased(b, c);
    case Reserve(a, hold, tokenHash, candidates) => ReserveAlike(b, c, a, hold, tokenHash, candidates, ts);
    case Handoff(id, tokenHash) => HolderAlike(b, c, id, tokenHash, "", ts);
    case Release(id, tokenHash) => HolderAlike(b, c, id, tokenHash, "", ts);
    case BindFresh(id, tokenHash, swapId) => HolderAlike(b, c, id, tokenHash, swapId, ts);
    case StatusView(id, tokenHash) => HolderAlike(b, c, id, tokenHash, "", ts);
    case SubmitAccept(id, tokenHash, blob) => TakerAlike(b, c, id, tokenHash, blob.value, ts);
    case TakerBind(id, tokenHash, swapId) => TakerAlike(b, c, id, tokenHash, swapId, ts);
    case Withdraw(a, ownerHash) => WithdrawAlike(b, c, a, ownerHash, ts);
    case OwnerView(a, ownerHash) =>
      SameOwnersOpen(b, c, a, ownerHash);
      AlikeErased(b, c);
      match OwnersOpen(b, a, ownerHash) {
        case Some(Some(id)) => AlikeRow(b, c, id);
        case _ =>
      }
    case SubmitOffer(a, ownerHash, id, blob) =>
      SameOwnersOpen(b, c, a, ownerHash);
      if OwnersOpen(b, a, ownerHash) == Some(Some(id)) {
        MakerAlike(b, c, id, blob.value, "", ts);
      }
    case StartFinal(a, ownerHash, id) =>
      SameOwnersOpen(b, c, a, ownerHash);
      if OwnersOpen(b, a, ownerHash) == Some(Some(id)) {
        MakerAlike(b, c, id, "", "", ts);
      }
    case SubmitFinal(a, ownerHash, id, blob, swapId) =>
      SameOwnersOpen(b, c, a, ownerHash);
      if OwnersOpen(b, a, ownerHash) == Some(Some(id)) {
        MakerAlike(b, c, id, blob.value, swapId, ts);
      }
  }

  lemma AlikeErased(b: Book, c: Book)
    requires Alike(b, c)
    ensures Erase(b) == Erase(c)
  {
  }

  lemma SameListing(b: Book, c: Book, pair: Option<string>)
    requires Alike(b, c)
    ensures Listed(b, pair) == Listed(c, pair) && Erase(b) == Erase(c)
  {
    hide Good, Erase, HasOpen;
    EraseRows(b, c);
    SameQueries(b, c);
    assert Active(b) == Active(c);
  }

  // ---- runs with and without reads ----

  /** Indistinguishable from time t on. */
  ghost predicate SameFrom(b: Book, c: Book, t: int) {
    Good(b) && Good(c) && Erase(Expire(b, t)) == Erase(Expire(c, t))
  }

  lemma SameLater(b: Book, c: Book, t: int, u: int)
    requires SameFrom(b, c, t) && t <= u
    ensures SameFrom(b, c, u)
  {
    hide Good, Erase, Expire;
    ExpireTwice(b, t, u);
    ExpireTwice(c, t, u);
    ExpireCongruent(Expire(b, t), Expire(c, t), u);
  }

  /** One call at time u on books that are the same from t <= u: equal outcomes, and
      books that are again the same from u. */
  lemma CallAlike(b: Book, c: Book, t: int, writes: bool, q: Request, u: int)
    requires SameFrom(b, c, t) && t <= u
    ensures EraseOutcome(Perform(b, writes, q, u)) == EraseOutcome(Perform(c, writes, q, u))
    ensures SameFrom(After(b, writes, q, u), After(c, writes, q, u), u)
  {
    hide Good, Erase, Expire, Core, StepOk;
    SameLater(b, c, t, u);
    CallOk(b, writes, q, u);
    CallOk(c, writes, q, u);
    StepGood(b, After(b, writes, q, u));
    StepGood(c, After(c, writes, q, u));
    if !(NeedsWrites(q) && !writes) && Precheck(q, u) {
      ExpireOk(b, u);
      ExpireOk(c, u);
      StepGood(b, Expire(b, u));
      StepGood(c, Expire(c, u));
      CoreAlike(Expire(b, u), Expire(c, u), q, u);
      if Perform(b, writes, q, u).Committed? {
        ExpireCongruent(After(b, writes, q, u), After(c, writes, q, u), u);
      }
    }
  }

  predicate IsRead(q: Request) {
    q.ListActive? || q.GetPublic? || q.Handoff? || q.OwnerView? || q.StatusView?
  }

  /** A read at time t leaves a book that is the same from t on. */
  lemma ReadInvisible(b: Book, writes: bool, q: Request, t: int)
    requires Good(b) && IsRead(q)
    ensures SameFrom(b, After(b, writes, q, t), t)
  {
    hide Good, Erase, Expire, StepOk, Precheck;
    CallOk(b, writes, q, t);
    StepGood(b, After(b, writes, q, t));
    ExpireTwice(b, t, t);
  }

  /** What the callers of everything but the reads are told. */
  ghost function Trace(b: Book, writes: bool, calls: seq<Call>): seq<Outcome>
    decreases |calls|
  {
    if calls == [] then []
    else
      var head, rest := calls[0], Trace(After(b, writes, calls[0].q, calls[0].ts), writes, calls[1..]);
      if IsRead(head.q) then rest else [EraseOutcome(Perform(b, writes, head.q, head.ts))] + rest
  }

  function WithoutReads(calls: seq<Call>): seq<Call> {
    if calls == [] then []
    else if IsRead(calls[0].q) then WithoutReads(calls[1..])
    else [calls[0]] + WithoutReads(calls[1..])
  }

  /** The clock starts at t or later and never runs backwards. */
  predicate Ticking(calls: seq<Call>, t: int) {
    calls == [] || (t <= calls[0].ts && Ticking(calls[1..], calls[0].ts))
  }

  lemma {:induction false} TraceIgnoresReads(b: Book, c: Book, t: int, writes: bool, calls: seq<Call>)
    requires SameFrom(b, c, t) && Ticking(calls, t)
    ensures Trace(b, writes, calls) == Trace(c, writes, WithoutReads(calls))
    decreases |calls|
  {
    hide SameFrom, After, Perform, EraseOutcome;
    if calls != [] {
      var q, u := calls[0].q, calls[0].ts;
      SameLater(b, c, t, u);
      if IsRead(q) {
        ReadSame(b, c, writes, q, u);
        TraceIgnoresReads(After(b, writes, q, u), c, u, writes, calls[1..]);
      } else {
        CallAlike(b, c, t, writes, q, u);
        TraceIgnoresReads(After(b, writes, q, u), After(c, writes, q, u), u, writes, calls[1..]);
        assert WithoutReads(calls)[1..] == WithoutReads(calls[1..]);
      }
    }
  }

  lemma ReadSame(b: Book, c: Book, writes: bool, q: Request, u: int)
    requires SameFrom(b, c, u) && IsRead(q)
    ensures SameFrom(After(b, writes, q, u), c, u)
  {
    hide Good, Erase, Expire, After;
    ReadInvisible(b, writes, q, u);
  }

  /** Reads inserted anywhere into a run change no other call's outcome. */
  lemma ReadsChangeNothing(b: Book, t: int, writes: bool, calls: seq<Call>)
    requires Good(b) && Ticking(calls, t)
    ensures Trace(b, writes, calls) == Trace(b, writes, WithoutReads(calls))
  {
    hide Good;
    TraceIgnoresReads(b, b, t, writes, calls);
  }

  // ---- what a listing holds ----

  /** A reservation that still blocks its advert at a given time. */
  predicate BlocksAt(r: Reservation, ts: int) {
    r.status.BOUND? || (r.status.HELD? && (r.finalizationAt.Some? || r.expiresAt > ts))
  }

  /** list_active returns exactly the adverts that are ACTIVE, unexpired and without a
      reservation that still blocks them, read off the book before the call. */
  lemma ListingIsExact(b: Book, ts: int, pair: Option<string>, a: Id)
    ensures a in Listed(Expire(b, ts), pair)
       <==> && a in b.adverts && b.adverts[a].status.ACTIVE? && b.adverts[a].expiresAt > ts
            && (pair.Some? ==> b.adverts[a].pairId == pair.value)
            && (forall id :: id in b.reservations && b.reservations[id].advertId == a ==> !BlocksAt(b.reservations[id], ts))
  {
    var c := Expire(b, ts);
    forall id: Id
      ensures OpenFor(c, a, id) == OpenFor(Held(b, ts), a, id)
      ensures OpenFor(c, a, id)
           == (id in b.reservations && b.reservations[id].advertId == a && BlocksAt(b.reservations[id], ts))
    {
    }
    if HasOpen(c, a) {
      var id :| id in c.reservations && OpenFor(c, a, id);
    }
    assert HasOpen(c, a) == HasOpen(Held(b, ts), a) by {
      if HasOpen(Held(b, ts), a) {
        var id :| id in Held(b, ts).reservations && OpenFor(Held(b, ts), a, id);
        assert OpenFor(c, a, id);
      }
    }
  }
}
