/** Who may change what in the market book (market/market_store_v1.py, lines 411-1079),
    and that the makers and takers who may do so get through. */
module MarketAuthority {
  import opened ByteCodec
  import opened MarketBook
  import opened MarketSafety

  // ---- who asks ----

  /** The hash of the owner token the caller brings. */
  function OwnerOf(q: Request): Option<string> {
    if q.Post? || q.OwnerView? || q.SubmitOffer? || q.StartFinal? || q.SubmitFinal? || q.Withdraw? then Some(q.ownerHash)
    else None
  }

  /** The hash of the reservation token the caller brings. */
  function TokenOf(q: Request): Option<string> {
    if q.Reserve? || q.Handoff? || q.Release? || q.BindFresh? || q.StatusView? || q.SubmitAccept? || q.TakerBind?
    then Some(q.tokenHash) else None
  }

  /** The columns of a reservation that the maker's calls leave alone. */
  predicate MakerLeaves(r: Reservation, s: Reservation) {
    && s.advertId == r.advertId && s.tokenHash == r.tokenHash && s.createdAt == r.createdAt && s.expiresAt == r.expiresAt
    && s.status == r.status && s.releasedAt == r.releasedAt && s.boundAt == r.boundAt && s.swapId == r.swapId
    && s.acceptance == r.acceptance && s.takerSwapId == r.takerSwapId
  }

  /** And those that the taker's calls leave alone. */
  predicate TakerLeaves(r: Reservation, s: Reservation) {
    && s.advertId == r.advertId && s.tokenHash == r.tokenHash && s.createdAt == r.createdAt && s.expiresAt == r.expiresAt
    && s.offer == r.offer && s.finalizationAt == r.finalizationAt && s.makerFinal == r.makerFinal
    && s.makerSwapId == r.makerSwapId
  }

  /** An advert changes only when its owner withdraws it; one appears only for its poster. */
  ghost predicate AdvertsMayChange(e: Book, c: Book, q: Request) {
    && (forall a :: a in e.adverts ==> a in c.adverts)
    && (forall a :: a in e.adverts && c.adverts[a] != e.adverts[a] ==>
          q.Withdraw? && q.advertId == a && q.ownerHash == e.adverts[a].ownerHash)
    && (forall a :: a in c.adverts && a !in e.adverts ==> q.Post? && c.adverts[a].ownerHash == q.ownerHash)
  }

  predicate NamesReservation(q: Request, id: Id) {
    && (q.Release? || q.BindFresh? || q.SubmitOffer? || q.SubmitAccept? || q.StartFinal? || q.SubmitFinal? || q.TakerBind?)
    && q.reservationId == id
  }

  /** A reservation changes only while it is held and the call names it: by the one who brings its token, in the
      taker's columns, or by the one who brings its advert's owner token, in the maker's.
      One appears only for the one whose token it takes. */
  ghost predicate RowMayChange(e: Book, c: Book, q: Request, id: Id)
    requires id in e.reservations && id in c.reservations
  {
    var r, s := e.reservations[id], c.reservations[id];
    s != r ==>
      && r.status.HELD? && NamesReservation(q, id)
      && (|| (TokenOf(q) == Some(r.tokenHash) && TakerLeaves(r, s))
          || (r.advertId in e.adverts && OwnerOf(q) == Some(e.adverts[r.advertId].ownerHash) && MakerLeaves(r, s)))
  }

  ghost predicate RowsMayChange(e: Book, c: Book, q: Request) {
    && (forall id :: id in e.reservations ==> id in c.reservations && RowMayChange(e, c, q, id))
    && (forall id :: id in c.reservations && id !in e.reservations ==> TokenOf(q) == Some(c.reservations[id].tokenHash))
  }

  /** What is shown is what is stored, and a reservation is shown only to its taker and to
      the owner of its advert. */
  ghost predicate MaySee(c: Book, q: Request, v: View) {
    && (v.AdvertRow? ==> v.advertId in c.adverts && c.adverts[v.advertId] == v.advert)
    && (v.ReservationRow? ==>
      && v.reservationId in c.reservations && c.reservations[v.reservationId] == v.reservation
      && (|| TokenOf(q) == Some(v.reservation.tokenHash)
          || (v.reservation.advertId in c.adverts && OwnerOf(q) == Some(c.adverts[v.reservation.advertId].ownerHash))))
  }

  ghost predicate Authorised(e: Book, q: Request, o: Outcome) {
    o.Committed? ==> AdvertsMayChange(e, o.book, q) && RowsMayChange(e, o.book, q) && MaySee(o.book, q, o.view)
  }

  // ---- nobody else may ----

  ghost predicate MayRead(e: Book, q: Request, id: Id) {
    && id in e.reservations
    && (|| TokenOf(q) == Some(e.reservations[id].tokenHash)
        || (e.reservations[id].advertId in e.adverts
            && OwnerOf(q) == Some(e.adverts[e.reservations[id].advertId].ownerHash)))
  }

  lemma ReadAuthorised(e: Book, q: Request, id: Id)
    requires MayRead(e, q, id)
    ensures Authorised(e, q, Committed(e, ReservationRow(id, e.reservations[id])))
  {
  }

  lemma NothingShown(e: Book, q: Request, v: View)
    requires !v.ReservationRow? && (v.AdvertRow? ==> v.advertId in e.adverts && e.adverts[v.advertId] == v.advert)
    ensures Authorised(e, q, Committed(e, v))
  {
  }

  ghost predicate MayWrite(e: Book, q: Request, id: Id, s: Reservation) {
    && id in e.reservations && e.reservations[id].status.HELD? && NamesReservation(q, id)
    && var r := e.reservations[id];
       (|| (TokenOf(q) == Some(r.tokenHash) && TakerLeaves(r, s))
        || (r.advertId in e.adverts && OwnerOf(q) == Some(e.adverts[r.advertId].ownerHash) && MakerLeaves(r, s)))
  }

  lemma WriteAuthorised(e: Book, q: Request, id: Id, s: Reservation)
    requires MayWrite(e, q, id, s)
    ensures Authorised(e, q, Wrote(e, id, s))
  {
    var c := WithRow(e, id, s);
    forall i | i in e.reservations ensures RowMayChange(e, c, q, i) {
    }
  }

  lemma TakerAuthorised(e: Book, q: Request, ts: int)
    requires Precheck(q, ts) && TokenOf(q).Some? && !q.Reserve?
    ensures Authorised(e, q, Core(e, q, ts))
  {
    hide AdvertsMayChange, RowsMayChange, MaySee, SwapUsed, WithRow;
    var o := Core(e, q, ts);
    if o.Committed? {
      var id, s := o.view.reservationId, o.view.reservation;
      if id in e.reservations && o == Committed(e, ReservationRow(id, e.reservations[id])) {
        ReadAuthorised(e, q, id);
      } else {
        assert MayWrite(e, q, id, s);
        WriteAuthorised(e, q, id, s);
      }
    }
  }

  lemma MakerAuthorised(e: Book, q: Request, ts: int)
    requires Precheck(q, ts) && OwnerOf(q).Some? && !q.Post? && !q.Withdraw?
    ensures Authorised(e, q, Core(e, q, ts))
  {
    hide AdvertsMayChange, RowsMayChange, MaySee, HasOpen, WithRow;
    var o := Core(e, q, ts);
    if o.Committed? {
      if o.view.NoReservation? {
        NothingShown(e, q, o.view);
      } else {
        var id, s := o.view.reservationId, o.view.reservation;
        if id in e.reservations && o == Committed(e, ReservationRow(id, e.reservations[id])) {
          ReadAuthorised(e, q, id);
        } else {
          assert MayWrite(e, q, id, s);
          WriteAuthorised(e, q, id, s);
        }
      }
    }
  }

  lemma ReserveAuthorised(e: Book, q: Request, ts: int)
    requires Precheck(q, ts) && q.Reserve?
    ensures Authorised(e, q, Core(e, q, ts))
  {
    hide HasOpen, FirstFresh;
    var o := Core(e, q, ts);
    if o.Committed? && o.book != e {
      assert o.book == WithRow(e, o.view.reservationId, o.view.reservation) && o.view.reservationId !in e.reservations;
    }
  }

  lemma AdvertAuthorised(e: Book, q: Request, ts: int)
    requires Precheck(q, ts) && (q.Post? || q.Withdraw?)
    ensures Authorised(e, q, Core(e, q, ts))
  {
    hide HasOpen, FirstFresh, Active, RowMayChange;
    var o := Core(e, q, ts);
    if o.Committed? {
      forall id | id in e.reservations ensures o.book.reservations == e.reservations && RowMayChange(e, o.book, q, id) {
        SameRowMayStay(e, o.book, q, id);
      }
    }
  }

  lemma SameRowMayStay(e: Book, c: Book, q: Request, id: Id)
    requires c.reservations == e.reservations && id in e.reservations
    ensures RowMayChange(e, c, q, id)
  {
  }

  /** Beyond expiry, no call changes or shows what its caller has no token for. */
  lemma Authority(b: Book, writes: bool, q: Request, ts: int)
    requires Perform(b, writes, q, ts).Committed?
    ensures var o, e := Perform(b, writes, q, ts), Expire(b, ts);
            AdvertsMayChange(e, o.book, q) && RowsMayChange(e, o.book, q) && MaySee(o.book, q, o.view)
  {
    hide Expire, AdvertsMayChange, RowsMayChange, MaySee, PostCore, ReserveCore, WithdrawCore, Listed;
    var e := Expire(b, ts);
    if q.Post? || q.Withdraw? {
      AdvertAuthorised(e, q, ts);
    } else if q.Reserve? {
      ReserveAuthorised(e, q, ts);
    } else if TokenOf(q).Some? {
      TakerAuthorised(e, q, ts);
    } else if OwnerOf(q).Some? {
      MakerAuthorised(e, q, ts);
    } else {
      NothingShown(e, q, Core(e, q, ts).view);
    }
  }

  // ---- strangers ----

  ghost predicate Stranger(q: Request, tokenHash: string, ownerHash: string) {
    TokenOf(q) != Some(tokenHash) && OwnerOf(q) != Some(ownerHash)
  }

  ghost predicate Stands(b: Book, a: Id, id: Id, r: Reservation, x: Advert) {
    && id in b.reservations && b.reservations[id] == r && r.advertId == a
    && a in b.adverts && b.adverts[a] == x
  }

  lemma Expired(b: Book, ts: int, a: Id, id: Id, r: Reservation, x: Advert)
    requires Stands(b, a, id, r, x)
    ensures var e := Expire(b, ts);
            && id in e.reservations && e.reservations[id] == ExpireRow(r, ts)
            && a in e.adverts && e.adverts[a] in {x, x.(status := LAPSED)}
  {
    hide ExpireRow, HasOpen;
  }

  lemma StrangerKeeps(e: Book, c: Book, q: Request, a: Id, id: Id, r: Reservation, x: Advert)
    requires Stands(e, a, id, r, x) && Stranger(q, r.tokenHash, x.ownerHash)
    requires AdvertsMayChange(e, c, q) && RowsMayChange(e, c, q)
    ensures Stands(c, a, id, r, x)
  {
    assert RowMayChange(e, c, q, id);
  }

  /** One call of a stranger leaves a reservation and its advert as they are, or as expiry
      at the time of the call leaves them. */
  lemma StrangerStep(b: Book, writes: bool, q: Request, ts: int, a: Id, id: Id, r: Reservation, x: Advert)
    requires Stands(b, a, id, r, x) && Stranger(q, r.tokenHash, x.ownerHash)
    ensures var c := After(b, writes, q, ts);
            && id in c.reservations && c.reservations[id] in {r, ExpireRow(r, ts)}
            && a in c.adverts && c.adverts[a] in {x, x.(status := LAPSED)}
  {
    ExpireRowKeeps(r, ts);
    hide Perform, Expire, ExpireRow, AdvertsMayChange, RowsMayChange, MaySee;
    var o, e := Perform(b, writes, q, ts), Expire(b, ts);
    if o.Committed? {
      Authority(b, writes, q, ts);
      Expired(b, ts, a, id, r, x);
      StrangerKeeps(e, o.book, q, a, id, e.reservations[id], e.adverts[a]);
    }
  }

  /** Whoever holds neither token can, over any run, only let time pass. */
  lemma {:induction false} StrangersOnlyWait(b: Book, writes: bool, calls: seq<Call>, a: Id, id: Id)
    requires id in b.reservations && b.reservations[id].advertId == a && a in b.adverts
    requires forall k :: 0 <= k < |calls| ==> Stranger(calls[k].q, b.reservations[id].tokenHash, b.adverts[a].ownerHash)
    ensures var c, r, x := Run(b, writes, calls), b.reservations[id], b.adverts[a];
            && id in c.reservations
            && (|| c.reservations[id] == r
                || exists k :: 0 <= k < |calls| && c.reservations[id] == ExpireRow(r, calls[k].ts))
            && a in c.adverts && c.adverts[a] in {x, x.(status := LAPSED)}
    decreases |calls|
  {
    if calls != [] {
      hide After, ExpireRow;
      var r, x := b.reservations[id], b.adverts[a];
      var c := After(b, writes, calls[0].q, calls[0].ts);
      StrangerStep(b, writes, calls[0].q, calls[0].ts, a, id, r, x);
      ExpireRowKeeps(r, calls[0].ts);
      StrangersOnlyWait(c, writes, calls[1..], a, id);
      var d := Run(c, writes, calls[1..]).reservations[id];
      if c.reservations[id] == r {
        if d != r {
          var k :| 0 <= k < |calls[1..]| && d == ExpireRow(r, calls[1..][k].ts);
          assert calls[1..][k] == calls[k + 1];
        }
      } else {
        ExpiredStays(r, calls[0].ts);
        assert d == ExpireRow(r, calls[0].ts);
      }
    }
  }

  lemma ExpireRowKeeps(r: Reservation, ts: int)
    ensures ExpireRow(r, ts).advertId == r.advertId && ExpireRow(r, ts).tokenHash == r.tokenHash
  {
  }

  lemma ExpiredStays(r: Reservation, ts: int)
    ensures ExpireRow(r, ts) != r ==> forall t :: ExpireRow(ExpireRow(r, ts), t) == ExpireRow(r, ts)
  {
  }

  // ---- makers and takers get through ----

  /** A held reservation with its maker and taker, in a book as every run leaves it. */
  ghost predicate Held(b: Book, id: Id, owner: string, r: Reservation) {
    && Good(b) && id in b.reservations && b.reservations[id] == r && r.status.HELD?
    && r.advertId in b.adverts && b.adverts[r.advertId].ownerHash == owner
  }

  /** The reservation has not lapsed at ts. */
  predicate Lasts(r: Reservation, ts: int) {
    ts < r.expiresAt || r.finalizationAt.Some?
  }

  lemma StillThere(b: Book, id: Id, owner: string, r: Reservation, ts: int)
    requires Held(b, id, owner, r) && Lasts(r, ts)
    ensures Held(Expire(b, ts), id, owner, r)
  {
    var e := Expire(b, ts);
    ExpireOk(b, ts);
    hide Good, HasOpen;
    StepGood(b, e);
  }

  lemma StillHeld(b: Book, id: Id, owner: string, r: Reservation, ts: int)
    requires Held(b, id, owner, r) && Lasts(r, ts)
    ensures Held(Expire(b, ts), id, owner, r)
    ensures OwnersOpen(Expire(b, ts), r.advertId, owner) == Some(Some(id))
    ensures AdvertActive(Expire(b, ts), r.advertId)
    ensures forall s :: SwapUsed(Expire(b, ts), s) ==> SwapUsed(b, s)
  {
    var e := Expire(b, ts);
    StillThere(b, id, owner, r, ts);
    forall s | SwapUsed(e, s) ensures SwapUsed(b, s) {
      var i :| i in e.reservations && e.reservations[i].swapId == Some(s);
      assert b.reservations[i].swapId == Some(s);
    }
    hide Good, HasOpen, Expire;
    OpenIsHomed(e, id);
    OnlyOpen(e, r.advertId, id);
  }

  lemma OnlyOpen(b: Book, a: Id, id: Id)
    requires Good(b) && OpenFor(b, a, id)
    ensures OpenId(b, a) == Some(id)
  {
    hide RowsOk, Homed, TokensApart, SwapsApart, OwnersApart, IntentsApart, IsOpen;
    assert HasOpen(b, a);
  }

  /** What a call that writes the row leaves. */
  lemma AfterWrite(b: Book, q: Request, ts: int, id: Id, owner: string, r: Reservation, s: Reservation)
    requires Held(b, id, owner, r) && Held(Expire(b, ts), id, owner, r)
    requires Perform(b, true, q, ts) == Wrote(Expire(b, ts), id, s)
    ensures var c := After(b, true, q, ts);
            && c.reservations == Expire(b, ts).reservations[id := s] && c.adverts == Expire(b, ts).adverts
            && Good(c) && (s.status.HELD? && s.advertId == r.advertId ==> Held(c, id, owner, s))
            && forall x :: SwapUsed(c, x) && s.swapId != Some(x) ==> SwapUsed(Expire(b, ts), x)
  {
    hide Good, Core, Expire, StepOk;
    CallOk(b, true, q, ts);
    StepGood(b, After(b, true, q, ts));
    var c := After(b, true, q, ts);
    forall x | SwapUsed(c, x) && s.swapId != Some(x) ensures SwapUsed(Expire(b, ts), x) {
      var i :| i in c.reservations && c.reservations[i].swapId == Some(x);
      assert i != id && Expire(b, ts).reservations[i].swapId == Some(x);
    }
  }

  /** The taker of a reservation whose finalization has not started lets it go. */
  lemma ReleaseGoes(b: Book, id: Id, owner: string, r: Reservation, ts: int)
    requires Held(b, id, owner, r) && Lasts(r, ts) && IsHexId(id, ID_CHARS) && r.finalizationAt.None?
    ensures var c := After(b, true, Release(id, r.tokenHash), ts);
            && id in c.reservations
            && c.reservations[id] == r.(status := RELEASED, releasedAt := Some(ts), updatedAt := ts)
  {
    StillHeld(b, id, owner, r, ts);
    hide Good, Expire, OwnersOpen, SwapUsed, IsHexId;
    AfterWrite(b, Release(id, r.tokenHash), ts, id, owner, r, r.(status := RELEASED, releasedAt := Some(ts), updatedAt := ts));
    hide After;
  }

  /** An active advert that nobody holds. */
  ghost predicate Free(b: Book, a: Id, x: Advert, ts: int) {
    a in b.adverts && b.adverts[a] == x && x.status.ACTIVE? && ts < x.expiresAt && !HasOpen(b, a)
  }

  lemma StillFree(b: Book, a: Id, x: Advert, ts: int)
    requires Free(b, a, x, ts)
    ensures Free(Expire(b, ts), a, x, ts)
    ensures Expire(b, ts).reservations.Keys == b.reservations.Keys
    ensures forall i :: i in b.reservations ==> Expire(b, ts).reservations[i].tokenHash == b.reservations[i].tokenHash
  {
    var e := Expire(b, ts);
    forall i | i in e.reservations && OpenFor(e, a, i) ensures OpenFor(b, a, i) {
    }
  }

  /** Its owner withdraws it. */
  lemma WithdrawGoes(b: Book, writes: bool, a: Id, x: Advert, ts: int)
    requires Free(b, a, x, ts)
    ensures var c := After(b, writes, Withdraw(a, x.ownerHash), ts);
            && a in c.adverts && c.adverts[a] == x.(status := WITHDRAWN, withdrawnAt := Some(ts))
  {
    StillFree(b, a, x, ts);
    hide Expire, HasOpen;
  }

  /** And anybody with a new token holds it, for the time asked or until it expires. */
  lemma ReserveGoes(b: Book, a: Id, x: Advert, ts: int, hold: int, tokenHash: string, candidates: seq<Id>)
    requires Good(b) && Free(b, a, x, ts) && IsHexId(a, ID_CHARS)
    requires MIN_RESERVATION_SECONDS <= hold <= MAX_RESERVATION_SECONDS
    requires forall i :: i in b.reservations ==> b.reservations[i].tokenHash != tokenHash
    requires candidates != [] && candidates[0] !in b.reservations
    ensures Held(After(b, true, Reserve(a, hold, tokenHash, candidates), ts), candidates[0], x.ownerHash,
                 Reservation(a, tokenHash, ts, if ts + hold < x.expiresAt then ts + hold else x.expiresAt, HELD,
                             None, None, None, None, None, None, None, None, None, ts))
  {
    StillFree(b, a, x, ts);
    hide Good, Expire, HasOpen, IsHexId;
    var q := Reserve(a, hold, tokenHash, candidates);
    CallOk(b, true, q, ts);
    hide StepOk;
    StepGood(b, After(b, true, q, ts));
    assert ByToken(Expire(b, ts), tokenHash).None?;
  }

  /** A new owner below the cap posts an intent that no active advert has. */
  lemma PostGoes(b: Book, writes: bool, intent: Intent, ownerHash: string, maxActive: Option<int>, candidates: seq<Id>, ts: int)
    requires ts > 0 && intent.lifeSeconds > 0 && candidates != [] && candidates[0] !in b.adverts
    requires forall a :: a in b.adverts ==> b.adverts[a].ownerHash != ownerHash
    requires forall a :: a in Active(b) ==> b.adverts[a].intentHash != intent.hash
    requires maxActive.Some? ==> |Active(b)| < maxActive.value
    ensures var c := After(b, writes, Post(Some(intent), ownerHash, maxActive, candidates), ts);
            && candidates[0] in c.adverts
            && c.adverts[candidates[0]]
               == Advert(intent.hash, intent.pairId, intent.terms, ts, ts + intent.lifeSeconds, ACTIVE, ownerHash, None)
  {
    var e := Expire(b, ts);
    hide HasOpen;
    forall a | a in e.adverts
      ensures a in b.adverts && e.adverts[a].ownerHash == b.adverts[a].ownerHash && e.adverts[a].intentHash == b.adverts[a].intentHash
    {
    }
    FewerActive(Active(e), Active(b));
    hide Expire, Active;
    assert ByOwner(e, ownerHash).None?;
  }

  lemma FewerActive(s: set<Id>, t: set<Id>)
    requires s <= t
    ensures |s| <= |t|
  {
    if s != {} {
      var x :| x in s;
      FewerActive(s - {x}, t - {x});
    }
  }

  ghost predicate NoNewSwaps(b: Book, c: Book) {
    forall x :: SwapUsed(c, x) ==> SwapUsed(b, x)
  }

  predicate Named(r: Reservation, id: Id) {
    IsHexId(id, ID_CHARS) && IsHexId(r.advertId, ID_CHARS)
  }

  lemma OfferGoes(b: Book, id: Id, owner: string, r: Reservation, ts: int, offer: string)
    requires Held(b, id, owner, r) && Lasts(r, ts) && Named(r, id) && r.offer.None? && r.acceptance.None?
    ensures var c := After(b, true, SubmitOffer(r.advertId, owner, id, Some(offer)), ts);
            Held(c, id, owner, r.(offer := Some(offer), updatedAt := ts)) && NoNewSwaps(b, c)
  {
    StillHeld(b, id, owner, r, ts);
    hide Good, Expire, OwnersOpen, SwapUsed, IsHexId;
    AfterWrite(b, SubmitOffer(r.advertId, owner, id, Some(offer)), ts, id, owner, r, r.(offer := Some(offer), updatedAt := ts));
    hide After;
  }

  lemma AcceptGoes(b: Book, id: Id, owner: string, r: Reservation, ts: int, acceptance: string)
    requires Held(b, id, owner, r) && Lasts(r, ts) && Named(r, id) && r.offer.Some? && r.acceptance.None? && r.finalizationAt.None?
    ensures var c := After(b, true, SubmitAccept(id, r.tokenHash, Some(acceptance)), ts);
            Held(c, id, owner, r.(acceptance := Some(acceptance), updatedAt := ts)) && NoNewSwaps(b, c)
  {
    StillHeld(b, id, owner, r, ts);
    hide Good, Expire, OwnersOpen, SwapUsed, IsHexId;
    AfterWrite(b, SubmitAccept(id, r.tokenHash, Some(acceptance)), ts, id, owner, r,
               r.(acceptance := Some(acceptance), updatedAt := ts));
    hide After;
  }

  lemma StartGoes(b: Book, id: Id, owner: string, r: Reservation, ts: int)
    requires Held(b, id, owner, r) && Lasts(r, ts) && Named(r, id) && r.offer.Some? && r.acceptance.Some? && r.finalizationAt.None?
    ensures var c := After(b, true, StartFinal(r.advertId, owner, id), ts);
            Held(c, id, owner, r.(finalizationAt := Some(ts), updatedAt := ts)) && NoNewSwaps(b, c)
  {
    StillHeld(b, id, owner, r, ts);
    hide Good, Expire, OwnersOpen, SwapUsed, IsHexId;
    AfterWrite(b, StartFinal(r.advertId, owner, id), ts, id, owner, r, r.(finalizationAt := Some(ts), updatedAt := ts));
    hide After;
  }

  lemma FinalGoes(b: Book, id: Id, owner: string, r: Reservation, ts: int, final: string, swapId: string)
    requires Held(b, id, owner, r) && Named(r, id) && IsHexId(swapId, SWAP_CHARS)
    requires r.offer.Some? && r.acceptance.Some? && r.finalizationAt.Some? && r.makerFinal.None? && r.makerSwapId.None?
    ensures var c := After(b, true, SubmitFinal(r.advertId, owner, id, Some(final), swapId), ts);
            Held(c, id, owner, r.(makerFinal := Some(final), makerSwapId := Some(swapId), updatedAt := ts)) && NoNewSwaps(b, c)
  {
    StillHeld(b, id, owner, r, ts);
    hide Good, Expire, OwnersOpen, SwapUsed, IsHexId;
    AfterWrite(b, SubmitFinal(r.advertId, owner, id, Some(final), swapId), ts, id, owner, r,
               r.(makerFinal := Some(final), makerSwapId := Some(swapId), updatedAt := ts));
    hide After;
  }

  lemma BindGoes(b: Book, id: Id, owner: string, r: Reservation, ts: int, swapId: string)
    requires Held(b, id, owner, r) && Named(r, id) && IsHexId(swapId, SWAP_CHARS) && !SwapUsed(b, swapId)
    requires r.finalizationAt.Some? && r.makerFinal.Some? && r.makerSwapId == Some(swapId)
    ensures var c := After(b, true, TakerBind(id, r.tokenHash, swapId), ts);
            && id in c.reservations
            && c.reservations[id] == r.(status := BOUND, boundAt := Some(ts), swapId := Some(swapId), takerSwapId := Some(swapId),
                                        updatedAt := ts)
  {
    StillHeld(b, id, owner, r, ts);
    hide Good, Expire, OwnersOpen, SwapUsed, IsHexId;
    AfterWrite(b, TakerBind(id, r.tokenHash, swapId), ts, id, owner, r,
               r.(status := BOUND, boundAt := Some(ts), swapId := Some(swapId), takerSwapId := Some(swapId), updatedAt := ts));
    hide After;
  }

  datatype Exchange = Exchange(offer: string, acceptance: string, final: string, swapId: string, at: seq<int>)

  /** The five calls of a handshake, each at its own time. */
  function Handshake(id: Id, owner: string, r: Reservation, h: Exchange): seq<Call>
    requires |h.at| == 5
  {
    [Call.Call(SubmitOffer(r.advertId, owner, id, Some(h.offer)), h.at[0])]
    + ([Call.Call(SubmitAccept(id, r.tokenHash, Some(h.acceptance)), h.at[1])]
    + ([Call.Call(StartFinal(r.advertId, owner, id), h.at[2])]
    + ([Call.Call(SubmitFinal(r.advertId, owner, id, Some(h.final), h.swapId), h.at[3])]
    + ([Call.Call(TakerBind(id, r.tokenHash, h.swapId), h.at[4])] + []))))
  }

  lemma RunFirst(b: Book, writes: bool, call: Call, calls: seq<Call>)
    ensures Run(b, writes, [call] + calls) == Run(After(b, writes, call.q, call.ts), writes, calls)
  {
    hide After;
    assert ([call] + calls)[1..] == calls;
  }

  /** From a fresh hold the five calls bind the reservation to the swap both sides name.
      Only the first three must come before it lapses. */
  lemma HandshakeBinds(b: Book, id: Id, owner: string, r: Reservation, h: Exchange)
    requires Held(b, id, owner, r) && Named(r, id) && r.offer.None? && r.acceptance.None? && r.finalizationAt.None?
    requires r.makerFinal.None? && r.makerSwapId.None?
    requires |h.at| == 5 && h.at[0] < r.expiresAt && h.at[1] < r.expiresAt && h.at[2] < r.expiresAt
    requires IsHexId(h.swapId, SWAP_CHARS) && !SwapUsed(b, h.swapId)
    ensures var c := Run(b, true, Handshake(id, owner, r, h));
            && id in c.reservations
            && c.reservations[id] == Reservation(
                 r.advertId, r.tokenHash, r.createdAt, r.expiresAt, BOUND, r.releasedAt, Some(h.at[4]), Some(h.swapId),
                 Some(h.offer), Some(h.acceptance), Some(h.at[2]), Some(h.final), Some(h.swapId), Some(h.swapId), h.at[4])
  {
    hide Held, After, IsHexId, SwapUsed, Run;
    var calls := Handshake(id, owner, r, h);
    var q0, q1, q2, q3, q4 := calls[0], calls[1], calls[2], calls[3], calls[4];
    OfferGoes(b, id, owner, r, h.at[0], h.offer);
    var b1, r1 := After(b, true, q0.q, q0.ts), r.(offer := Some(h.offer), updatedAt := h.at[0]);
    AcceptGoes(b1, id, owner, r1, h.at[1], h.acceptance);
    var b2, r2 := After(b1, true, q1.q, q1.ts), r1.(acceptance := Some(h.acceptance), updatedAt := h.at[1]);
    StartGoes(b2, id, owner, r2, h.at[2]);
    var b3, r3 := After(b2, true, q2.q, q2.ts), r2.(finalizationAt := Some(h.at[2]), updatedAt := h.at[2]);
    FinalGoes(b3, id, owner, r3, h.at[3], h.final, h.swapId);
    var b4, r4 := After(b3, true, q3.q, q3.ts), r3.(makerFinal := Some(h.final), makerSwapId := Some(h.swapId), updatedAt := h.at[3]);
    BindGoes(b4, id, owner, r4, h.at[4], h.swapId);
    RunFirst(b, true, q0, [q1] + ([q2] + ([q3] + ([q4] + []))));
    RunFirst(b1, true, q1, [q2] + ([q3] + ([q4] + [])));
    RunFirst(b2, true, q2, [q3] + ([q4] + []));
    RunFirst(b3, true, q3, [q4] + []);
    RunFirst(b4, true, q4, []);
    RunNone(After(b4, true, q4.q, q4.ts));
  }

  lemma RunNone(b: Book)
    ensures Run(b, true, []) == b
  {
  }
}
