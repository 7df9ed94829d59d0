/** market/market_store_v1.py, lines 411-1079: MarketStore, with its two tables as
    fields. Every method commits exactly what MarketBook.Perform says or restores both
    tables. */
module MarketStore {
  import opened ByteCodec
  import opened MarketBook
  import opened MarketSafety

  datatype Reply = Failed(why: Refusal) | Ok(view: View)

  /** The transaction's result and the tables agree with the specification. */
  ghost predicate Performed(before: Book, after: Book, writes: bool, q: Request, ts: int, reply: Reply) {
    match Perform(before, writes, q, ts)
    case Aborted(why) => after == before && reply == Failed(why)
    case Committed(book, view) => after == book && reply == Ok(view)
  }

  lemma PerformedIsGood(before: Book, after: Book, writes: bool, q: Request, ts: int, reply: Reply)
    requires Good(before) && Performed(before, after, writes, q, ts, reply)
    ensures Good(after)
  {
    hide Good, StepOk, Perform;
    CallOk(before, writes, q, ts);
    StepGood(before, After(before, writes, q, ts));
  }

  class MarketStore {
    const reservationWriteEnabled: bool
    var adverts: map<Id, Advert>
    var reservations: map<Id, Reservation>

    ghost function Contents(): Book
      reads this
    {
      Book(adverts, reservations)
    }

    ghost predicate Valid()
      reads this
    {
      Good(Contents())
    }

    constructor (writes: bool)
      ensures Valid() && Contents() == Book(map[], map[]) && reservationWriteEnabled == writes
    {
      reservationWriteEnabled, adverts, reservations := writes, map[], map[];
      new;
      EmptyBookGood();
    }

    // ---- inside a transaction ----

    method ExpireLocked(ts: int)
      modifies this
      ensures Contents() == Expire(old(Contents()), ts)
    {
      reservations := ExpireRows(reservations, ts);
      var held := Book(adverts, reservations);
      adverts := map a | a in adverts :: ExpireAdvert(held, a, ts);
    }

    method Rollback(saved: Book)
      modifies this
      ensures Contents() == saved
    {
      adverts, reservations := saved.adverts, saved.reservations;
    }

    method OpenReservationLocked(a: Id) returns (r: Option<Id>)
      requires Valid()
      ensures r == OpenId(Contents(), a)
    {
      hide RowsOk, Homed, TokensApart, SwapsApart, OwnersApart, IntentsApart;
      ghost var b := Contents();
      var todo := reservations.Keys;
      while todo != {}
        invariant todo <= reservations.Keys
        invariant forall id :: id in reservations && id !in todo ==> !OpenFor(b, a, id)
        decreases |todo|
      {
        var id :| id in todo;
        if reservations[id].advertId == a && IsOpen(reservations[id]) {
          assert OpenFor(b, a, id);
          return Some(id);
        }
        todo := todo - {id};
      }
      return None;
    }

    method FindByToken(tokenHash: string) returns (r: Option<Id>)
      requires Valid()
      ensures r == ByToken(Contents(), tokenHash)
    {
      hide RowsOk, Homed, OneOpen, SwapsApart, OwnersApart, IntentsApart;
      var todo := reservations.Keys;
      while todo != {}
        invariant todo <= reservations.Keys
        invariant forall id :: id in reservations && id !in todo ==> reservations[id].tokenHash != tokenHash
        decreases |todo|
      {
        var id :| id in todo;
        if reservations[id].tokenHash == tokenHash {
          return Some(id);
        }
        todo := todo - {id};
      }
      return None;
    }

    method FindByOwner(ownerHash: string) returns (r: Option<Id>)
      requires Valid()
      ensures r == ByOwner(Contents(), ownerHash)
    {
      hide RowsOk, Homed, OneOpen, SwapsApart, TokensApart, IntentsApart;
      var todo := adverts.Keys;
      while todo != {}
        invariant todo <= adverts.Keys
        invariant forall a :: a in adverts && a !in todo ==> adverts[a].ownerHash != ownerHash
        decreases |todo|
      {
        var a :| a in todo;
        if adverts[a].ownerHash == ownerHash {
          return Some(a);
        }
        todo := todo - {a};
      }
      return None;
    }

    /** The allocation loop: up to eight draws, each checked against the table. */
    static method AllocateId(candidates: seq<Id>, taken: set<Id>) returns (r: Option<Id>)
      ensures r == FirstFresh(candidates, taken, ID_ATTEMPTS)
    {
      var i := 0;
      while i < |candidates| && i < ID_ATTEMPTS
        invariant i <= |candidates| && i <= ID_ATTEMPTS
        invariant FirstFresh(candidates, taken, ID_ATTEMPTS) == FirstFresh(candidates[i..], taken, ID_ATTEMPTS - i)
      {
        if candidates[i] !in taken {
          return Some(candidates[i]);
        }
        assert candidates[i..][1..] == candidates[i + 1..];
        i := i + 1;
      }
      return None;
    }

    // ---- public methods ----

    method Post(intent: Option<Intent>, ownerHash: string, maxActive: Option<int>, candidates: seq<Id>, ts: int)
      returns (reply: Reply)
      requires Valid()
      modifies this
      ensures Valid()
      ensures Performed(old(Contents()), Contents(), reservationWriteEnabled,
                        Request.Post(intent, ownerHash, maxActive, candidates), ts, reply)
    {
      hide Good, Expire;
      ghost var q := Request.Post(intent, ownerHash, maxActive, candidates);
      ghost var was := Contents();
      ExpireGood(was, ts);
      if intent.None? || ts <= 0 {
        return Failed(BadRequest);
      }
      var clean := intent.value;
      var saved := Book(adverts, reservations);
      ExpireLocked(ts);
      var mine := FindByOwner(ownerHash);
      if mine.Some? {
        if adverts[mine.value].intentHash != clean.hash {
          Rollback(saved);
          return Failed(IdentityChanged);
        }
        reply := Ok(AdvertRow(mine.value, adverts[mine.value]));
        PerformedIsGood(was, Contents(), reservationWriteEnabled, q, ts, reply);
        return;
      }
      var active := Active(Book(adverts, reservations));
      if maxActive.Some? && |active| >= maxActive.value {
        Rollback(saved);
        return Failed(CapReached);
      }
      if exists a :: a in active && adverts[a].intentHash == clean.hash {
        Rollback(saved);
        return Failed(DuplicateIntent);
      }
      var advertId := AllocateId(candidates, adverts.Keys);
      if advertId.None? {
        Rollback(saved);
        return Failed(NoFreshId);
      }
      if ts + clean.lifeSeconds <= ts {
        Rollback(saved);
        return Failed(BadRequest);
      }
      var row := Advert(clean.hash, clean.pairId, clean.terms, ts, ts + clean.lifeSeconds, ACTIVE, ownerHash, None);
      adverts := adverts[advertId.value := row];
      reply := Ok(AdvertRow(advertId.value, row));
      PerformedIsGood(was, Contents(), reservationWriteEnabled, q, ts, reply);
    }

    method ListActive(pair: Option<string>, pairs: set<string>, ts: int) returns (reply: Reply)
      requires Valid()
      modifies this
      ensures Valid()
      ensures Performed(old(Contents()), Contents(), reservationWriteEnabled, Request.ListActive(pair, pairs), ts, reply)
    {
      hide Good, Expire;
      ExpireGood(Contents(), ts);
      if pair.Some? && pair.value !in pairs {
        return Failed(BadRequest);
      }
      ExpireLocked(ts);
      var book := Book(adverts, reservations);
      return Ok(Listing(Listed(book, pair)));
    }

    method GetPublic(advertId: Id, ts: int) returns (reply: Reply)
      requires Valid()
      modifies this
      ensures Valid()
      ensures Performed(old(Contents()), Contents(), reservationWriteEnabled, Request.GetPublic(advertId), ts, reply)
    {
      hide Good, Expire;
      ExpireGood(Contents(), ts);
      ExpireLocked(ts);
      if advertId !in adverts {
        return Ok(NoAdvert);
      }
      return Ok(AdvertRow(advertId, adverts[advertId]));
    }

    method Reserve(advertId: Id, hold: int, tokenHash: string, candidates: seq<Id>, ts: int) returns (reply: Reply)
      requires Valid()
      modifies this
      ensures Valid()
      ensures Performed(old(Contents()), Contents(), reservationWriteEnabled,
                        Request.Reserve(advertId, hold, tokenHash, candidates), ts, reply)
    {
      hide Good, Expire, IsHexId, HasOpen;
      ghost var q := Request.Reserve(advertId, hold, tokenHash, candidates);
      ghost var was := Contents();
      ExpireGood(was, ts);
      if !reservationWriteEnabled {
        return Failed(WritesDisabled);
      }
      if !IsHexId(advertId, ID_CHARS) || hold < MIN_RESERVATION_SECONDS || hold > MAX_RESERVATION_SECONDS {
        return Failed(BadRequest);
      }
      var saved := Book(adverts, reservations);
      ExpireLocked(ts);
      if advertId !in adverts {
        Rollback(saved);
        return Failed(NotFound);
      }
      var advert := adverts[advertId];
      var mine := FindByToken(tokenHash);
      if mine.Some? {
        if reservations[mine.value].advertId != advertId {
          Rollback(saved);
          return Failed(IdentityChanged);
        }
        return Ok(ReservationRow(mine.value, reservations[mine.value]));
      }
      if !advert.status.ACTIVE? {
        Rollback(saved);
        return Failed(NotActive);
      }
      var open := OpenReservationLocked(advertId);
      OpenIdHas(Contents(), advertId);
      if open.Some? {
        Rollback(saved);
        return Failed(AlreadyOpen);
      }
      var expires := if ts + hold <= advert.expiresAt then ts + hold else advert.expiresAt;
      if expires <= ts {
        Rollback(saved);
        return Failed(TooLate);
      }
      var reservationId := AllocateId(candidates, reservations.Keys);
      if reservationId.None? {
        Rollback(saved);
        return Failed(NoFreshId);
      }
      var row := Reservation(advertId, tokenHash, ts, expires, HELD, None, None, None, None, None, None, None, None, None, ts);
      reservations := reservations[reservationId.value := row];
      reply := Ok(ReservationRow(reservationId.value, row));
      PerformedIsGood(was, Contents(), reservationWriteEnabled, q, ts, reply);
    }

    method ReservationHandoff(id: Id, tokenHash: string, ts: int) returns (reply: Reply)
      requires Valid()
      modifies this
      ensures Valid()
      ensures Performed(old(Contents()), Contents(), reservationWriteEnabled, Request.Handoff(id, tokenHash), ts, reply)
    {
      hide Good, Expire, IsHexId;
      ExpireGood(Contents(), ts);
      if !reservationWriteEnabled {
        return Failed(WritesDisabled);
      }
      if !IsHexId(id, ID_CHARS) {
        return Failed(BadRequest);
      }
      var saved := Book(adverts, reservations);
      ExpireLocked(ts);
      var checked := HeldByToken(id, tokenHash);
      if checked.Some? {
        Rollback(saved);
        return Failed(checked.value);
      }
      var r := reservations[id];
      if r.advertId !in adverts || !adverts[r.advertId].status.ACTIVE? {
        Rollback(saved);
        return Failed(NotActive);
      }
      return Ok(ReservationRow(id, r));
    }

    /** Found, HELD, and the token matches, in that order. */
    method HeldByToken(id: Id, tokenHash: string) returns (refused: Option<Refusal>)
      ensures refused == if id !in reservations then Some(NotFound)
                         else if !reservations[id].status.HELD? then Some(NotHeld)
                         else if reservations[id].tokenHash != tokenHash then Some(TokenRejected)
                         else None
    {
      if id !in reservations {
        return Some(NotFound);
      }
      if !reservations[id].status.HELD? {
        return Some(NotHeld);
      }
      if reservations[id].tokenHash != tokenHash {
        return Some(TokenRejected);
      }
      return None;
    }

    method ReleaseReservation(id: Id, tokenHash: string, ts: int) returns (reply: Reply)
      requires Valid()
      modifies this
      ensures Valid()
      ensures Performed(old(Contents()), Contents(), reservationWriteEnabled, Request.Release(id, tokenHash), ts, reply)
    {
      hide Good, Expire, IsHexId;
      ghost var was := Contents();
      ExpireGood(was, ts);
      if !reservationWriteEnabled {
        return Failed(WritesDisabled);
      }
      if !IsHexId(id, ID_CHARS) {
        return Failed(BadRequest);
      }
      var saved := Book(adverts, reservations);
      ExpireLocked(ts);
      var checked := HeldByToken(id, tokenHash);
      if checked.Some? {
        Rollback(saved);
        return Failed(checked.value);
      }
      var r := reservations[id];
      if r.finalizationAt.Some? {
        Rollback(saved);
        return Failed(Finalizing);
      }
      var row := r.(status := RELEASED, releasedAt := Some(ts), updatedAt := ts);
      reservations := reservations[id := row];
      reply := Ok(ReservationRow(id, row));
      PerformedIsGood(was, Contents(), reservationWriteEnabled, Request.Release(id, tokenHash), ts, reply);
    }

    method BindReservationToFreshSwap(id: Id, tokenHash: string, swapId: string, ts: int) returns (reply: Reply)
      requires Valid()
      modifies this
      ensures Valid()
      ensures Performed(old(Contents()), Contents(), reservationWriteEnabled,
                        Request.BindFresh(id, tokenHash, swapId), ts, reply)
    {
      hide Good, Expire, IsHexId;
      ghost var was := Contents();
      ExpireGood(was, ts);
      if !reservationWriteEnabled {
        return Failed(WritesDisabled);
      }
      if !IsHexId(id, ID_CHARS) || !IsHexId(swapId, SWAP_CHARS) {
        return Failed(BadRequest);
      }
      var saved := Book(adverts, reservations);
      ExpireLocked(ts);
      var checked := HeldByToken(id, tokenHash);
      if checked.Some? {
        Rollback(saved);
        return Failed(checked.value);
      }
      var r := reservations[id];
      if r.advertId !in adverts || !adverts[r.advertId].status.ACTIVE? {
        Rollback(saved);
        return Failed(NotActive);
      }
      if SwapUsed(Book(adverts, reservations), swapId) {
        Rollback(saved);
        return Failed(SwapTaken);
      }
      var row := r.(status := BOUND, boundAt := Some(ts), swapId := Some(swapId), updatedAt := ts);
      reservations := reservations[id := row];
      reply := Ok(ReservationRow(id, row));
      PerformedIsGood(was, Contents(), reservationWriteEnabled, Request.BindFresh(id, tokenHash, swapId), ts, reply);
    }

    /** _owner_reservation_locked, once expiry is done. */
    method OwnerReservationLocked(advertId: Id, ownerHash: string) returns (refused: Option<Refusal>, open: Option<Id>)
      requires Valid()
      ensures refused.None? ==> OwnersOpen(Contents(), advertId, ownerHash) == Some(open)
      ensures refused.Some? ==> OwnersOpen(Contents(), advertId, ownerHash) == None
                                && refused.value == OwnerRefusal(Contents(), advertId)
    {
      hide Good;
      if advertId !in adverts {
        return Some(NotFound), None;
      }
      if adverts[advertId].ownerHash != ownerHash {
        return Some(TokenRejected), None;
      }
      open := OpenReservationLocked(advertId);
      return None, open;
    }

    method OwnerReservation(advertId: Id, ownerHash: string, ts: int) returns (reply: Reply)
      requires Valid()
      modifies this
      ensures Valid()
      ensures Performed(old(Contents()), Contents(), reservationWriteEnabled,
                        Request.OwnerView(advertId, ownerHash), ts, reply)
    {
      hide Good, Expire, IsHexId, OwnersOpen;
      ExpireGood(Contents(), ts);
      if !reservationWriteEnabled {
        return Failed(WritesDisabled);
      }
      if !IsHexId(advertId, ID_CHARS) {
        return Failed(BadRequest);
      }
      var saved := Book(adverts, reservations);
      ExpireLocked(ts);
      var refused, open := OwnerReservationLocked(advertId, ownerHash);
      if refused.Some? {
        Rollback(saved);
        return Failed(refused.value);
      }
      if open.None? {
        return Ok(NoReservation);
      }
      return Ok(ReservationRow(open.value, reservations[open.value]));
    }

    method ReservationStatus(id: Id, tokenHash: string, ts: int) returns (reply: Reply)
      requires Valid()
      modifies this
      ensures Valid()
      ensures Performed(old(Contents()), Contents(), reservationWriteEnabled, Request.StatusView(id, tokenHash), ts, reply)
    {
      hide Good, Expire, IsHexId;
      ExpireGood(Contents(), ts);
      if !reservationWriteEnabled {
        return Failed(WritesDisabled);
      }
      if !IsHexId(id, ID_CHARS) {
        return Failed(BadRequest);
      }
      var saved := Book(adverts, reservations);
      ExpireLocked(ts);
      if id !in reservations {
        Rollback(saved);
        return Failed(NotFound);
      }
      if reservations[id].tokenHash != tokenHash {
        Rollback(saved);
        return Failed(TokenRejected);
      }
      if reservations[id].advertId !in adverts {
        Rollback(saved);
        return Failed(NotFound);
      }
      return Ok(ReservationRow(id, reservations[id]));
    }

    method SubmitMakerOffer(advertId: Id, ownerHash: string, id: Id, blob: Option<string>, ts: int) returns (reply: Reply)
      requires Valid()
      modifies this
      ensures Valid()
      ensures Performed(old(Contents()), Contents(), reservationWriteEnabled,
                        Request.SubmitOffer(advertId, ownerHash, id, blob), ts, reply)
    {
      hide Good, Expire, IsHexId, OwnersOpen;
      ghost var q := Request.SubmitOffer(advertId, ownerHash, id, blob);
      ghost var was := Contents();
      ExpireGood(was, ts);
      if !reservationWriteEnabled {
        return Failed(WritesDisabled);
      }
      if !IsHexId(id, ID_CHARS) || blob.None? || !IsHexId(advertId, ID_CHARS) {
        return Failed(BadRequest);
      }
      var saved := Book(adverts, reservations);
      ExpireLocked(ts);
      var refused, open := OwnerReservationLocked(advertId, ownerHash);
      if refused.Some? {
        Rollback(saved);
        return Failed(refused.value);
      }
      if open != Some(id) {
        Rollback(saved);
        return Failed(NotOpenHere);
      }
      var r := reservations[id];
      if !r.status.HELD? {
        Rollback(saved);
        return Failed(NotHeld);
      }
      if r.offer.Some? && r.offer != blob {
        Rollback(saved);
        return Failed(Conflict);
      }
      if r.acceptance.Some? && r.offer.None? {
        Rollback(saved);
        return Failed(Conflict);
      }
      if r.offer.None? {
        reservations := reservations[id := r.(offer := blob, updatedAt := ts)];
      }
      reply := Ok(ReservationRow(id, reservations[id]));
      PerformedIsGood(was, Contents(), reservationWriteEnabled, q, ts, reply);
    }

    method SubmitTakerAccept(id: Id, tokenHash: string, blob: Option<string>, ts: int) returns (reply: Reply)
      requires Valid()
      modifies this
      ensures Valid()
      ensures Performed(old(Contents()), Contents(), reservationWriteEnabled,
                        Request.SubmitAccept(id, tokenHash, blob), ts, reply)
    {
      hide Good, Expire, IsHexId;
      ghost var was := Contents();
      ExpireGood(was, ts);
      if !reservationWriteEnabled {
        return Failed(WritesDisabled);
      }
      if !IsHexId(id, ID_CHARS) || blob.None? {
        return Failed(BadRequest);
      }
      var saved := Book(adverts, reservations);
      ExpireLocked(ts);
      if id !in reservations {
        Rollback(saved);
        return Failed(NotFound);
      }
      var r := reservations[id];
      if r.tokenHash != tokenHash {
        Rollback(saved);
        return Failed(TokenRejected);
      }
      if !r.status.HELD? {
        Rollback(saved);
        return Failed(NotHeld);
      }
      if r.offer.None? {
        Rollback(saved);
        return Failed(Incomplete);
      }
      if r.acceptance.Some? && r.acceptance != blob {
        Rollback(saved);
        return Failed(Conflict);
      }
      if r.finalizationAt.Some? && r.acceptance.None? {
        Rollback(saved);
        return Failed(Conflict);
      }
      if r.acceptance.None? {
        reservations := reservations[id := r.(acceptance := blob, updatedAt := ts)];
      }
      reply := Ok(ReservationRow(id, reservations[id]));
      PerformedIsGood(was, Contents(), reservationWriteEnabled, Request.SubmitAccept(id, tokenHash, blob), ts, reply);
    }

    method MarkFinalizationStarted(advertId: Id, ownerHash: string, id: Id, ts: int) returns (reply: Reply)
      requires Valid()
      modifies this
      ensures Valid()
      ensures Performed(old(Contents()), Contents(), reservationWriteEnabled,
                        Request.StartFinal(advertId, ownerHash, id), ts, reply)
    {
      hide Good, Expire, IsHexId, OwnersOpen;
      ghost var was := Contents();
      ExpireGood(was, ts);
      if !reservationWriteEnabled {
        return Failed(WritesDisabled);
      }
      if !IsHexId(id, ID_CHARS) || !IsHexId(advertId, ID_CHARS) {
        return Failed(BadRequest);
      }
      var saved := Book(adverts, reservations);
      ExpireLocked(ts);
      var refused, open := OwnerReservationLocked(advertId, ownerHash);
      if refused.Some? {
        Rollback(saved);
        return Failed(refused.value);
      }
      if open != Some(id) {
        Rollback(saved);
        return Failed(NotOpenHere);
      }
      var r := reservations[id];
      if !r.status.HELD? {
        Rollback(saved);
        return Failed(NotHeld);
      }
      if r.offer.None? || r.acceptance.None? {
        Rollback(saved);
        return Failed(Incomplete);
      }
      if r.finalizationAt.None? {
        reservations := reservations[id := r.(finalizationAt := Some(ts), updatedAt := ts)];
      }
      reply := Ok(ReservationRow(id, reservations[id]));
      PerformedIsGood(was, Contents(), reservationWriteEnabled, Request.StartFinal(advertId, ownerHash, id), ts, reply);
    }

    method SubmitMakerFinal(advertId: Id, ownerHash: string, id: Id, blob: Option<string>, swapId: string, ts: int)
      returns (reply: Reply)
      requires Valid()
      modifies this
      ensures Valid()
      ensures Performed(old(Contents()), Contents(), reservationWriteEnabled,
                        Request.SubmitFinal(advertId, ownerHash, id, blob, swapId), ts, reply)
    {
      hide Good, Expire, IsHexId, OwnersOpen;
      ghost var q := Request.SubmitFinal(advertId, ownerHash, id, blob, swapId);
      ghost var was := Contents();
      ExpireGood(was, ts);
      if !reservationWriteEnabled {
        return Failed(WritesDisabled);
      }
      if !IsHexId(id, ID_CHARS) || !IsHexId(swapId, SWAP_CHARS) || blob.None? || !IsHexId(advertId, ID_CHARS) {
        return Failed(BadRequest);
      }
      var saved := Book(adverts, reservations);
      ExpireLocked(ts);
      var refused, open := OwnerReservationLocked(advertId, ownerHash);
      if refused.Some? {
        Rollback(saved);
        return Failed(refused.value);
      }
      if open != Some(id) {
        Rollback(saved);
        return Failed(NotOpenHere);
      }
      var r := reservations[id];
      if !r.status.HELD? {
        if r.status.BOUND? && r.makerFinal == blob && r.makerSwapId == Some(swapId) {
          return Ok(ReservationRow(id, r));
        }
        Rollback(saved);
        return Failed(NotHeld);
      }
      if r.finalizationAt.None? {
        Rollback(saved);
        return Failed(Incomplete);
      }
      if r.offer.None? || r.acceptance.None? {
        Rollback(saved);
        return Failed(Incomplete);
      }
      if r.makerFinal.Some? && r.makerFinal != blob {
        Rollback(saved);
        return Failed(Conflict);
      }
      if r.makerSwapId.Some? && r.makerSwapId != Some(swapId) {
        Rollback(saved);
        return Failed(Conflict);
      }
      var row := r.(makerFinal := Coalesce(r.makerFinal, blob.value), makerSwapId := Coalesce(r.makerSwapId, swapId),
                    updatedAt := ts);
      reservations := reservations[id := row];
      reply := Ok(ReservationRow(id, row));
      PerformedIsGood(was, Contents(), reservationWriteEnabled, q, ts, reply);
    }

    method AcknowledgeTakerAndBind(id: Id, tokenHash: string, swapId: string, ts: int) returns (reply: Reply)
      requires Valid()
      modifies this
      ensures Valid()
      ensures Performed(old(Contents()), Contents(), reservationWriteEnabled,
                        Request.TakerBind(id, tokenHash, swapId), ts, reply)
    {
      hide Good, Expire, IsHexId;
      ghost var was := Contents();
      ExpireGood(was, ts);
      if !reservationWriteEnabled {
        return Failed(WritesDisabled);
      }
      if !IsHexId(id, ID_CHARS) || !IsHexId(swapId, SWAP_CHARS) {
        return Failed(BadRequest);
      }
      var saved := Book(adverts, reservations);
      ExpireLocked(ts);
      if id !in reservations {
        Rollback(saved);
        return Failed(NotFound);
      }
      var r := reservations[id];
      if r.tokenHash != tokenHash {
        Rollback(saved);
        return Failed(TokenRejected);
      }
      if r.status.BOUND? {
        if r.swapId == Some(swapId) && r.makerSwapId == Some(swapId) && r.takerSwapId == Some(swapId) {
          return Ok(ReservationRow(id, r));
        }
        Rollback(saved);
        return Failed(SwapMismatch);
      }
      if !r.status.HELD? {
        Rollback(saved);
        return Failed(NotHeld);
      }
      if r.finalizationAt.None? || r.makerFinal.None? {
        Rollback(saved);
        return Failed(Incomplete);
      }
      if r.makerSwapId != Some(swapId) {
        Rollback(saved);
        return Failed(SwapMismatch);
      }
      if SwapUsed(Book(adverts, reservations), swapId) {
        Rollback(saved);
        return Failed(SwapTaken);
      }
      var row := r.(status := BOUND, boundAt := Some(ts), swapId := Some(swapId), takerSwapId := Some(swapId), updatedAt := ts);
      reservations := reservations[id := row];
      reply := Ok(ReservationRow(id, row));
      PerformedIsGood(was, Contents(), reservationWriteEnabled, Request.TakerBind(id, tokenHash, swapId), ts, reply);
    }

    method Withdraw(advertId: Id, ownerHash: string, ts: int) returns (reply: Reply)
      requires Valid()
      modifies this
      ensures Valid()
      ensures Performed(old(Contents()), Contents(), reservationWriteEnabled,
                        Request.Withdraw(advertId, ownerHash), ts, reply)
    {
      hide Good, Expire, HasOpen;
      ghost var was := Contents();
      ExpireGood(was, ts);
      var saved := Book(adverts, reservations);
      ExpireLocked(ts);
      if advertId !in adverts {
        Rollback(saved);
        return Failed(NotFound);
      }
      if !adverts[advertId].status.ACTIVE? {
        Rollback(saved);
        return Failed(NotActive);
      }
      var open := OpenReservationLocked(advertId);
      OpenIdHas(Contents(), advertId);
      if open.Some? {
        Rollback(saved);
        return Failed(AlreadyOpen);
      }
      if adverts[advertId].ownerHash != ownerHash {
        Rollback(saved);
        return Failed(TokenRejected);
      }
      var row := adverts[advertId].(status := WITHDRAWN, withdrawnAt := Some(ts));
      adverts := adverts[advertId := row];
      reply := Ok(AdvertRow(advertId, row));
      PerformedIsGood(was, Contents(), reservationWriteEnabled, Request.Withdraw(advertId, ownerHash), ts, reply);
    }
  }

  lemma ExpireGood(b: Book, ts: int)
    requires Good(b)
    ensures Good(Expire(b, ts))
  {
    hide Good, StepOk;
    ExpireOk(b, ts);
    StepGood(b, Expire(b, ts));
  }

  lemma OpenIdHas(b: Book, a: Id)
    ensures OpenId(b, a).Some? <==> HasOpen(b, a)
  {
    if OpenId(b, a).Some? {
      assert OpenFor(b, a, OpenId(b, a).value);
    }
  }
}
