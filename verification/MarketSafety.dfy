/** What every call to the market store keeps, and what holds over all its runs. */
module MarketSafety {
  import opened ByteCodec
  import opened MarketBook

  // ---- each change keeps it ----

  lemma StepReflexive(b: Book)
    requires Good(b)
    ensures StepOk(b, b)
  {
    hide Good, RowStep;
    forall id | id in b.reservations ensures RowStep(b.reservations[id], b.reservations[id]) {
      RowStepReflexive(b.reservations[id]);
    }
  }

  lemma RowStepReflexive(r: Reservation)
    ensures RowStep(r, r)
  {
  }

  lemma RowStepIdentity(r: Reservation, s: Reservation)
    requires RowStep(r, s)
    ensures s.advertId == r.advertId && s.tokenHash == r.tokenHash
  {
  }

  /** The same rows, each rewritten without opening a closed one. */
  ghost predicate Rewritten(b: Book, c: Book) {
    && c.reservations.Keys == b.reservations.Keys
    && forall id :: id in b.reservations ==>
         && RowOk(c.reservations[id])
         && RowStep(b.reservations[id], c.reservations[id])
         && c.reservations[id].advertId == b.reservations[id].advertId
         && c.reservations[id].tokenHash == b.reservations[id].tokenHash
         && (IsOpen(c.reservations[id]) ==> IsOpen(b.reservations[id]))
  }

  lemma RewrittenOneOpen(b: Book, c: Book)
    requires OneOpen(b) && Rewritten(b, c)
    ensures OneOpen(c)
  {
    hide RowOk, RowStep, IsOpen;
    forall a, i, j | OpenFor(c, a, i) && OpenFor(c, a, j) ensures i == j {
      assert OpenFor(b, a, i) && OpenFor(b, a, j);
    }
  }

  lemma RewrittenTokens(b: Book, c: Book)
    requires TokensApart(b) && Rewritten(b, c)
    ensures TokensApart(c)
  {
    hide RowOk, RowStep, IsOpen;
  }

  lemma RewrittenRows(b: Book, c: Book)
    requires Rewritten(b, c)
    ensures RowsOk(c) && RowsEvolve(b, c)
  {
    hide RowOk, RowStep, IsOpen;
  }

  /** The same adverts, some of them closed. */
  ghost predicate Closing(b: Book, c: Book) {
    && c.adverts.Keys == b.adverts.Keys
    && forall a :: a in b.adverts ==>
         && AdvertStep(b.adverts[a], c.adverts[a])
         && c.adverts[a].ownerHash == b.adverts[a].ownerHash && c.adverts[a].intentHash == b.adverts[a].intentHash
         && (c.adverts[a].status.ACTIVE? ==> b.adverts[a].status.ACTIVE?)
  }

  lemma ClosingKeeps(b: Book, c: Book)
    requires OwnersApart(b) && IntentsApart(b) && Closing(b, c)
    ensures OwnersApart(c) && IntentsApart(c) && AdvertsEvolve(b, c)
  {
    hide AdvertStep;
    assert forall a :: a in Active(c) ==> a in Active(b);
  }

  lemma ExpireRowOk(r: Reservation, ts: int)
    requires RowOk(r)
    ensures var s := ExpireRow(r, ts);
            && RowOk(s) && RowStep(r, s) && s.advertId == r.advertId && s.tokenHash == r.tokenHash
            && (IsOpen(s) ==> IsOpen(r)) && s.swapId == r.swapId
  {
  }

  lemma ExpireRewrites(b: Book, ts: int)
    requires RowsOk(b)
    ensures Rewritten(b, Expire(b, ts))
    ensures SwapsApart(b) ==> SwapsApart(Expire(b, ts))
  {
    hide RowOk, RowStep, ExpireRow, HasOpen, IsOpen, ExpireAdvert;
    forall id | id in b.reservations
      ensures var r, s := b.reservations[id], ExpireRow(b.reservations[id], ts);
              RowOk(s) && RowStep(r, s) && s.advertId == r.advertId && s.tokenHash == r.tokenHash
              && (IsOpen(s) ==> IsOpen(r)) && s.swapId == r.swapId
    {
      ExpireRowOk(b.reservations[id], ts);
    }
  }

  lemma ExpireCloses(b: Book, ts: int)
    ensures Closing(b, Expire(b, ts))
  {
    hide HasOpen, ExpireRow;
  }

  lemma ExpireHomed(b: Book, ts: int)
    requires Homed(b) && RowsOk(b)
    ensures Homed(Expire(b, ts))
  {
    hide ExpireRow, RowOk, IsOpen;
    var held := Book(b.adverts, ExpireRows(b.reservations, ts));
    forall id | id in b.reservations
      ensures var s := ExpireRow(b.reservations[id], ts);
              s.advertId in b.adverts && (IsOpen(s) ==> AdvertActive(Expire(b, ts), s.advertId))
    {
      ExpireRowOk(b.reservations[id], ts);
      var s := ExpireRow(b.reservations[id], ts);
      if IsOpen(s) {
        assert OpenFor(held, s.advertId, id);
      }
    }
  }

  /** Materialising expiry keeps the invariant and reopens nothing. */
  lemma ExpireOk(b: Book, ts: int)
    requires Good(b)
    ensures StepOk(b, Expire(b, ts))
  {
    hide RowsOk, Homed, OneOpen, TokensApart, SwapsApart, OwnersApart, IntentsApart, Expire, Rewritten, Closing;
    hide RowStep, AdvertStep;
    var c := Expire(b, ts);
    ExpireRewrites(b, ts);
    ExpireCloses(b, ts);
    ExpireHomed(b, ts);
    RewrittenOneOpen(b, c);
    RewrittenTokens(b, c);
    RewrittenRows(b, c);
    ClosingKeeps(b, c);
  }

  ghost predicate LegalWrite(b: Book, id: Id, s: Reservation) {
    && id in b.reservations
    && RowOk(s) && RowStep(b.reservations[id], s)
    && (IsOpen(s) ==> IsOpen(b.reservations[id]))
    && (s.swapId.Some? && s.swapId != b.reservations[id].swapId ==> !SwapUsed(b, s.swapId.value))
  }

  lemma WriteRewrites(b: Book, id: Id, s: Reservation)
    requires RowsOk(b) && LegalWrite(b, id, s)
    ensures Rewritten(b, WithRow(b, id, s))
  {
    RowStepIdentity(b.reservations[id], s);
    hide RowOk, RowStep, IsOpen;
    forall i | i in b.reservations ensures RowStep(b.reservations[i], b.reservations[i]) {
      RowStepReflexive(b.reservations[i]);
    }
  }

  lemma WriteSwaps(b: Book, id: Id, s: Reservation)
    requires SwapsApart(b) && LegalWrite(b, id, s)
    ensures SwapsApart(WithRow(b, id, s))
  {
    hide RowOk, RowStep, IsOpen;
    var c := WithRow(b, id, s);
    forall i | i in b.reservations && i != id && s.swapId.Some? ensures b.reservations[i].swapId != s.swapId {
      if s.swapId == b.reservations[id].swapId {
        assert i in b.reservations && id in b.reservations;
      }
    }
  }

  lemma WriteHomed(b: Book, id: Id, s: Reservation)
    requires Homed(b) && LegalWrite(b, id, s)
    ensures Homed(WithRow(b, id, s))
  {
    RowStepIdentity(b.reservations[id], s);
    hide RowOk, RowStep, IsOpen;
    var c := WithRow(b, id, s);
    assert forall a :: AdvertActive(c, a) == AdvertActive(b, a);
  }

  /** Rewriting one row, without opening it, keeps the invariant. */
  lemma RowWriteOk(b: Book, id: Id, s: Reservation)
    requires Good(b) && LegalWrite(b, id, s)
    ensures StepOk(b, WithRow(b, id, s))
  {
    var c := WithRow(b, id, s);
    hide RowsOk, Homed, OneOpen, TokensApart, SwapsApart, OwnersApart, IntentsApart, LegalWrite, Rewritten, RowStep;
    WriteRewrites(b, id, s);
    WriteSwaps(b, id, s);
    WriteHomed(b, id, s);
    RewrittenOneOpen(b, c);
    RewrittenTokens(b, c);
    RewrittenRows(b, c);
    assert Closing(b, c);
    ClosingKeeps(b, c);
  }

  ghost predicate LegalHold(b: Book, id: Id, s: Reservation) {
    && id !in b.reservations
    && RowOk(s) && AdvertActive(b, s.advertId) && !HasOpen(b, s.advertId) && s.swapId.None?
    && forall i :: i in b.reservations ==> b.reservations[i].tokenHash != s.tokenHash
  }

  lemma HoldOneOpen(b: Book, id: Id, s: Reservation)
    requires OneOpen(b) && LegalHold(b, id, s)
    ensures OneOpen(WithRow(b, id, s))
  {
    hide RowOk, IsOpen;
    var c := WithRow(b, id, s);
    forall a, i, j | OpenFor(c, a, i) && OpenFor(c, a, j) ensures i == j {
      assert i != id ==> OpenFor(b, a, i);
      assert j != id ==> OpenFor(b, a, j);
    }
  }

  lemma HoldKeys(b: Book, id: Id, s: Reservation)
    requires RowsOk(b) && TokensApart(b) && SwapsApart(b) && Homed(b) && LegalHold(b, id, s)
    ensures var c := WithRow(b, id, s);
            RowsOk(c) && TokensApart(c) && SwapsApart(c) && Homed(c) && RowsEvolve(b, c) && Closing(b, c)
  {
    hide RowOk, RowStep, IsOpen, HasOpen;
    forall i | i in b.reservations ensures RowStep(b.reservations[i], b.reservations[i]) {
      RowStepReflexive(b.reservations[i]);
    }
    var c := WithRow(b, id, s);
    assert forall a :: AdvertActive(c, a) == AdvertActive(b, a);
  }

  /** A new HELD row on an active advert without one. */
  lemma NewRowOk(b: Book, id: Id, s: Reservation)
    requires Good(b) && LegalHold(b, id, s)
    ensures StepOk(b, WithRow(b, id, s))
  {
    var c := WithRow(b, id, s);
    hide RowsOk, Homed, OneOpen, TokensApart, SwapsApart, OwnersApart, IntentsApart, LegalHold, RowStep, Closing;
    HoldOneOpen(b, id, s);
    HoldKeys(b, id, s);
    ClosingKeeps(b, c);
  }

  /** Changing adverts only. */
  lemma SameRows(b: Book, c: Book)
    requires Good(b) && c.reservations == b.reservations
    ensures RowsOk(c) && OneOpen(c) && TokensApart(c) && SwapsApart(c) && RowsEvolve(b, c)
  {
    hide RowOk, RowStep, IsOpen, Homed, OwnersApart, IntentsApart;
    forall i | i in b.reservations ensures RowStep(b.reservations[i], b.reservations[i]) {
      RowStepReflexive(b.reservations[i]);
    }
    assert forall x, i :: OpenFor(c, x, i) == OpenFor(b, x, i);
  }

  ghost predicate LegalPost(b: Book, a: Id, row: Advert) {
    && a !in b.adverts && row.status.ACTIVE?
    && (forall c :: c in b.adverts ==> b.adverts[c].ownerHash != row.ownerHash)
    && (forall c :: c in Active(b) ==> b.adverts[c].intentHash != row.intentHash)
  }

  lemma PostedAdverts(b: Book, a: Id, row: Advert)
    requires OwnersApart(b) && IntentsApart(b) && Homed(b) && LegalPost(b, a, row)
    ensures var c := b.(adverts := b.adverts[a := row]); OwnersApart(c) && IntentsApart(c) && AdvertsEvolve(b, c) && Homed(c)
  {
    hide IsOpen;
    var c := b.(adverts := b.adverts[a := row]);
    assert forall x :: x in b.adverts ==> AdvertActive(c, x) == AdvertActive(b, x);
    assert Active(c) == Active(b) + {a};
  }

  lemma PostedOk(b: Book, a: Id, row: Advert)
    requires Good(b) && LegalPost(b, a, row)
    ensures StepOk(b, b.(adverts := b.adverts[a := row]))
  {
    hide RowsOk, Homed, OneOpen, TokensApart, SwapsApart, OwnersApart, IntentsApart, LegalPost, RowStep, AdvertStep;
    SameRows(b, b.(adverts := b.adverts[a := row]));
    PostedAdverts(b, a, row);
  }

  ghost predicate LegalWithdrawal(b: Book, a: Id, row: Advert) {
    && a in b.adverts && !HasOpen(b, a) && b.adverts[a].status.ACTIVE?
    && row == b.adverts[a].(status := WITHDRAWN, withdrawnAt := row.withdrawnAt)
  }

  lemma WithdrawnHomed(b: Book, a: Id, row: Advert)
    requires Homed(b) && LegalWithdrawal(b, a, row)
    ensures Homed(b.(adverts := b.adverts[a := row])) && Closing(b, b.(adverts := b.adverts[a := row]))
  {
    hide IsOpen;
    var c := b.(adverts := b.adverts[a := row]);
    forall i | i in b.reservations && IsOpen(b.reservations[i]) ensures b.reservations[i].advertId != a {
      assert b.reservations[i].advertId == a ==> OpenFor(b, a, i);
    }
    assert forall x :: x != a ==> AdvertActive(c, x) == AdvertActive(b, x);
  }

  lemma WithdrawnOk(b: Book, a: Id, row: Advert)
    requires Good(b) && LegalWithdrawal(b, a, row)
    ensures StepOk(b, b.(adverts := b.adverts[a := row]))
  {
    var c := b.(adverts := b.adverts[a := row]);
    hide RowsOk, Homed, OneOpen, TokensApart, SwapsApart, OwnersApart, IntentsApart, LegalWithdrawal, Closing, RowStep;
    hide AdvertStep;
    SameRows(b, c);
    WithdrawnHomed(b, a, row);
    ClosingKeeps(b, c);
  }

  // ---- every request ----

  lemma PostOk(b: Book, intent: Intent, ownerHash: string, maxActive: Option<int>, candidates: seq<Id>, ts: int)
    requires Good(b)
    ensures var o := PostCore(b, intent, ownerHash, maxActive, candidates, ts); o.Committed? ==> StepOk(b, o.book)
  {
    hide Good, StepOk;
    StepReflexive(b);
    var o := PostCore(b, intent, ownerHash, maxActive, candidates, ts);
    if o.Committed? && o.book != b {
      PostedOk(b, o.view.advertId, o.view.advert);
    }
  }

  lemma ReserveOk(b: Book, a: Id, hold: int, tokenHash: string, candidates: seq<Id>, ts: int)
    requires Good(b)
    ensures var o := ReserveCore(b, a, hold, tokenHash, candidates, ts); o.Committed? ==> StepOk(b, o.book)
  {
    hide Good, StepOk, HasOpen;
    StepReflexive(b);
    var o := ReserveCore(b, a, hold, tokenHash, candidates, ts);
    if o.Committed? && o.book != b {
      assert LegalHold(b, o.view.reservationId, o.view.reservation);
      NewRowOk(b, o.view.reservationId, o.view.reservation);
    }
  }

  lemma GoodRow(b: Book, id: Id)
    requires Good(b) && id in b.reservations
    ensures RowOk(b.reservations[id])
  {
    hide Homed, OneOpen, TokensApart, SwapsApart, OwnersApart, IntentsApart;
  }

  lemma ReleaseOk(b: Book, id: Id, tokenHash: string, ts: int)
    requires Good(b)
    ensures var o := ReleaseCore(b, id, tokenHash, ts); o.Committed? ==> StepOk(b, o.book)
  {
    hide Good, StepOk;
    var o := ReleaseCore(b, id, tokenHash, ts);
    if o.Committed? {
      GoodRow(b, id);
      RowWriteOk(b, id, o.view.reservation);
    }
  }

  lemma BindFreshOk(b: Book, id: Id, tokenHash: string, swapId: string, ts: int)
    requires Good(b)
    ensures var o := BindFreshCore(b, id, tokenHash, swapId, ts); o.Committed? ==> StepOk(b, o.book)
  {
    hide Good, StepOk, SwapUsed;
    var o := BindFreshCore(b, id, tokenHash, swapId, ts);
    if o.Committed? {
      GoodRow(b, id);
      RowWriteOk(b, id, o.view.reservation);
    }
  }

  lemma OfferOk(b: Book, id: Id, offer: string, ts: int)
    requires Good(b) && id in b.reservations
    ensures var o := OfferRow(b, id, b.reservations[id], offer, ts); o.Committed? ==> StepOk(b, o.book)
  {
    hide Good, StepOk;
    StepReflexive(b);
    var o := OfferRow(b, id, b.reservations[id], offer, ts);
    if o.Committed? && o.book != b {
      GoodRow(b, id);
      RowWriteOk(b, id, o.view.reservation);
    }
  }

  lemma AcceptOk(b: Book, id: Id, tokenHash: string, acceptance: string, ts: int)
    requires Good(b)
    ensures var o := AcceptCore(b, id, tokenHash, acceptance, ts); o.Committed? ==> StepOk(b, o.book)
  {
    hide Good, StepOk;
    StepReflexive(b);
    var o := AcceptCore(b, id, tokenHash, acceptance, ts);
    if o.Committed? && o.book != b {
      GoodRow(b, id);
      RowWriteOk(b, id, o.view.reservation);
    }
  }

  lemma StartOk(b: Book, id: Id, ts: int)
    requires Good(b) && id in b.reservations
    ensures var o := StartRow(b, id, b.reservations[id], ts); o.Committed? ==> StepOk(b, o.book)
  {
    hide Good, StepOk;
    StepReflexive(b);
    var o := StartRow(b, id, b.reservations[id], ts);
    if o.Committed? && o.book != b {
      GoodRow(b, id);
      RowWriteOk(b, id, o.view.reservation);
    }
  }

  lemma FinalOk(b: Book, id: Id, final: string, swapId: string, ts: int)
    requires Good(b) && id in b.reservations
    ensures var o := FinalRow(b, id, b.reservations[id], final, swapId, ts); o.Committed? ==> StepOk(b, o.book)
  {
    hide Good, StepOk;
    StepReflexive(b);
    var o := FinalRow(b, id, b.reservations[id], final, swapId, ts);
    if o.Committed? && o.book != b {
      GoodRow(b, id);
      RowWriteOk(b, id, o.view.reservation);
    }
  }

  lemma TakerBindOk(b: Book, id: Id, tokenHash: string, swapId: string, ts: int)
    requires Good(b)
    ensures var o := TakerBindCore(b, id, tokenHash, swapId, ts); o.Committed? ==> StepOk(b, o.book)
  {
    hide Good, StepOk, SwapUsed;
    StepReflexive(b);
    var o := TakerBindCore(b, id, tokenHash, swapId, ts);
    if o.Committed? && o.book != b {
      GoodRow(b, id);
      RowWriteOk(b, id, o.view.reservation);
    }
  }

  lemma WithdrawOk(b: Book, a: Id, ownerHash: string, ts: int)
    requires Good(b)
    ensures var o := WithdrawCore(b, a, ownerHash, ts); o.Committed? ==> StepOk(b, o.book)
  {
    hide Good, StepOk, HasOpen;
    var o := WithdrawCore(b, a, ownerHash, ts);
    if o.Committed? {
      WithdrawnOk(b, a, o.view.advert);
    }
  }

  lemma CoreOk(b: Book, q: Request, ts: int)
    requires Good(b) && Precheck(q, ts)
    ensures Core(b, q, ts).Committed? ==> StepOk(b, Core(b, q, ts).book)
  {
    hide Good, StepOk, PostCore, ReserveCore, ReleaseCore, BindFreshCore, OfferRow, AcceptCore, StartRow, FinalRow;
    hide TakerBindCore, WithdrawCore, Listed;
    StepReflexive(b);
    match q
    case Post(intent, ownerHash, maxActive, candidates) => PostOk(b, intent.value, ownerHash, maxActive, candidates, ts);
    case Reserve(a, hold, tokenHash, candidates) => ReserveOk(b, a, hold, tokenHash, candidates, ts);
    case Release(id, tokenHash) => ReleaseOk(b, id, tokenHash, ts);
    case BindFresh(id, tokenHash, swapId) => BindFreshOk(b, id, tokenHash, swapId, ts);
    case SubmitOffer(a, ownerHash, id, blob) =>
      if OwnersOpen(b, a, ownerHash) == Some(Some(id)) {
        OfferOk(b, id, blob.value, ts);
      }
    case SubmitAccept(id, tokenHash, blob) => AcceptOk(b, id, tokenHash, blob.value, ts);
    case StartFinal(a, ownerHash, id) =>
      if OwnersOpen(b, a, ownerHash) == Some(Some(id)) {
        StartOk(b, id, ts);
      }
    case SubmitFinal(a, ownerHash, id, blob, swapId) =>
      if OwnersOpen(b, a, ownerHash) == Some(Some(id)) {
        FinalOk(b, id, blob.value, swapId, ts);
      }
    case TakerBind(id, tokenHash, swapId) => TakerBindOk(b, id, tokenHash, swapId, ts);
    case Withdraw(a, ownerHash) => WithdrawOk(b, a, ownerHash, ts);
    case _ =>
  }

  lemma StepTransitive(b: Book, c: Book, d: Book)
    requires StepOk(b, c) && StepOk(c, d)
    ensures StepOk(b, d)
  {
    hide Good;
    forall id | id in b.reservations ensures id in d.reservations && RowStep(b.reservations[id], d.reservations[id]) {
      RowStepTransitive(b.reservations[id], c.reservations[id], d.reservations[id]);
    }
  }

  lemma RowStepTransitive(r: Reservation, s: Reservation, t: Reservation)
    requires RowStep(r, s) && RowStep(s, t)
    ensures RowStep(r, t)
  {
  }

  /** Every call, committed or rolled back, keeps the invariant and only evolves rows. */
  lemma CallOk(b: Book, writes: bool, q: Request, ts: int)
    requires Good(b)
    ensures StepOk(b, After(b, writes, q, ts))
  {
    hide Good, StepOk, Core, Expire;
    StepReflexive(b);
    if Perform(b, writes, q, ts).Committed? {
      ExpireOk(b, ts);
      StepGood(b, Expire(b, ts));
      CoreOk(Expire(b, ts), q, ts);
      StepTransitive(b, Expire(b, ts), Core(Expire(b, ts), q, ts).book);
    }
  }

  lemma StepGood(b: Book, c: Book)
    requires StepOk(b, c)
    ensures Good(c) && RowsEvolve(b, c) && AdvertsEvolve(b, c)
  {
    hide Good, RowStep, AdvertStep;
  }

  // ---- runs ----

  datatype Call = Call(q: Request, ts: int)

  ghost function Run(b: Book, writes: bool, calls: seq<Call>): Book
    decreases |calls|
  {
    if calls == [] then b else Run(After(b, writes, calls[0].q, calls[0].ts), writes, calls[1..])
  }

  /** Any sequence of calls, with any clock. */
  lemma {:induction false} RunOk(b: Book, writes: bool, calls: seq<Call>)
    requires Good(b)
    ensures StepOk(b, Run(b, writes, calls))
    decreases |calls|
  {
    hide Good, StepOk, After;
    StepReflexive(b);
    if calls != [] {
      var c := After(b, writes, calls[0].q, calls[0].ts);
      CallOk(b, writes, calls[0].q, calls[0].ts);
      StepGood(b, c);
      RunOk(c, writes, calls[1..]);
      StepTransitive(b, c, Run(c, writes, calls[1..]));
    }
  }

  lemma EmptyBookGood()
    ensures Good(Book(map[], map[]))
  {
  }

  /** What holds of one row after any further calls. */
  lemma RowOverRun(b: Book, writes: bool, calls: seq<Call>, id: Id)
    requires Good(b) && id in b.reservations
    ensures var c := Run(b, writes, calls);
            id in c.reservations && RowStep(b.reservations[id], c.reservations[id]) && RowOk(c.reservations[id])
  {
    hide Good, StepOk, RowStep, RowOk, Run;
    RunOk(b, writes, calls);
    StepGood(b, Run(b, writes, calls));
    GoodRow(Run(b, writes, calls), id);
  }

  /** Once finalization has started the reservation stays HELD or BOUND for ever and its
      handshake never changes; its advert stays ACTIVE, is never listed again, cannot be
      withdrawn, and takes no other reservation. */
  lemma FinalizationIsForever(b: Book, writes: bool, calls: seq<Call>, id: Id, q: Request, ts: int)
    requires Good(b) && id in b.reservations && b.reservations[id].finalizationAt.Some?
    requires Precheck(q, ts)
    ensures var c := Run(b, writes, calls);
            id in c.reservations &&
            var r, s := b.reservations[id], c.reservations[id];
            && IsOpen(s)
            && s.offer == r.offer && s.acceptance == r.acceptance && s.finalizationAt == r.finalizationAt
            && AdvertActive(c, r.advertId) && AdvertActive(Expire(c, ts), r.advertId)
            && (q.ListActive? ==> r.advertId !in Listed(Expire(c, ts), q.pair))
            && (q.Withdraw? && q.advertId == r.advertId ==> Core(Expire(c, ts), q, ts).Aborted?)
            && (q.Reserve? && q.advertId == r.advertId && ByToken(Expire(c, ts), q.tokenHash).None? ==>
                  Core(Expire(c, ts), q, ts).Aborted?)
  {
    var c := Run(b, writes, calls);
    RunOk(b, writes, calls);
    hide Good, StepOk, Run, Expire;
    StepGood(b, c);
    ExpireOk(c, ts);
    StepGood(c, Expire(c, ts));
    GoodRow(b, id);
    GoodRow(c, id);
    GoodRow(Expire(c, ts), id);
    OpenIsHomed(c, id);
    OpenIsHomed(Expire(c, ts), id);
  }

  lemma OpenIsHomed(b: Book, id: Id)
    requires Good(b) && id in b.reservations && IsOpen(b.reservations[id])
    ensures AdvertActive(b, b.reservations[id].advertId) && OpenFor(b, b.reservations[id].advertId, id)
    ensures HasOpen(b, b.reservations[id].advertId)
  {
    hide RowsOk, OneOpen, TokensApart, SwapsApart, OwnersApart, IntentsApart;
    assert OpenFor(b, b.reservations[id].advertId, id);
  }

  /** A set taker swapId means a bound reservation on which all three ids agree. */
  lemma TakerSwapAgrees(b: Book, writes: bool, calls: seq<Call>, id: Id)
    requires Good(b) && id in Run(b, writes, calls).reservations
    ensures var r := Run(b, writes, calls).reservations[id];
            r.takerSwapId.Some? ==> r.status.BOUND? && r.swapId == r.makerSwapId == r.takerSwapId
                                    && r.offer.Some? && r.acceptance.Some? && r.finalizationAt.Some? && r.makerFinal.Some?
  {
    hide Good, StepOk, Run;
    RunOk(b, writes, calls);
    StepGood(b, Run(b, writes, calls));
    GoodRow(Run(b, writes, calls), id);
  }
}
