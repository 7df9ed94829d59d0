/** market/market_store_v1.py: the market book as a value, and what each store method
    does to it. Every method runs in one transaction that first materialises expiry
    and then either commits or leaves the book as it was. */
module MarketBook {
  import opened ByteCodec

  type Id = string

  const MIN_RESERVATION_SECONDS: int := 30
  const MAX_RESERVATION_SECONDS: int := 300
  const ID_CHARS: nat := 32
  const SWAP_CHARS: nat := 64
  const ID_ATTEMPTS: nat := 8

  datatype AdvertStatus = ACTIVE | WITHDRAWN | LAPSED
  datatype HoldStatus = HELD | RELEASED | EXPIRED | BOUND

  /** An adverts row; terms stands for the columns no method here reads. */
  datatype Advert = Advert(
    intentHash: string, pairId: string, terms: string, createdAt: int, expiresAt: int,
    status: AdvertStatus, ownerHash: string, withdrawnAt: Option<int>)

  datatype Reservation = Reservation(
    advertId: Id, tokenHash: string, createdAt: int, expiresAt: int, status: HoldStatus,
    releasedAt: Option<int>, boundAt: Option<int>, swapId: Option<string>,
    offer: Option<string>, acceptance: Option<string>, finalizationAt: Option<int>,
    makerFinal: Option<string>, makerSwapId: Option<string>, takerSwapId: Option<string>, updatedAt: int)

  datatype Book = Book(adverts: map<Id, Advert>, reservations: map<Id, Reservation>)

  datatype Refusal =
    | WritesDisabled | BadRequest | NotFound | NotHeld | TokenRejected | NotActive | IdentityChanged | CapReached
    | DuplicateIntent | NoFreshId | AlreadyOpen | TooLate | Finalizing | SwapTaken | NotOpenHere | Conflict
    | Incomplete | SwapMismatch

  datatype View =
    | Listing(ids: set<Id>) | NoAdvert | AdvertRow(advertId: Id, advert: Advert)
    | NoReservation | ReservationRow(reservationId: Id, reservation: Reservation)

  datatype Outcome = Aborted(why: Refusal) | Committed(book: Book, view: View)

  // ---- queries ----

  predicate IsOpen(r: Reservation) {
    r.status.HELD? || r.status.BOUND?
  }

  predicate OpenFor(b: Book, a: Id, id: Id) {
    id in b.reservations && b.reservations[id].advertId == a && IsOpen(b.reservations[id])
  }

  predicate HasOpen(b: Book, a: Id) {
    exists id :: id in b.reservations && OpenFor(b, a, id)
  }

  /** _open_reservation_locked; the unique index makes the choice immaterial. */
  ghost function OpenId(b: Book, a: Id): (r: Option<Id>)
    ensures r.Some? ==> OpenFor(b, a, r.value)
    ensures r.None? ==> !HasOpen(b, a)
  {
    if id: Id :| OpenFor(b, a, id) then Some(id) else None
  }

  ghost function ByToken(b: Book, tokenHash: string): (r: Option<Id>)
    ensures r.Some? ==> r.value in b.reservations && b.reservations[r.value].tokenHash == tokenHash
    ensures r.None? ==> forall id :: id in b.reservations ==> b.reservations[id].tokenHash != tokenHash
  {
    if id: Id :| id in b.reservations && b.reservations[id].tokenHash == tokenHash then Some(id) else None
  }

  ghost function ByOwner(b: Book, ownerHash: string): (r: Option<Id>)
    ensures r.Some? ==> r.value in b.adverts && b.adverts[r.value].ownerHash == ownerHash
    ensures r.None? ==> forall a :: a in b.adverts ==> b.adverts[a].ownerHash != ownerHash
  {
    if a: Id :| a in b.adverts && b.adverts[a].ownerHash == ownerHash then Some(a) else None
  }

  predicate IsHexId(s: string, n: nat) {
    |s| == n && forall i :: 0 <= i < n ==> '0' <= s[i] <= '9' || 'a' <= s[i] <= 'f'
  }

  function Active(b: Book): set<Id> {
    set a | a in b.adverts && b.adverts[a].status == ACTIVE
  }

  predicate SwapUsed(b: Book, swapId: string) {
    exists id :: id in b.reservations && b.reservations[id].swapId == Some(swapId)
  }

  /** The first candidate nobody has, among the first eight draws. */
  function FirstFresh(candidates: seq<Id>, taken: set<Id>, n: nat): (r: Option<Id>)
    ensures r.Some? ==> r.value !in taken
    decreases n
  {
    if candidates == [] || n == 0 then None
    else if candidates[0] !in taken then Some(candidates[0])
    else FirstFresh(candidates[1..], taken, n - 1)
  }

  // ---- expiry ----

  /** A hold lapses only before finalization intent is durable. */
  function ExpireRow(r: Reservation, ts: int): Reservation {
    if r.status.HELD? && r.expiresAt <= ts && r.finalizationAt.None? then r.(status := EXPIRED, updatedAt := ts) else r
  }

  function ExpireRows(rs: map<Id, Reservation>, ts: int): map<Id, Reservation> {
    map id | id in rs :: ExpireRow(rs[id], ts)
  }

  /** _expire_reservations_locked, then _expire_locked on the adverts it left closed. */
  function Expire(b: Book, ts: int): Book {
    var held := Book(b.adverts, ExpireRows(b.reservations, ts));
    Book(map a | a in b.adverts :: ExpireAdvert(held, a, ts), held.reservations)
  }

  function ExpireAdvert(b: Book, a: Id, ts: int): Advert
    requires a in b.adverts
  {
    if b.adverts[a].status.ACTIVE? && b.adverts[a].expiresAt <= ts && !HasOpen(b, a)
    then b.adverts[a].(status := LAPSED) else b.adverts[a]
  }

  // ---- requests ----

  /** A validated client intent. */
  datatype Intent = Intent(hash: string, pairId: string, terms: string, lifeSeconds: int)

  /** Tokens appear as their hashes, blobs and intents as what validation made of them
      (None when it refused), random identifiers as the draws. */
  datatype Request =
    | Post(intent: Option<Intent>, ownerHash: string, maxActive: Option<int>, candidates: seq<Id>)
    | ListActive(pair: Option<string>, pairs: set<string>)
    | GetPublic(advertId: Id)
    | Reserve(advertId: Id, hold: int, tokenHash: string, candidates: seq<Id>)
    | Handoff(reservationId: Id, tokenHash: string)
    | Release(reservationId: Id, tokenHash: string)
    | BindFresh(reservationId: Id, tokenHash: string, swapId: string)
    | OwnerView(advertId: Id, ownerHash: string)
    | StatusView(reservationId: Id, tokenHash: string)
    | SubmitOffer(advertId: Id, ownerHash: string, reservationId: Id, blob: Option<string>)
    | SubmitAccept(reservationId: Id, tokenHash: string, blob: Option<string>)
    | StartFinal(advertId: Id, ownerHash: string, reservationId: Id)
    | SubmitFinal(advertId: Id, ownerHash: string, reservationId: Id, blob: Option<string>, swapId: string)
    | TakerBind(reservationId: Id, tokenHash: string, swapId: string)
    | Withdraw(advertId: Id, ownerHash: string)

  predicate NeedsWrites(q: Request) {
    !(q.Post? || q.ListActive? || q.GetPublic? || q.Withdraw?)
  }

  /** What is refused whatever the book holds. */
  function Precheck(q: Request, ts: int): bool {
    match q
    case Post(intent, _, _, _) => intent.Some? && ts > 0
    case ListActive(pair, pairs) => pair.Some? ==> pair.value in pairs
    case GetPublic(_) => true
    case Reserve(a, hold, _, _) => IsHexId(a, ID_CHARS) && MIN_RESERVATION_SECONDS <= hold <= MAX_RESERVATION_SECONDS
    case Handoff(r, _) => IsHexId(r, ID_CHARS)
    case Release(r, _) => IsHexId(r, ID_CHARS)
    case BindFresh(r, _, s) => IsHexId(r, ID_CHARS) && IsHexId(s, SWAP_CHARS)
    case OwnerView(a, _) => IsHexId(a, ID_CHARS)
    case StatusView(r, _) => IsHexId(r, ID_CHARS)
    case SubmitOffer(a, _, r, blob) => IsHexId(a, ID_CHARS) && IsHexId(r, ID_CHARS) && blob.Some?
    case SubmitAccept(r, _, blob) => IsHexId(r, ID_CHARS) && blob.Some?
    case StartFinal(a, _, r) => IsHexId(a, ID_CHARS) && IsHexId(r, ID_CHARS)
    case SubmitFinal(a, _, r, blob, s) =>
      IsHexId(a, ID_CHARS) && IsHexId(r, ID_CHARS) && IsHexId(s, SWAP_CHARS) && blob.Some?
    case TakerBind(r, _, s) => IsHexId(r, ID_CHARS) && IsHexId(s, SWAP_CHARS)
    case Withdraw(_, _) => true
  }

  // ---- what each method does after expiry ----

  function WithRow(b: Book, id: Id, r: Reservation): Book {
    b.(reservations := b.reservations[id := r])
  }

  function Wrote(b: Book, id: Id, r: Reservation): Outcome {
    Committed(WithRow(b, id, r), ReservationRow(id, r))
  }

  ghost function PostCore(b: Book, intent: Intent, ownerHash: string, maxActive: Option<int>, candidates: seq<Id>, ts: int): Outcome {
    var mine := ByOwner(b, ownerHash);
    if mine.Some? then
      if b.adverts[mine.value].intentHash != intent.hash then Aborted(IdentityChanged)
      else Committed(b, AdvertRow(mine.value, b.adverts[mine.value]))
    else if maxActive.Some? && |Active(b)| >= maxActive.value then Aborted(CapReached)
    else if exists a :: a in Active(b) && b.adverts[a].intentHash == intent.hash then Aborted(DuplicateIntent)
    else
      var unused := FirstFresh(candidates, b.adverts.Keys, ID_ATTEMPTS);
      if unused.None? then Aborted(NoFreshId)
      else if intent.lifeSeconds <= 0 then Aborted(BadRequest)
      else
        var row := Advert(intent.hash, intent.pairId, intent.terms, ts, ts + intent.lifeSeconds, ACTIVE, ownerHash, None);
        Committed(b.(adverts := b.adverts[unused.value := row]), AdvertRow(unused.value, row))
  }

  function Listed(b: Book, pair: Option<string>): set<Id> {
    set a | a in Active(b) && !HasOpen(b, a) && (pair.Some? ==> b.adverts[a].pairId == pair.value)
  }

  ghost function ReserveCore(b: Book, advertId: Id, hold: int, tokenHash: string, candidates: seq<Id>, ts: int): Outcome {
    if advertId !in b.adverts then Aborted(NotFound)
    else
      var mine := ByToken(b, tokenHash);
      var advert := b.adverts[advertId];
      if mine.Some? then
        if b.reservations[mine.value].advertId != advertId then Aborted(IdentityChanged)
        else Committed(b, ReservationRow(mine.value, b.reservations[mine.value]))
      else if !advert.status.ACTIVE? then Aborted(NotActive)
      else if HasOpen(b, advertId) then Aborted(AlreadyOpen)
      else
        var expires := if ts + hold <= advert.expiresAt then ts + hold else advert.expiresAt;
        if expires <= ts then Aborted(TooLate)
        else
          var unused := FirstFresh(candidates, b.reservations.Keys, ID_ATTEMPTS);
          if unused.None? then Aborted(NoFreshId)
          else Wrote(b, unused.value,
                     Reservation(advertId, tokenHash, ts, expires, HELD, None, None, None, None, None, None, None, None, None, ts))
  }

  predicate AdvertActive(b: Book, a: Id) {
    a in b.adverts && b.adverts[a].status.ACTIVE?
  }

  function HandoffCore(b: Book, id: Id, tokenHash: string): Outcome {
    if id !in b.reservations then Aborted(NotFound)
    else
      var r := b.reservations[id];
      if !r.status.HELD? then Aborted(NotHeld)
      else if r.tokenHash != tokenHash then Aborted(TokenRejected)
      else if !AdvertActive(b, r.advertId) then Aborted(NotActive)
      else Committed(b, ReservationRow(id, r))
  }

  function ReleaseCore(b: Book, id: Id, tokenHash: string, ts: int): Outcome {
    if id !in b.reservations then Aborted(NotFound)
    else
      var r := b.reservations[id];
      if !r.status.HELD? then Aborted(NotHeld)
      else if r.tokenHash != tokenHash then Aborted(TokenRejected)
      else if r.finalizationAt.Some? then Aborted(Finalizing)
      else Wrote(b, id, r.(status := RELEASED, releasedAt := Some(ts), updatedAt := ts))
  }

  function BindFreshCore(b: Book, id: Id, tokenHash: string, swapId: string, ts: int): Outcome {
    if id !in b.reservations then Aborted(NotFound)
    else
      var r := b.reservations[id];
      if !r.status.HELD? then Aborted(NotHeld)
      else if r.tokenHash != tokenHash then Aborted(TokenRejected)
      else if !AdvertActive(b, r.advertId) then Aborted(NotActive)
      else if SwapUsed(b, swapId) then Aborted(SwapTaken)
      else Wrote(b, id, r.(status := BOUND, boundAt := Some(ts), swapId := Some(swapId), updatedAt := ts))
  }

  /** _owner_reservation_locked after expiry: the advert's open reservation, for its owner. */
  ghost function OwnersOpen(b: Book, advertId: Id, ownerHash: string): (r: Option<Option<Id>>)
    ensures r.Some? ==> advertId in b.adverts
    ensures r.Some? && r.value.Some? ==> OpenFor(b, advertId, r.value.value)
  {
    if advertId in b.adverts && b.adverts[advertId].ownerHash == ownerHash then Some(OpenId(b, advertId)) else None
  }

  function OwnerRefusal(b: Book, advertId: Id): Refusal {
    if advertId !in b.adverts then NotFound else TokenRejected
  }

  ghost function OwnerViewCore(b: Book, advertId: Id, ownerHash: string): Outcome {
    match OwnersOpen(b, advertId, ownerHash)
    case None => Aborted(OwnerRefusal(b, advertId))
    case Some(None) => Committed(b, NoReservation)
    case Some(Some(id)) => Committed(b, ReservationRow(id, b.reservations[id]))
  }

  function StatusViewCore(b: Book, id: Id, tokenHash: string): Outcome {
    if id !in b.reservations then Aborted(NotFound)
    else if b.reservations[id].tokenHash != tokenHash then Aborted(TokenRejected)
    else if b.reservations[id].advertId !in b.adverts then Aborted(NotFound)
    else Committed(b, ReservationRow(id, b.reservations[id]))
  }

  function OfferRow(b: Book, id: Id, r: Reservation, offer: string, ts: int): Outcome {
    if !r.status.HELD? then Aborted(NotHeld)
    else if r.offer.Some? && r.offer.value != offer then Aborted(Conflict)
    else if r.acceptance.Some? && r.offer.None? then Aborted(Conflict)
    else if r.offer.Some? then Committed(b, ReservationRow(id, r))
    else Wrote(b, id, r.(offer := Some(offer), updatedAt := ts))
  }

  ghost function OfferCore(b: Book, advertId: Id, ownerHash: string, id: Id, offer: string, ts: int): Outcome {
    match OwnersOpen(b, advertId, ownerHash)
    case None => Aborted(OwnerRefusal(b, advertId))
    case Some(open) => if open != Some(id) then Aborted(NotOpenHere) else OfferRow(b, id, b.reservations[id], offer, ts)
  }

  function AcceptCore(b: Book, id: Id, tokenHash: string, acceptance: string, ts: int): Outcome {
    if id !in b.reservations then Aborted(NotFound)
    else
      var r := b.reservations[id];
      if r.tokenHash != tokenHash then Aborted(TokenRejected)
      else if !r.status.HELD? then Aborted(NotHeld)
      else if r.offer.None? then Aborted(Incomplete)
      else if r.acceptance.Some? && r.acceptance.value != acceptance then Aborted(Conflict)
      else if r.finalizationAt.Some? && r.acceptance.None? then Aborted(Conflict)
      else if r.acceptance.Some? then Committed(b, ReservationRow(id, r))
      else Wrote(b, id, r.(acceptance := Some(acceptance), updatedAt := ts))
  }

  function StartRow(b: Book, id: Id, r: Reservation, ts: int): Outcome {
    if !r.status.HELD? then Aborted(NotHeld)
    else if r.offer.None? || r.acceptance.None? then Aborted(Incomplete)
    else if r.finalizationAt.Some? then Committed(b, ReservationRow(id, r))
    else Wrote(b, id, r.(finalizationAt := Some(ts), updatedAt := ts))
  }

  ghost function StartCore(b: Book, advertId: Id, ownerHash: string, id: Id, ts: int): Outcome {
    match OwnersOpen(b, advertId, ownerHash)
    case None => Aborted(OwnerRefusal(b, advertId))
    case Some(open) => if open != Some(id) then Aborted(NotOpenHere) else StartRow(b, id, b.reservations[id], ts)
  }

  /** SQL COALESCE: a column that is set stays as it is. */
  function Coalesce(old_: Option<string>, new_: string): Option<string> {
    if old_.Some? then old_ else Some(new_)
  }

  function FinalRow(b: Book, id: Id, r: Reservation, final: string, swapId: string, ts: int): Outcome {
    if !r.status.HELD? then
      if r.status.BOUND? && r.makerFinal == Some(final) && r.makerSwapId == Some(swapId)
      then Committed(b, ReservationRow(id, r)) else Aborted(NotHeld)
    else if r.finalizationAt.None? then Aborted(Incomplete)
    else if r.offer.None? || r.acceptance.None? then Aborted(Incomplete)
    else if r.makerFinal.Some? && r.makerFinal.value != final then Aborted(Conflict)
    else if r.makerSwapId.Some? && r.makerSwapId.value != swapId then Aborted(Conflict)
    else Wrote(b, id, r.(makerFinal := Coalesce(r.makerFinal, final), makerSwapId := Coalesce(r.makerSwapId, swapId),
                         updatedAt := ts))
  }

  ghost function FinalCore(b: Book, advertId: Id, ownerHash: string, id: Id, final: string, swapId: string, ts: int): Outcome {
    match OwnersOpen(b, advertId, ownerHash)
    case None => Aborted(OwnerRefusal(b, advertId))
    case Some(open) =>
      if open != Some(id) then Aborted(NotOpenHere) else FinalRow(b, id, b.reservations[id], final, swapId, ts)
  }

  function TakerBindCore(b: Book, id: Id, tokenHash: string, swapId: string, ts: int): Outcome {
    if id !in b.reservations then Aborted(NotFound)
    else
      var r := b.reservations[id];
      if r.tokenHash != tokenHash then Aborted(TokenRejected)
      else if r.status.BOUND? then
        if r.swapId == Some(swapId) && r.makerSwapId == Some(swapId) && r.takerSwapId == Some(swapId)
        then Committed(b, ReservationRow(id, r)) else Aborted(SwapMismatch)
      else if !r.status.HELD? then Aborted(NotHeld)
      else if r.finalizationAt.None? || r.makerFinal.None? then Aborted(Incomplete)
      else if r.makerSwapId != Some(swapId) then Aborted(SwapMismatch)
      else if SwapUsed(b, swapId) then Aborted(SwapTaken)
      else Wrote(b, id, r.(status := BOUND, boundAt := Some(ts), swapId := Some(swapId), takerSwapId := Some(swapId),
                           updatedAt := ts))
  }

  function WithdrawCore(b: Book, a: Id, ownerHash: string, ts: int): Outcome {
    if a !in b.adverts then Aborted(NotFound)
    else if !b.adverts[a].status.ACTIVE? then Aborted(NotActive)
    else if HasOpen(b, a) then Aborted(AlreadyOpen)
    else if b.adverts[a].ownerHash != ownerHash then Aborted(TokenRejected)
    else
      var row := b.adverts[a].(status := WITHDRAWN, withdrawnAt := Some(ts));
      Committed(b.(adverts := b.adverts[a := row]), AdvertRow(a, row))
  }

  ghost function Core(b: Book, q: Request, ts: int): Outcome
    requires Precheck(q, ts)
  {
    match q
    case Post(intent, ownerHash, maxActive, candidates) => PostCore(b, intent.value, ownerHash, maxActive, candidates, ts)
    case ListActive(pair, _) => Committed(b, Listing(Listed(b, pair)))
    case GetPublic(a) => Committed(b, if a in b.adverts then AdvertRow(a, b.adverts[a]) else NoAdvert)
    case Reserve(a, hold, tokenHash, candidates) => ReserveCore(b, a, hold, tokenHash, candidates, ts)
    case Handoff(id, tokenHash) => HandoffCore(b, id, tokenHash)
    case Release(id, tokenHash) => ReleaseCore(b, id, tokenHash, ts)
    case BindFresh(id, tokenHash, swapId) => BindFreshCore(b, id, tokenHash, swapId, ts)
    case OwnerView(a, ownerHash) => OwnerViewCore(b, a, ownerHash)
    case StatusView(id, tokenHash) => StatusViewCore(b, id, tokenHash)
    case SubmitOffer(a, ownerHash, id, blob) => OfferCore(b, a, ownerHash, id, blob.value, ts)
    case SubmitAccept(id, tokenHash, blob) => AcceptCore(b, id, tokenHash, blob.value, ts)
    case StartFinal(a, ownerHash, id) => StartCore(b, a, ownerHash, id, ts)
    case SubmitFinal(a, ownerHash, id, blob, swapId) => FinalCore(b, a, ownerHash, id, blob.value, swapId, ts)
    case TakerBind(id, tokenHash, swapId) => TakerBindCore(b, id, tokenHash, swapId, ts)
    case Withdraw(a, ownerHash) => WithdrawCore(b, a, ownerHash, ts)
  }

  /** One store call: checks, expiry and effect in one transaction. */
  ghost function Perform(b: Book, writes: bool, q: Request, ts: int): Outcome {
    if NeedsWrites(q) && !writes then Aborted(WritesDisabled)
    else if !Precheck(q, ts) then Aborted(BadRequest)
    else Core(Expire(b, ts), q, ts)
  }

  /** The book afterwards: an aborted transaction rolls everything back. */
  ghost function After(b: Book, writes: bool, q: Request, ts: int): Book {
    var o := Perform(b, writes, q, ts);
    if o.Committed? then o.book else b
  }

  // ---- what the book always satisfies ----

  /** One row: the handshake fields are set in order, and its status agrees with them. */
  predicate RowOk(r: Reservation) {
    && r.createdAt < r.expiresAt
    && (r.acceptance.Some? ==> r.offer.Some?)
    && (r.finalizationAt.Some? ==> r.acceptance.Some? && IsOpen(r))
    && (r.makerFinal.Some? <==> r.makerSwapId.Some?)
    && (r.makerFinal.Some? ==> r.finalizationAt.Some?)
    && (r.swapId.Some? <==> r.status.BOUND?)
    && (r.takerSwapId.Some? ==> r.takerSwapId == r.makerSwapId == r.swapId)
  }

  ghost predicate RowsOk(b: Book) {
    forall id :: id in b.reservations ==> RowOk(b.reservations[id])
  }

  /** Every reservation has its advert, and an open one keeps its advert ACTIVE. */
  ghost predicate Homed(b: Book) {
    forall id :: id in b.reservations ==>
      b.reservations[id].advertId in b.adverts
      && (IsOpen(b.reservations[id]) ==> AdvertActive(b, b.reservations[id].advertId))
  }

  /** At most one HELD or BOUND reservation per advert. */
  ghost predicate OneOpen(b: Book) {
    forall a, i, j :: OpenFor(b, a, i) && OpenFor(b, a, j) ==> i == j
  }

  ghost predicate TokensApart(b: Book) {
    forall i, j :: i in b.reservations && j in b.reservations && b.reservations[i].tokenHash == b.reservations[j].tokenHash
      ==> i == j
  }

  ghost predicate SwapsApart(b: Book) {
    forall i, j :: i in b.reservations && j in b.reservations
      ==> b.reservations[i].swapId.Some? ==> b.reservations[i].swapId == b.reservations[j].swapId ==> i == j
  }

  ghost predicate OwnersApart(b: Book) {
    forall a, c :: a in b.adverts && c in b.adverts && b.adverts[a].ownerHash == b.adverts[c].ownerHash ==> a == c
  }

  ghost predicate IntentsApart(b: Book) {
    forall a, c :: a in Active(b) && c in Active(b) && b.adverts[a].intentHash == b.adverts[c].intentHash ==> a == c
  }

  ghost predicate Good(b: Book) {
    RowsOk(b) && Homed(b) && OneOpen(b) && TokensApart(b) && SwapsApart(b) && OwnersApart(b) && IntentsApart(b)
  }

  /** How one row may change: identity is fixed, handshake fields are write-once, and a
      closed, bound or finalizing reservation stays that way. */
  predicate RowStep(r: Reservation, s: Reservation) {
    && s.advertId == r.advertId && s.tokenHash == r.tokenHash
    && s.createdAt == r.createdAt && s.expiresAt == r.expiresAt
    && (r.offer.Some? ==> s.offer == r.offer)
    && (r.acceptance.Some? ==> s.acceptance == r.acceptance)
    && (r.finalizationAt.Some? ==> s.finalizationAt == r.finalizationAt)
    && (r.makerFinal.Some? ==> s.makerFinal == r.makerFinal)
    && (r.makerSwapId.Some? ==> s.makerSwapId == r.makerSwapId)
    && (r.takerSwapId.Some? ==> s.takerSwapId == r.takerSwapId)
    && (r.swapId.Some? ==> s.swapId == r.swapId)
    && (!r.status.HELD? ==> s.status == r.status)
  }

  predicate AdvertStep(a: Advert, c: Advert) {
    && c.(status := ACTIVE, withdrawnAt := None) == a.(status := ACTIVE, withdrawnAt := None)
    && (!a.status.ACTIVE? ==> c == a)
  }

  ghost predicate Evolves(b: Book, c: Book) {
    && (forall id :: id in b.reservations ==> id in c.reservations && RowStep(b.reservations[id], c.reservations[id]))
    && (forall a :: a in b.adverts ==> a in c.adverts && AdvertStep(b.adverts[a], c.adverts[a]))
  }

  ghost predicate StepOk(b: Book, c: Book) {
    Good(c) && Evolves(b, c)
  }

  ghost predicate RowsEvolve(b: Book, c: Book) {
    forall id :: id in b.reservations ==> id in c.reservations && RowStep(b.reservations[id], c.reservations[id])
  }

  ghost predicate AdvertsEvolve(b: Book, c: Book) {
    forall a :: a in b.adverts ==> a in c.adverts && AdvertStep(b.adverts[a], c.adverts[a])
  }
}
