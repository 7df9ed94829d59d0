/** src/ai_oracle_service.cpp, lines 1042-1211, 1296-1642 and 2110-2853, with the enqueue
    of src/token_evolution.cpp, lines 1297-1453: the crash-safe anchor queue. The chain,
    the wallet and the disk answer through parameters, including dying at any point. */
module AnchorQueue {
  import opened ByteCodec
  import opened AnchorItem

  const MAX_PER_PASS: nat := 8
  const MAX_PER_TOKEN: nat := 8
  const MAX_TX_HEX: nat := 20000
  const MAX_RECEIPT_SCAN: nat := 4096

  // ---- what is durable ----

  /** An epoch record; valid says whether its provenance checks out. */
  datatype Record = Record(valid: bool, newHash: Text, opReturn: Text, hash: Text)
  datatype Prepared = Prepared(txid: Text, txHex: Text, newHash: Text, recordHash: Text)
  datatype Receipt = Receipt(txid: Text, newHash: Text, recordHash: Text)

  /** The TOKEN_EVOLUTION keys, by the canonical item text in their names. */
  datatype Durable = Durable(
    queue: Option<seq<Text>>, watch: Option<seq<Text>>, anchorTx: map<Text, Text>, receipts: map<Text, Receipt>,
    prepared: map<Text, Prepared>, epochs: map<Text, Record>)

  function Listed(stored: Option<seq<Text>>): seq<Text> {
    if stored.Some? then stored.value else []
  }

  // ---- what the world answers ----

  datatype Observation = Missing | Mempool | Confirmed
  datatype Sight = Sight(what: Observation, payloadMatches: bool)
  datatype Admission = Added | Duplicate | NotAdded

  /** One durable write: it may fail, land, land without being verified, or be cut off by
      a crash just before or just after. */
  datatype Write = Fails | Lands | Unverified | CrashBefore | CrashAfter

  predicate Happens(w: Write) {
    w.Lands? || w.Unverified? || w.CrashAfter?
  }

  predicate Crashes(w: Write) {
    w.CrashBefore? || w.CrashAfter?
  }

  /** A signed transaction the wallet produced, or none. */
  type Built = Option<(Text, Text)>

  datatype Rescue = NotApplicable | Retained | Replaced(txid: Text, txHex: Text)

  /** How far one turn got. */
  datatype Step = Retain | Die | Have(txid: Text)

  datatype Attempt = Attempt(
    existingFound: bool, rescue: Rescue, decodes: bool, built: Built, prepareWrite: Write,
    found: bool, admission: Admission, duplicateFound: bool, fundingGone: bool, replacement: Built, replaceWrite: Write,
    sight: Sight, commitWrite: Write)

  /** The chain or the mempool has the transaction of this attempt. */
  predicate Known(a: Attempt) {
    a.found || a.admission.Added? || (a.admission.Duplicate? && a.duplicateFound)
  }

  /** A wallet-built transaction that ends up stored and verified. */
  predicate Stores(built: Built, w: Write) {
    built.Some? && 0 < |built.value.1| <= MAX_TX_HEX && w.Lands?
  }

  /** A stored transaction that still belongs to its record and can be sent again. */
  predicate Retriable(p: Prepared, r: Record, a: Attempt) {
    && p.recordHash == r.hash && p.newHash == r.newHash
    && IsLowerHexExact(p.txid, 64) && 0 < |p.txHex| <= MAX_TX_HEX && |p.txHex| % 2 == 0
    && a.decodes && a.rescue.NotApplicable?
  }

  /** No write of this attempt cuts the pass short. */
  predicate Survives(a: Attempt) {
    !Crashes(a.prepareWrite) && !Crashes(a.replaceWrite) && (a.commitWrite.Lands? || a.commitWrite.Fails?)
  }

  /** What is stored about one item besides its receipt. */
  datatype Story = Story(record: Option<Record>, anchor: Option<Text>, prepared: Option<Prepared>)

  function StoryOf(d: Durable, k: Text): Story {
    Story(if k in d.epochs then Some(d.epochs[k]) else None, if k in d.anchorTx then Some(d.anchorTx[k]) else None,
          if k in d.prepared then Some(d.prepared[k]) else None)
  }

  /** The transaction an attempt may get a receipt for: the anchored one if it still shows,
      else the stored one if it can be sent again, else a new one. */
  ghost predicate MayReceipt(s: Story, a: Attempt, txid: Text) {
    && s.record.Some?
    && (|| (s.anchor == Some(txid) && a.existingFound)
        || (!(s.anchor.Some? && a.existingFound) && s.prepared.Some? && s.prepared.value.txid == txid
            && Retriable(s.prepared.value, s.record.value, a) && Known(a))
        || (!(s.anchor.Some? && a.existingFound) && s.prepared.None? && Stores(a.built, a.prepareWrite)
            && a.built.value.0 == txid && Known(a)))
  }

  /** It shows, with the right payload, and its receipt is written. */
  predicate Receipts(a: Attempt, txid: Text) {
    IsLowerHexExact(txid, 64) && !a.sight.what.Missing? && a.sight.payloadMatches && a.commitWrite.Lands?
  }

  /** The whole of a turn that ends in a receipt: the record is valid, there is a
      transaction to show, it is receipted, and the watch list has room for it. */
  ghost predicate Earned(d: Durable, k: Text, a: Attempt, txid: Text) {
    && k in d.epochs && d.epochs[k].valid && MayReceipt(StoryOf(d, k), a, txid) && Receipts(a, txid)
    && (a.sight.what.Confirmed? || |Without(Listed(d.watch), k)| < MAX_ITEMS)
  }

  /** What a new receipt is evidence of, even when the pass dies writing it. */
  ghost predicate Shown(d: Durable, k: Text, a: Attempt) {
    && k in d.epochs && d.epochs[k].valid && !a.sight.what.Missing? && a.sight.payloadMatches && Happens(a.commitWrite)
    && exists txid :: MayReceipt(StoryOf(d, k), a, txid) && IsLowerHexExact(txid, 64)
  }

  /** The same, told before a pass of which this is turn n: every turn before it may have
      taken a place on the watch list. */
  ghost predicate Due(d: Durable, k: Text, a: Attempt, txid: Text, n: nat) {
    && k in d.epochs && d.epochs[k].valid && MayReceipt(StoryOf(d, k), a, txid) && Receipts(a, txid)
    && (a.sight.what.Confirmed? || |Listed(d.watch)| + n < MAX_ITEMS)
  }

  /** A new item is due when the wallet builds it a transaction that fits and is stored, the
      chain or the mempool has it or takes it, it shows, and the receipt is written. */
  lemma NewIsDue(d: Durable, k: Text, a: Attempt, txid: Text, txHex: Text, n: nat)
    requires k in d.epochs && d.epochs[k].valid && k !in d.anchorTx && k !in d.prepared
    requires a.built == Some((txid, txHex)) && IsLowerHexExact(txid, 64) && 0 < |txHex| <= 20000 && a.prepareWrite == Lands
    requires a.found || a.admission == Added || (a.admission == Duplicate && a.duplicateFound)
    requires a.sight.what != Missing && a.sight.payloadMatches && a.commitWrite == Lands
    requires a.sight.what == Confirmed || |Listed(d.watch)| + n < 256
    ensures Due(d, k, a, txid, n)
  {
  }

  /** An item whose stored transaction was never sent, or got lost, is due when that very
      transaction still decodes and matches its record. */
  lemma StoredIsDue(d: Durable, k: Text, a: Attempt, n: nat)
    requires k in d.epochs && d.epochs[k].valid && k !in d.anchorTx && k in d.prepared
    requires var p, r := d.prepared[k], d.epochs[k];
             && p.recordHash == r.hash && p.newHash == r.newHash && IsLowerHexExact(p.txid, 64)
             && 0 < |p.txHex| <= 20000 && |p.txHex| % 2 == 0
    requires a.decodes && a.rescue == NotApplicable
    requires a.found || a.admission == Added || (a.admission == Duplicate && a.duplicateFound)
    requires a.sight.what != Missing && a.sight.payloadMatches && a.commitWrite == Lands
    requires a.sight.what == Confirmed || |Listed(d.watch)| + n < 256
    ensures Due(d, k, a, d.prepared[k].txid, n)
  {
  }

  ghost predicate AllSurvive(attempts: nat -> Attempt, n: nat) {
    forall i: nat :: i < n ==> Survives(attempts(i))
  }

  /** Of the first n items in line each that is due has its receipt and is off the queue. */
  ghost predicate Gained(was: Durable, attempts: nat -> Attempt, n: nat, receipts: map<Text, Receipt>, queue: seq<Text>) {
    forall i: nat, txid :: i < n && i < |Listed(was.queue)| && Due(was, Listed(was.queue)[i], attempts(i), txid, i) ==>
      var k := Listed(was.queue)[i];
      k in receipts && receipts[k].txid == txid && k !in queue
  }

  /** Every new receipt is of one of the first n items in line, for a transaction its
      attempt showed. */
  ghost predicate Evidenced(was: Durable, attempts: nat -> Attempt, n: nat, receipted: set<Text>) {
    forall k :: k in receipted && k !in was.receipts ==>
      exists i: nat :: i < n && i < |Listed(was.queue)| && Listed(was.queue)[i] == k && Shown(was, k, attempts(i))
  }

  /** So is every item newly seen confirmed. */
  ghost predicate SeenConfirmed(line: seq<Text>, attempts: nat -> Attempt, n: nat, before: set<Text>, after: set<Text>) {
    && before <= after
    && forall k :: k in after && k !in before ==>
         exists i: nat :: i < n && i < |line| && line[i] == k
           && attempts(i).sight.what.Confirmed? && attempts(i).sight.payloadMatches
  }

  /** The items in line that have not had their turn are as they were. */
  ghost predicate Untouched(was: Durable, d: Durable, n: nat) {
    && |Listed(d.watch)| <= |Listed(was.watch)| + n
    && forall i :: n <= i < |Listed(was.queue)| ==> StoryOf(d, Listed(was.queue)[i]) == StoryOf(was, Listed(was.queue)[i])
  }

  lemma DueIsEarned(was: Durable, d: Durable, n: nat, a: Attempt)
    requires n < |Listed(was.queue)| && Untouched(was, d, n)
    ensures var k := Listed(was.queue)[n];
            && (forall txid :: Due(was, k, a, txid, n) ==> Earned(d, k, a, txid))
            && (Shown(d, k, a) ==> Shown(was, k, a))
  {
    hide MayReceipt, Receipts;
    var k := Listed(was.queue)[n];
    assert StoryOf(d, k) == StoryOf(was, k);
  }

  lemma GainedStep(was: Durable, attempts: nat -> Attempt, n: nat, before: map<Text, Receipt>, after: map<Text, Receipt>,
                   q: seq<Text>, r: seq<Text>)
    requires n < |Listed(was.queue)| && Gained(was, attempts, n, before, q) && ReceiptsKept(before, after)
    requires forall k :: k in r ==> k in q
    requires var k := Listed(was.queue)[n];
             forall txid :: Due(was, k, attempts(n), txid, n) ==> k in after && after[k].txid == txid && k !in r
    ensures Gained(was, attempts, n + 1, after, r)
  {
    hide Due;
  }

  lemma EvidencedStep(was: Durable, attempts: nat -> Attempt, n: nat, before: set<Text>, after: set<Text>)
    requires n < |Listed(was.queue)| && Evidenced(was, attempts, n, before)
    requires after == before || (after == before + {Listed(was.queue)[n]} && Shown(was, Listed(was.queue)[n], attempts(n)))
    ensures Evidenced(was, attempts, n + 1, after)
  {
    hide Shown;
  }

  lemma SeenConfirmedStep(line: seq<Text>, attempts: nat -> Attempt, n: nat, start: set<Text>, before: set<Text>, after: set<Text>)
    requires n < |line| && SeenConfirmed(line, attempts, n, start, before)
    requires after == before
          || (after == before + {line[n]} && attempts(n).sight.what.Confirmed? && attempts(n).sight.payloadMatches)
    ensures SeenConfirmed(line, attempts, n + 1, start, after)
  {
  }

  lemma UntouchedStep(was: Durable, d: Durable, e: Durable, n: nat)
    requires n < |Listed(was.queue)| && NoDuplicates(Listed(was.queue)) && Untouched(was, d, n)
    requires forall x :: x != Listed(was.queue)[n] ==> StoryOf(e, x) == StoryOf(d, x)
    requires |Listed(e.watch)| <= |Listed(d.watch)| + 1
    ensures Untouched(was, e, n + 1)
  {
    hide StoryOf;
  }

  /** How far a pass is after n turns. */
  ghost predicate InPass(was: Durable, attempts: nat -> Attempt, n: nat, d: Durable, before: set<Text>, after: set<Text>) {
    && Untouched(was, d, n) && ReceiptsKept(was.receipts, d.receipts)
    && Gained(was, attempts, n, d.receipts, Listed(d.queue)) && Evidenced(was, attempts, n, d.receipts.Keys)
    && SeenConfirmed(Listed(was.queue), attempts, n, before, after)
    && forall k :: k in Listed(d.queue) ==> k in Listed(was.queue)
  }

  lemma NoTurns(was: Durable, attempts: nat -> Attempt, confirmed: set<Text>)
    ensures InPass(was, attempts, 0, was, confirmed, confirmed)
  {
    hide Due, Shown;
  }

  /** What one turn on item k does, from d to e: it ends in a receipt exactly when the
      attempt earns one, which takes the item, and no other, off the queue. */
  ghost predicate TurnDoes(d: Durable, e: Durable, k: Text, a: Attempt, before: set<Text>, after: set<Text>, r: Step) {
    && (r.Have? ==> Earned(d, k, a, r.txid) && k in e.receipts && e.receipts[k].txid == r.txid)
    && (forall txid :: Earned(d, k, a, txid) ==> r == Have(txid))
    && (r.Die? ==> !Survives(a))
    && (r.Have? ==> Listed(e.queue) == Without(Listed(d.queue), k))
    && (r.Retain? ==> e.queue == d.queue)
    && (e.queue == d.queue || e.queue == Some(Without(Listed(d.queue), k)))
    && ReceiptsKept(d.receipts, e.receipts)
    && (e.receipts.Keys == d.receipts.Keys || (e.receipts.Keys == d.receipts.Keys + {k} && Shown(d, k, a)))
    && (forall x :: x != k ==> StoryOf(e, x) == StoryOf(d, x))
    && |Listed(e.watch)| <= |Listed(d.watch)| + 1
    && (after == before || (after == before + {k} && a.sight.what.Confirmed? && a.sight.payloadMatches))
  }

  lemma InPassStep(was: Durable, attempts: nat -> Attempt, n: nat, d: Durable, e: Durable, start: set<Text>,
                   before: set<Text>, after: set<Text>, r: Step)
    requires n < |Listed(was.queue)| && NoDuplicates(Listed(was.queue)) && InPass(was, attempts, n, d, start, before)
    requires TurnDoes(d, e, Listed(was.queue)[n], attempts(n), before, after, r)
    ensures InPass(was, attempts, n + 1, e, start, after)
  {
    hide StoryOf, Earned, Shown, Due, ReceiptsKept, Without, NoDuplicates, Gained, Evidenced, SeenConfirmed, Untouched;
    var k := Listed(was.queue)[n];
    DueIsEarned(was, d, n, attempts(n));
    KeptOverall(was.receipts, d.receipts, e.receipts);
    UntouchedStep(was, d, e, n);
    GainedStep(was, attempts, n, d.receipts, e.receipts, Listed(d.queue), Listed(e.queue));
    EvidencedStep(was, attempts, n, d.receipts.Keys, e.receipts.Keys);
    SeenConfirmedStep(Listed(was.queue), attempts, n, start, before, after);
  }

  lemma TurnEnds(d: Durable, e: Durable, k: Text, a: Attempt, before: set<Text>, after: set<Text>, r: Step)
    requires TurnDoes(d, e, k, a, before, after, r)
    ensures r.Die? ==> !Survives(a)
    ensures r.Have? ==> Listed(e.queue) == Without(Listed(d.queue), k)
    ensures r.Retain? ==> e.queue == d.queue
  {
  }

  lemma PassKept(was: Durable, attempts: nat -> Attempt, n: nat, d: Durable, before: set<Text>, after: set<Text>)
    requires InPass(was, attempts, n, d, before, after)
    ensures ReceiptsKept(was.receipts, d.receipts)
    ensures forall k :: k in Listed(d.queue) ==> k in Listed(was.queue)
  {
  }

  /** What is left of the queue from the cursor on is what is left of the line. */
  ghost predicate InLine(q: seq<Text>, cursor: nat, line: seq<Text>, turn: nat) {
    cursor <= |q| && turn <= |line| && q[cursor..] == line[turn..]
  }

  lemma LineMoves(q: seq<Text>, cursor: nat, line: seq<Text>, turn: nat)
    requires InLine(q, cursor, line, turn) && NoDuplicates(q)
    ensures |q| - cursor == |line| - turn
    ensures cursor < |q| ==>
              && q[cursor] == line[turn] && InLine(q, cursor + 1, line, turn + 1)
              && InLine(Without(q, q[cursor]), cursor, line, turn + 1) && |Without(q, q[cursor])| == |q| - 1
  {
    hide NoDuplicates;
    if cursor < |q| {
      WithoutOne(q, cursor);
      hide Without;
      assert q[cursor..][0] == line[turn..][0];
      assert q[cursor..][1..] == q[cursor + 1..] && line[turn..][1..] == line[turn + 1..];
      assert (q[..cursor] + q[cursor + 1..])[cursor..] == q[cursor + 1..];
    }
  }

  lemma LineStarts(line: seq<Text>)
    ensures InLine(line, 0, line, 0)
  {
  }

  lemma LineEnds(q: seq<Text>, cursor: nat, line: seq<Text>, turn: nat)
    requires InLine(q, cursor, line, turn)
    ensures cursor <= |q| && |q| - cursor == |line| - turn
  {
  }

  lemma QueueOnce(d: Durable, everQueued: set<Text>, confirmed: set<Text>)
    requires Safe(d, everQueued, confirmed)
    ensures NoDuplicates(Listed(d.queue))
  {
    hide NoDuplicates, WatchOk, ReceiptsBacked, NothingLost, Watched, QueueStored, AllCanonical, CountFor;
  }

  lemma ReceiptedAll(d: Durable, everQueued: set<Text>, confirmed: set<Text>, line: seq<Text>)
    requires Safe(d, everQueued, confirmed) && forall k :: k in line ==> k in everQueued
    ensures forall k :: k in line && k !in Listed(d.queue) ==> k in d.receipts && k in d.anchorTx && d.anchorTx[k] == d.receipts[k].txid
  {
    hide Safe;
    forall k | k in line && k !in Listed(d.queue) ensures k in d.receipts && k in d.anchorTx && d.anchorTx[k] == d.receipts[k].txid {
      ReceiptFacts(d, everQueued, confirmed, k);
    }
  }

  ghost predicate AllReceipted(d: Durable, sent: seq<(Text, Text)>) {
    forall i :: 0 <= i < |sent| ==>
      var (k, txid) := sent[i];
      k in d.receipts && d.receipts[k].txid == txid && k in d.prepared && d.prepared[k].txid == txid
  }

  lemma CanonicalAt(s: seq<Text>, i: nat)
    requires AllCanonical(s) && i < |s|
    ensures IsCanonicalText(s[i])
  {
    hide IsCanonicalText;
  }

  lemma NothingWatched(look: nat -> Sight, decodes: nat -> bool)
    ensures Sure([], look, MAX_PER_PASS) == {} && Resendable([], look, decodes, MAX_PER_PASS) == {} && Names([]) == {}
  {
  }

  lemma WatchedFirst(line: seq<Text>, look: nat -> Sight, decodes: nat -> bool)
    ensures Sure(line, look, 0) == {} && Resendable(line, look, decodes, 0) == {} && Names([]) == {}
    ensures forall k :: k in Sure(line, look, MAX_PER_PASS) ==> k in line
  {
  }

  lemma WatchedNext(line: seq<Text>, look: nat -> Sight, decodes: nat -> bool, n: nat)
    requires n < |line|
    ensures Sure(line, look, n + 1)
         == Sure(line, look, n) + (if look(n).what.Confirmed? && look(n).payloadMatches then {line[n]} else {})
    ensures Resendable(line, look, decodes, n + 1)
         == Resendable(line, look, decodes, n) + (if look(n).what.Missing? && decodes(n) then {line[n]} else {})
  {
  }

  lemma SentNext(sent: seq<(Text, Text)>, k: Text, txid: Text)
    ensures Names(sent + [(k, txid)]) == Names(sent) + {k}
  {
    var t := sent + [(k, txid)];
    assert forall i :: 0 <= i < |sent| ==> t[i] == sent[i];
    assert t[|sent|].0 == k;
    assert forall j :: j in Names(sent) ==> j in Names(t);
    assert k in Names(t);
  }

  /** How far the watch loop is after n turns. */
  ghost predicate Walked(d: Durable, start: seq<Text>, look: nat -> Sight, decodes: nat -> bool, n: nat, cursor: nat,
                         left: seq<Text>, seen: set<Text>, sent: seq<(Text, Text)>) {
    && |left| <= |start| && AllCanonical(left) && NoDuplicates(left) && InLine(left, cursor, start, n)
    && (forall k :: k in left <==> k in start && k !in seen) && seen == Sure(start, look, n)
    && (forall k :: k in left ==> k in d.receipts)
    && AllReceipted(d, sent) && Names(sent) == Resendable(start, look, decodes, n)
  }

  lemma WalkedNothing(d: Durable, start: seq<Text>, look: nat -> Sight, decodes: nat -> bool)
    requires AllCanonical(start) && NoDuplicates(start) && forall k :: k in start ==> k in d.receipts
    ensures Walked(d, start, look, decodes, 0, 0, start, {}, [])
  {
    hide AllCanonical, NoDuplicates;
    WatchedFirst(start, look, decodes);
  }

  lemma WalkedAt(d: Durable, start: seq<Text>, look: nat -> Sight, decodes: nat -> bool, n: nat, cursor: nat,
                 left: seq<Text>, seen: set<Text>, sent: seq<(Text, Text)>)
    requires cursor < |left| && Walked(d, start, look, decodes, n, cursor, left, seen, sent)
    ensures IsCanonicalText(left[cursor]) && left[cursor] in d.receipts
  {
    CanonicalAt(left, cursor);
  }

  lemma WalkedDrop(d: Durable, start: seq<Text>, look: nat -> Sight, decodes: nat -> bool, n: nat, cursor: nat,
                   left: seq<Text>, seen: set<Text>, sent: seq<(Text, Text)>)
    requires cursor < |left| && Walked(d, start, look, decodes, n, cursor, left, seen, sent)
    requires look(n).what.Confirmed? && look(n).payloadMatches
    ensures Walked(d, start, look, decodes, n + 1, cursor, left[..cursor] + left[cursor + 1..], seen + {left[cursor]}, sent)
  {
    LineMoves(left, cursor, start, n);
    WatchedNext(start, look, decodes, n);
    CutKeeps(left, cursor);
    WithoutOne(left, cursor);
    hide Sure, Resendable, Names, AllCanonical, NoDuplicates, InLine, Without, AllReceipted;
  }

  lemma WalkedStay(d: Durable, start: seq<Text>, look: nat -> Sight, decodes: nat -> bool, n: nat, cursor: nat,
                   left: seq<Text>, seen: set<Text>, sent: seq<(Text, Text)>)
    requires cursor < |left| && Walked(d, start, look, decodes, n, cursor, left, seen, sent)
    requires !(look(n).what.Confirmed? && look(n).payloadMatches)
    ensures !(look(n).what.Missing? && decodes(n)) ==> Walked(d, start, look, decodes, n + 1, cursor + 1, left, seen, sent)
    ensures var k := left[cursor];
            look(n).what.Missing? && decodes(n) && k in d.receipts && k in d.prepared && d.prepared[k].txid == d.receipts[k].txid
            ==> Walked(d, start, look, decodes, n + 1, cursor + 1, left, seen, sent + [(k, d.receipts[k].txid)])
  {
    var k := left[cursor];
    LineMoves(left, cursor, start, n);
    WatchedNext(start, look, decodes, n);
    if k in d.receipts {
      SentNext(sent, k, d.receipts[k].txid);
    }
    hide Sure, Resendable, Names, AllCanonical, NoDuplicates, InLine, Without;
  }

  lemma WalkedAll(d: Durable, start: seq<Text>, look: nat -> Sight, decodes: nat -> bool, n: nat, cursor: nat,
                  left: seq<Text>, seen: set<Text>, sent: seq<(Text, Text)>)
    requires Walked(d, start, look, decodes, n, cursor, left, seen, sent)
    requires n == MAX_PER_PASS || (n <= MAX_PER_PASS && cursor == |left|)
    ensures |left| <= |start| && AllCanonical(left) && NoDuplicates(left) && AllReceipted(d, sent)
    ensures forall k :: k in left ==> k in d.receipts
    ensures forall k :: k in left <==> k in start && k !in seen
    ensures seen == Sure(start, look, MAX_PER_PASS) && Names(sent) == Resendable(start, look, decodes, MAX_PER_PASS)
  {
    LineMoves(left, cursor, start, n);
    AllLooked(start, look, decodes, n);
    hide Sure, Resendable, Names, AllCanonical, NoDuplicates, InLine, Without, AllReceipted;
  }

  lemma AllLooked(line: seq<Text>, look: nat -> Sight, decodes: nat -> bool, n: nat)
    requires n == MAX_PER_PASS || |line| <= n <= MAX_PER_PASS
    ensures Sure(line, look, n) == Sure(line, look, MAX_PER_PASS)
    ensures Resendable(line, look, decodes, n) == Resendable(line, look, decodes, MAX_PER_PASS)
  {
  }

  /** The turns a pass may take. */
  function Allowance(turns: nat): nat {
    if turns < MAX_PER_PASS then turns else MAX_PER_PASS
  }

  /** The pass ends when the line or its allowance does, or with a turn that did not
      survive. */
  lemma PassEnds(was: Durable, attempts: nat -> Attempt, turns: nat, turn: nat, died: bool, d: Durable,
                 before: set<Text>, after: set<Text>)
    requires turn <= Allowance(turns) && InPass(was, attempts, turn, d, before, after)
    requires died ==> turn > 0 && !Survives(attempts(turn - 1))
    requires !died ==> turn >= |Listed(was.queue)| || turn == Allowance(turns)
    ensures forall n: nat :: n <= Allowance(turns) && (n == 0 || AllSurvive(attempts, n - 1)) ==>
              Gained(was, attempts, n, d.receipts, Listed(d.queue))
    ensures Evidenced(was, attempts, Allowance(turns), d.receipts.Keys)
    ensures SeenConfirmed(Listed(was.queue), attempts, Allowance(turns), before, after)
  {
    hide Due, Shown, Survives, Untouched, ReceiptsKept;
  }

  /** Of the first n watched items those that are confirmed, with the right payload. */
  ghost function Sure(line: seq<Text>, look: nat -> Sight, n: nat): set<Text> {
    set i: nat | i < n && i < |line| && look(i).what.Confirmed? && look(i).payloadMatches :: line[i]
  }

  /** And those that are missing, and whose stored transaction decodes. */
  ghost function Resendable(line: seq<Text>, look: nat -> Sight, decodes: nat -> bool, n: nat): set<Text> {
    set i: nat | i < n && i < |line| && look(i).what.Missing? && decodes(i) :: line[i]
  }

  ghost function Names(sent: seq<(Text, Text)>): set<Text> {
    set i | 0 <= i < |sent| :: sent[i].0
  }

  // ---- the invariant ----

  predicate NoDuplicates(s: seq<Text>) {
    forall i, j :: 0 <= i < j < |s| ==> s[i] != s[j]
  }

  ghost predicate AllCanonical(s: seq<Text>) {
    forall i :: 0 <= i < |s| ==> IsCanonicalText(s[i])
  }

  predicate Matches(d: Durable, k: Text, newHash: Text, recordHash: Text) {
    k in d.epochs && d.epochs[k].valid && d.epochs[k].newHash == newHash && d.epochs[k].hash == recordHash
  }

  /** A receipt together with everything a retry of its transaction needs. */
  ghost predicate Backed(d: Durable, k: Text)
    requires k in d.receipts
  {
    var r := d.receipts[k];
    && IsCanonicalText(k) && IsLowerHexExact(r.txid, 64)
    && k in d.anchorTx && d.anchorTx[k] == r.txid
    && Matches(d, k, r.newHash, r.recordHash)
    && k in d.prepared && d.prepared[k].txid == r.txid
    && d.prepared[k].newHash == r.newHash && d.prepared[k].recordHash == r.recordHash
  }

  ghost predicate ReceiptsBacked(d: Durable) {
    d.anchorTx.Keys == d.receipts.Keys && forall k :: k in d.receipts ==> Backed(d, k)
  }

  ghost predicate ForToken(t: Text, token: Text) {
    exists epoch :: Spells(t, Item(token, epoch))
  }

  ghost function CountFor(s: seq<Text>, token: Text): nat {
    if s == [] then 0 else CountFor(s[..|s| - 1], token) + (if ForToken(s[|s| - 1], token) then 1 else 0)
  }

  /** Bounded, canonical, without repeats, and fair: at most eight items per token. */
  ghost predicate QueueOk(d: Durable) {
    var q := Listed(d.queue);
    |q| <= MAX_ITEMS && AllCanonical(q) && NoDuplicates(q) && forall token :: CountFor(q, token) <= MAX_PER_TOKEN
  }

  ghost predicate WatchOk(d: Durable) {
    && |Listed(d.watch)| <= MAX_ITEMS && AllCanonical(Listed(d.watch)) && NoDuplicates(Listed(d.watch))
    && forall k :: k in Listed(d.watch) ==> k in d.receipts
  }

  /** Nothing that was ever queued is lost. */
  ghost predicate NothingLost(d: Durable, everQueued: set<Text>) {
    && (forall k :: k in everQueued ==> k in Listed(d.queue) || k in d.receipts)
    && (forall k :: k in Listed(d.queue) ==> k in everQueued)
  }

  /** A receipted item is off the watch list only once it was seen confirmed. */
  ghost predicate Watched(d: Durable, confirmed: set<Text>) {
    forall k :: k in d.receipts ==> k in confirmed || k in Listed(d.watch)
  }

  /** Receipts are written once. */
  ghost predicate ReceiptsKept(before: map<Text, Receipt>, after: map<Text, Receipt>) {
    forall k :: k in before ==> k in after && after[k] == before[k]
  }

  lemma KeptBySame(a: map<Text, Receipt>, k: Text, r: Receipt)
    requires k in a ==> a[k] == r
    ensures ReceiptsKept(a, a[k := r])
  {
  }

  lemma NothingWritten(a: map<Text, Receipt>)
    ensures ReceiptsKept(a, a)
  {
  }

  lemma KeptOverall(a: map<Text, Receipt>, b: map<Text, Receipt>, c: map<Text, Receipt>)
    requires ReceiptsKept(a, b) && ReceiptsKept(b, c)
    ensures ReceiptsKept(a, c)
  {
  }

  /** Every queued item's epoch is stored. */
  ghost predicate QueueStored(d: Durable) {
    forall k :: k in Listed(d.queue) ==> k in d.epochs
  }

  ghost predicate Safe(d: Durable, everQueued: set<Text>, confirmed: set<Text>) {
    && QueueOk(d) && WatchOk(d) && ReceiptsBacked(d) && NothingLost(d, everQueued) && Watched(d, confirmed)
    && QueueStored(d)
  }

  // ---- what each durable change keeps ----

  /** A prepared transaction may be written for any item that has no receipt yet. */
  lemma PreparedKeepsSafe(d: Durable, k: Text, p: Prepared, everQueued: set<Text>, confirmed: set<Text>)
    requires Safe(d, everQueued, confirmed) && k !in d.receipts
    ensures Safe(d.(prepared := d.prepared[k := p]), everQueued, confirmed)
  {
    hide IsCanonicalText, IsLowerHexExact;
    var e := d.(prepared := d.prepared[k := p]);
    forall j | j in e.receipts ensures Backed(e, j) {
      assert Backed(d, j);
    }
  }

  function Without(s: seq<Text>, k: Text): (r: seq<Text>)
    ensures |r| <= |s| && k !in r
    ensures forall x :: x in r <==> x in s && x != k
  {
    if s == [] then []
    else
      var front := Without(s[..|s| - 1], k);
      assert s == s[..|s| - 1] + [s[|s| - 1]];
      if s[|s| - 1] == k then front else front + [s[|s| - 1]]
  }

  lemma {:induction false} WithoutKeeps(s: seq<Text>, k: Text)
    ensures AllCanonical(s) ==> AllCanonical(Without(s, k))
    ensures NoDuplicates(s) ==> NoDuplicates(Without(s, k))
    ensures forall token :: CountFor(Without(s, k), token) <= CountFor(s, token)
  {
    hide IsCanonicalText, ForToken;
    if s != [] {
      var front, x := s[..|s| - 1], s[|s| - 1];
      WithoutKeeps(front, k);
      assert NoDuplicates(s) ==> NoDuplicates(front) && x !in front;
      if x != k {
        assert Without(s, k)[..|Without(s, k)| - 1] == Without(front, k);
      }
    }
  }

  /** Without repeats, exactly the one item goes. */
  lemma {:induction false} WithoutOne(s: seq<Text>, i: nat)
    requires i < |s| && NoDuplicates(s)
    ensures Without(s, s[i]) == s[..i] + s[i + 1..]
  {
    var front := s[..|s| - 1];
    if i < |front| {
      WithoutOne(front, i);
      assert s[..i] + s[i + 1..] == front[..i] + front[i + 1..] + [s[|s| - 1]];
    } else {
      WithoutAbsent(front, s[i]);
      assert s[..i] + s[i + 1..] == front;
    }
  }

  lemma {:induction false} WithoutAbsent(s: seq<Text>, k: Text)
    requires k !in s
    ensures Without(s, k) == s
  {
    if s != [] {
      WithoutAbsent(s[..|s| - 1], k);
      assert s == s[..|s| - 1] + [s[|s| - 1]];
    }
  }

  /** The atomic batch: receipt in, queue item out, watch item in unless confirmed. */
  function Committed(d: Durable, k: Text, txid: Text, queue: seq<Text>, watch: seq<Text>, newHash: Text, recordHash: Text): Durable {
    d.(anchorTx := d.anchorTx[k := txid], receipts := d.receipts[k := Receipt(txid, newHash, recordHash)],
       queue := Some(queue), watch := Some(watch))
  }

  /** The same for the lists as they stand. */
  function Receipted(d: Durable, k: Text, txid: Text, isConfirmed: bool): Durable
    requires k in d.epochs
  {
    Committed(d, k, txid, Without(Listed(d.queue), k), Without(Listed(d.watch), k) + (if isConfirmed then [] else [k]),
              d.epochs[k].newHash, d.epochs[k].hash)
  }

  ghost predicate CommitAllowed(d: Durable, k: Text, txid: Text, newHash: Text, recordHash: Text) {
    && IsCanonicalText(k) && IsLowerHexExact(txid, 64) && Matches(d, k, newHash, recordHash)
    && k in d.prepared && d.prepared[k].txid == txid
    && d.prepared[k].newHash == newHash && d.prepared[k].recordHash == recordHash
  }

  lemma CommitIsAllowed(d: Durable, k: Text, txid: Text)
    requires IsCanonicalText(k) && k in d.epochs && d.epochs[k].valid && k in d.prepared
    requires d.prepared[k] == Prepared(txid, d.prepared[k].txHex, d.epochs[k].newHash, d.epochs[k].hash)
    ensures IsLowerHexExact(txid, 64) ==> CommitAllowed(d, k, txid, d.epochs[k].newHash, d.epochs[k].hash)
  {
    hide IsCanonicalText, IsLowerHexExact;
  }

  lemma CommitReceipts(d: Durable, k: Text, txid: Text, queue: seq<Text>, watch: seq<Text>, newHash: Text, recordHash: Text)
    requires ReceiptsBacked(d) && CommitAllowed(d, k, txid, newHash, recordHash)
    ensures ReceiptsBacked(Committed(d, k, txid, queue, watch, newHash, recordHash))
  {
    hide IsCanonicalText, IsLowerHexExact;
    var e := Committed(d, k, txid, queue, watch, newHash, recordHash);
    forall j | j in e.receipts ensures Backed(e, j) {
      if j != k {
        assert Backed(d, j);
      }
    }
  }

  lemma CanonicalOne(k: Text)
    requires IsCanonicalText(k)
    ensures AllCanonical([k]) && AllCanonical([])
  {
    hide IsCanonicalText;
  }

  lemma CanonicalAppend(a: seq<Text>, b: seq<Text>)
    ensures AllCanonical(a) && AllCanonical(b) ==> AllCanonical(a + b)
  {
    hide IsCanonicalText;
  }

  lemma CommitKeepsSafe(d: Durable, k: Text, txid: Text, newHash: Text, recordHash: Text, isConfirmed: bool,
                        everQueued: set<Text>, confirmed: set<Text>)
    requires Safe(d, everQueued, confirmed) && CommitAllowed(d, k, txid, newHash, recordHash)
    requires !isConfirmed ==> |Without(Listed(d.watch), k)| < MAX_ITEMS
    ensures var queue := Without(Listed(d.queue), k);
            var watch := Without(Listed(d.watch), k) + (if isConfirmed then [] else [k]);
            Safe(Committed(d, k, txid, queue, watch, newHash, recordHash), everQueued,
                 if isConfirmed then confirmed + {k} else confirmed)
  {
    hide QueueOk, WatchOk, ReceiptsBacked, Without, CommitAllowed, Watched, NothingLost;
    var queue := Without(Listed(d.queue), k);
    var watch := Without(Listed(d.watch), k) + (if isConfirmed then [] else [k]);
    var e := Committed(d, k, txid, queue, watch, newHash, recordHash);
    CommitReceipts(d, k, txid, queue, watch, newHash, recordHash);
    CommitQueue(d, e, k, everQueued);
    CommitWatch(d, e, k, isConfirmed, confirmed, txid, newHash, recordHash);
  }

  lemma CommitQueue(d: Durable, e: Durable, k: Text, everQueued: set<Text>)
    requires QueueOk(d) && NothingLost(d, everQueued)
    requires e.queue == Some(Without(Listed(d.queue), k)) && e.receipts.Keys == d.receipts.Keys + {k}
    ensures QueueOk(e) && NothingLost(e, everQueued)
  {
    hide AllCanonical, NoDuplicates, CountFor, Without;
    WithoutKeeps(Listed(d.queue), k);
    forall token ensures CountFor(Listed(e.queue), token) <= MAX_PER_TOKEN {
      assert CountFor(Listed(d.queue), token) <= MAX_PER_TOKEN;
    }
  }

  lemma CommitWatch(d: Durable, e: Durable, k: Text, isConfirmed: bool, confirmed: set<Text>, txid: Text,
                    newHash: Text, recordHash: Text)
    requires WatchOk(d) && Watched(d, confirmed) && CommitAllowed(d, k, txid, newHash, recordHash)
    requires !isConfirmed ==> |Without(Listed(d.watch), k)| < MAX_ITEMS
    requires e.watch == Some(Without(Listed(d.watch), k) + (if isConfirmed then [] else [k]))
    requires e.receipts.Keys == d.receipts.Keys + {k}
    ensures WatchOk(e) && Watched(e, if isConfirmed then confirmed + {k} else confirmed)
  {
    CanonicalOne(k);
    hide AllCanonical, Without, Matches, IsCanonicalText, IsLowerHexExact;
    var front, back := Without(Listed(d.watch), k), if isConfirmed then [] else [k];
    WithoutKeeps(Listed(d.watch), k);
    CanonicalAppend(front, back);
    assert Listed(e.watch) == front + back;
    assert NoDuplicates(front + back);
    assert forall x :: x in front + back <==> x in front || (!isConfirmed && x == k);
  }

  /** Any new watch list that drops only items seen confirmed. */
  lemma WatchKeepsSafe(d: Durable, watch: seq<Text>, everQueued: set<Text>, confirmed: set<Text>, seen: set<Text>)
    requires Safe(d, everQueued, confirmed)
    requires |watch| <= MAX_ITEMS && AllCanonical(watch) && NoDuplicates(watch)
    requires forall k :: k in watch ==> k in d.receipts
    requires forall k :: k in d.receipts && k !in confirmed && k in Listed(d.watch) && k !in watch ==> k in seen
    ensures Safe(d.(watch := Some(watch)), everQueued, confirmed + seen)
  {
    hide IsCanonicalText, IsLowerHexExact, AllCanonical, NoDuplicates;
    var e := d.(watch := Some(watch));
    forall j | j in e.receipts ensures Backed(e, j) {
      assert Backed(d, j);
    }
  }

  lemma MoreConfirmed(d: Durable, everQueued: set<Text>, confirmed: set<Text>, seen: set<Text>)
    requires Safe(d, everQueued, confirmed)
    ensures Safe(d, everQueued, confirmed + seen)
  {
    hide QueueOk, WatchOk, ReceiptsBacked, NothingLost;
  }

  // ---- reading back ----

  /** loadEvolutionAnchorWatch on a stored array. */
  ghost predicate WatchLoads(d: Durable) {
    && JsonSize(Listed(d.watch)) <= MAX_BYTES && |Listed(d.watch)| <= MAX_ITEMS
    && NoDuplicates(Listed(d.watch)) && forall k :: k in Listed(d.watch) ==> IsItemText(k)
  }

  lemma SafeWatchLoads(d: Durable)
    requires WatchOk(d)
    ensures WatchLoads(d)
  {
    CanonicalIsShortSeq(Listed(d.watch));
    hide IsCanonicalText, Spells, IsItemText;
    BytesNeverBite(Listed(d.watch));
    forall k | k in Listed(d.watch) ensures IsItemText(k) {
      CanonicalSpells(k);
    }
  }

  lemma SpellsNothing(t: Text)
    ensures !IsItemText(t) <==> forall i :: !Spells(t, i)
  {
  }

  /** Under the invariant the stored watch list always loads. */
  lemma WatchAlwaysLoads(d: Durable, everQueued: set<Text>, confirmed: set<Text>)
    requires Safe(d, everQueued, confirmed)
    ensures WatchLoads(d)
  {
    hide QueueOk, ReceiptsBacked, NothingLost, Watched, WatchOk, WatchLoads;
    SafeWatchLoads(d);
  }

  lemma CanonicalIsShortSeq(s: seq<Text>)
    requires AllCanonical(s)
    ensures ShortItems(s)
  {
  }

  datatype Identity = Identity(txid: Text, newHash: Text, opReturn: Text, recordHash: Text)

  /** loadSubmittedEvolutionAnchorIdentity. */
  function IdentityOf(d: Durable, k: Text): Option<Identity> {
    if k !in d.epochs || !d.epochs[k].valid then None
    else
      var record := d.epochs[k];
      if k !in d.receipts then None
      else
        var r := d.receipts[k];
        if r.newHash != record.newHash || r.recordHash != record.hash || !IsLowerHexExact(r.txid, 64) then None
        else if k !in d.anchorTx || d.anchorTx[k] != r.txid then None
        else Some(Identity(r.txid, record.newHash, record.opReturn, record.hash))
  }

  /** Every receipt identifies its transaction, and the exact transaction is at hand. */
  lemma ReceiptsIdentify(d: Durable, everQueued: set<Text>, confirmed: set<Text>, k: Text)
    requires Safe(d, everQueued, confirmed) && k in d.receipts
    ensures IdentityOf(d, k).Some? && IdentityOf(d, k).value.txid == d.receipts[k].txid
    ensures k in d.prepared && d.prepared[k].txid == d.receipts[k].txid
  {
    hide QueueOk, WatchOk, NothingLost, Watched, IsCanonicalText, IsLowerHexExact;
    assert Backed(d, k);
  }

  lemma CanonicalParses(t: Text, i: Item)
    requires IsCanonicalText(t) && Spells(t, i)
    ensures Render(i) == t
  {
    var j :| Spells(t, j) && t == Render(j);
    SpellsOne(t, i, j);
  }

  lemma CanonicalSpells(t: Text)
    requires IsCanonicalText(t)
    ensures IsItemText(t)
  {
  }

  /** The receipts not seen confirmed, in scan order. */
  ghost function Unconfirmed(order: seq<Text>, look: nat -> Sight, n: nat): seq<Text>
    requires n <= |order|
  {
    if n == 0 then []
    else Unconfirmed(order, look, n - 1) + (if look(n - 1).what.Confirmed? then [] else [order[n - 1]])
  }

  lemma {:induction false} UnconfirmedFrom(order: seq<Text>, look: nat -> Sight, n: nat)
    requires n <= |order|
    ensures forall k :: k in Unconfirmed(order, look, n) <==> exists i :: 0 <= i < n && order[i] == k && !look(i).what.Confirmed?
    ensures NoDuplicates(order) ==> NoDuplicates(Unconfirmed(order, look, n))
    ensures AllCanonical(order) ==> AllCanonical(Unconfirmed(order, look, n))
  {
    hide IsCanonicalText;
    if n > 0 {
      UnconfirmedFrom(order, look, n - 1);
      var front := Unconfirmed(order, look, n - 1);
      forall k ensures k in Unconfirmed(order, look, n) <==> exists i :: 0 <= i < n && order[i] == k && !look(i).what.Confirmed? {
        if k in front {
          var i :| 0 <= i < n - 1 && order[i] == k && !look(i).what.Confirmed?;
        }
        if !look(n - 1).what.Confirmed? && k == order[n - 1] {
          assert 0 <= n - 1 < n;
        }
      }
      assert NoDuplicates(order) ==> order[n - 1] !in front;
    }
  }

  ghost predicate AllParse(q: seq<Text>) {
    forall i :: 0 <= i < |q| ==> IsItemText(q[i])
  }

  ghost predicate ItemAnchored(text: Text, anchored: set<Text>) {
    exists i :: Spells(text, i) && Render(i) in anchored
  }

  /** The canonicalised queue: the first occurrence of every item not yet anchored. */
  ghost function Compacted(q: seq<Text>, anchored: set<Text>): seq<Text> {
    if q == [] then []
    else
      var front, x := q[..|q| - 1], q[|q| - 1];
      if x in front || ItemAnchored(x, anchored) then Compacted(front, anchored) else Compacted(front, anchored) + [x]
  }

  lemma CompactedSnoc(q: seq<Text>, i: nat, anchored: set<Text>)
    requires i <= |q|
    ensures Compacted([], anchored) == [] && q[..0] == []
    ensures i < |q| ==>
              && q[..i + 1] == q[..i] + [q[i]]
              && Compacted(q[..i + 1], anchored)
                 == Compacted(q[..i], anchored) + (if q[i] in q[..i] || ItemAnchored(q[i], anchored) then [] else [q[i]])
  {
    assert i < |q| ==> q[..i + 1][..i] == q[..i];
  }

  /** In a queue of rendered items without repeats only anchored items go. */
  lemma {:induction false} CompactedIsPending(q: seq<Text>, anchored: set<Text>)
    requires AllCanonical(q) && NoDuplicates(q)
    ensures Compacted(q, anchored) == Pending(q, anchored)
  {
    hide IsCanonicalText, Spells, Render;
    if q != [] {
      var front, x := q[..|q| - 1], q[|q| - 1];
      CompactedIsPending(front, anchored);
      assert IsCanonicalText(x) && x !in front;
      CanonicalAnchored(x, anchored);
    }
  }

  lemma CanonicalAnchored(x: Text, anchored: set<Text>)
    requires IsCanonicalText(x)
    ensures ItemAnchored(x, anchored) <==> x in anchored
  {
    hide Spells, Render;
    var j :| Spells(x, j) && x == Render(j);
    forall i | Spells(x, i) ensures i == j {
      SpellsOne(x, i, j);
    }
  }

  lemma {:induction false} CompactedMembers(q: seq<Text>, anchored: set<Text>, x: Text)
    ensures x in Compacted(q, anchored) <==> x in q && !ItemAnchored(x, anchored)
  {
    hide ItemAnchored;
    if q != [] {
      CompactedMembers(q[..|q| - 1], anchored, x);
      assert q == q[..|q| - 1] + [q[|q| - 1]];
    }
  }

  lemma CompactedParses(q: seq<Text>, anchored: set<Text>)
    requires AllParse(q)
    ensures AllParse(Compacted(q, anchored))
  {
    hide Compacted, ItemAnchored, IsItemText;
    var c := Compacted(q, anchored);
    forall i | 0 <= i < |c| ensures IsItemText(c[i]) {
      CompactedMembers(q, anchored, c[i]);
    }
  }

  /** The compaction of any stored queue: refused exactly for a malformed item. */
  method CompactQueue(q: seq<Text>, anchorTx: map<Text, Text>) returns (r: Option<seq<Text>>)
    ensures r.Some? <==> AllParse(q)
    ensures r.Some? ==> r.value == Compacted(q, anchorTx.Keys)
  {
    hide IsCanonicalText, Spells, Render, Compacted;
    var out: seq<Text> := [];
    var seen: set<Text> := {};
    CompactedSnoc(q, 0, anchorTx.Keys);
    for i := 0 to |q|
      invariant out == Compacted(q[..i], anchorTx.Keys)
      invariant forall k :: k in seen <==> k in q[..i]
      invariant forall j :: 0 <= j < i ==> IsItemText(q[j])
    {
      CompactedSnoc(q, i, anchorTx.Keys);
      var item := ParseEvolutionAnchorQueueItem(q[i]);
      if item.None? {
        return None;
      }
      SpelledAnchored(q[i], item.value, anchorTx.Keys);
      if q[i] in seen {
        continue;
      }
      seen := seen + {q[i]};
      if Render(item.value) in anchorTx {
        continue;
      }
      out := out + [q[i]];
    }
    assert q[..|q|] == q;
    return Some(out);
  }

  lemma SpelledAnchored(x: Text, i: Item, anchored: set<Text>)
    requires Spells(x, i)
    ensures IsItemText(x) && (ItemAnchored(x, anchored) <==> Render(i) in anchored)
  {
    hide Spells, Render;
    forall j | Spells(x, j) ensures i == j {
      SpellsOne(x, i, j);
    }
  }

  // ---- the service ----

  datatype Event =
    | Arrival(item: Item, record: Record, write: Write)
    | ReconcileStep(look: nat -> Sight, write: Write)
    | WatchStep(look: nat -> Sight, decodes: nat -> bool, write: Write)
    | QueueStep(attempts: nat -> Attempt, turns: nat)

  class AnchorService {
    var queue: Option<seq<Text>>
    var watch: Option<seq<Text>>
    var anchorTx: map<Text, Text>
    var receipts: map<Text, Receipt>
    var prepared: map<Text, Prepared>
    var epochs: map<Text, Record>
    /** Every item an enqueue ever acknowledged, and every one seen confirmed. */
    ghost var everQueued: set<Text>
    ghost var confirmed: set<Text>

    ghost function Disk(): Durable
      reads this
    {
      Durable(queue, watch, anchorTx, receipts, prepared, epochs)
    }

    ghost predicate Valid()
      reads this
    {
      Safe(Disk(), everQueued, confirmed)
    }

    constructor ()
      ensures Valid() && everQueued == {} && confirmed == {}
      ensures Disk() == Durable(None, None, map[], map[], map[], map[])
    {
      queue, watch, anchorTx, receipts, prepared, epochs := None, None, map[], map[], map[], map[];
      everQueued, confirmed := {}, {};
    }

    /** loadEvolutionAnchorWatch of whatever is stored: refused exactly when the list is too
        long, malformed or repeats an item. */
    method LoadWatch() returns (r: Option<seq<Text>>)
      ensures r == if WatchLoads(Disk()) then Some(Listed(watch)) else None
    {
      hide IsItemText;
      var stored := Listed(watch);
      if JsonSize(stored) > MAX_BYTES || |stored| > MAX_ITEMS {
        return None;
      }
      var seen: set<Text> := {};
      for i := 0 to |stored|
        invariant seen == set j | 0 <= j < i :: stored[j]
        invariant NoDuplicates(stored[..i]) && forall j :: 0 <= j < i ==> IsItemText(stored[j])
      {
        var item := ParseEvolutionAnchorQueueItem(stored[i]);
        if item.None? {
          SpellsNothing(stored[i]);
          return None;
        }
        SpelledAnchored(stored[i], item.value, {});
        if stored[i] in seen {
          return None;
        }
        seen := seen + {stored[i]};
      }
      assert stored[..|stored|] == stored;
      return Some(stored);
    }

    /** reconcileSubmittedEvolutionAnchorWatch. order is the receipt key scan, look what the
        chain shows for each. On success the watch list is exactly the receipts that are
        not confirmed. */
    method Reconcile(order: seq<Text>, look: nat -> Sight, write: Write) returns (ok: bool)
      requires Valid()
      requires NoDuplicates(order) && forall k :: k in order <==> k in receipts
      modifies this`watch, this`confirmed
      ensures Valid()
      ensures ok ==> Listed(watch) == Unconfirmed(order, look, |order|)
      ensures Listed(watch) == Listed(old(watch)) || Listed(watch) == Unconfirmed(order, look, |order|)
      ensures || confirmed == old(confirmed)
              || confirmed == old(confirmed) + set j | 0 <= j < |order| && look(j).what.Confirmed? :: order[j]
      ensures !ok && write.Lands? ==>
                || |order| > MAX_RECEIPT_SCAN
                || |Unconfirmed(order, look, |order|)| > MAX_ITEMS
                || exists i :: 0 <= i < |order| && look(i).what.Confirmed? && !look(i).payloadMatches
    {
      hide Safe, Unconfirmed, AllCanonical, NoDuplicates;
      WatchAlwaysLoads(Disk(), everQueued, confirmed);
      var existing := LoadWatch();
      if existing.None? {
        assert false;
        return false;
      }
      var desired;
      ghost var seen;
      desired, seen := ScanReceipts(order, look);
      if desired.None? {
        return false;
      }
      ScanDesired(Disk(), order, look, everQueued, confirmed);
      BytesNeverBite(desired.value);
      if JsonSize(desired.value) > MAX_BYTES {
        assert false;
        return false;
      }
      WatchKeepsSafe(Disk(), desired.value, everQueued, confirmed, seen);
      MoreConfirmed(Disk(), everQueued, confirmed, seen);
      confirmed := confirmed + seen;
      if desired.value == existing.value {
        return true;
      }
      if Happens(write) {
        watch := Some(desired.value);
      }
      return write.Lands?;
    }

    /** The receipt scan; seen collects the confirmed ones it passed over. */
    method ScanReceipts(order: seq<Text>, look: nat -> Sight) returns (desired: Option<seq<Text>>, ghost seen: set<Text>)
      requires Valid()
      requires NoDuplicates(order) && forall k :: k in order <==> k in receipts
      ensures desired.Some? ==> desired.value == Unconfirmed(order, look, |order|) && |desired.value| <= MAX_ITEMS
      ensures desired.Some? ==> seen == set j | 0 <= j < |order| && look(j).what.Confirmed? :: order[j]
      ensures desired.None? ==>
                || |order| > MAX_RECEIPT_SCAN
                || |Unconfirmed(order, look, |order|)| > MAX_ITEMS
                || exists i :: 0 <= i < |order| && look(i).what.Confirmed? && !look(i).payloadMatches
    {
      hide Safe, IsCanonicalText, Spells, Render, NoDuplicates, IdentityOf, IsItemText;
      seen := {};
      if |order| > MAX_RECEIPT_SCAN {
        return None, seen;
      }
      var out: seq<Text> := [];
      for i := 0 to |order|
        invariant out == Unconfirmed(order, look, i) && |out| <= MAX_ITEMS
        invariant seen == set j | 0 <= j < i && look(j).what.Confirmed? :: order[j]
      {
        var k := order[i];
        assert k in receipts;
        ReceiptIsCanonical(Disk(), everQueued, confirmed, k);
        var identity := WatchedIdentity(k);
        if identity.None? {
          assert false;
          return None, seen;
        }
        var sight := look(i);
        if sight.what.Confirmed? {
          if !sight.payloadMatches {
            return None, seen;
          }
          seen := seen + {k};
          continue;
        }
        if |out| >= MAX_ITEMS {
          LongerUnconfirmed(order, look, i + 1);
          return None, seen;
        }
        out := out + [k];
      }
      return Some(out), seen;
    }

    /** processSubmittedEvolutionAnchorWatch. sent lists the transactions rebroadcast:
        always the exact prepared one that the receipt names. */
    method WatchPass(look: nat -> Sight, decodes: nat -> bool, write: Write) returns (ghost sent: seq<(Text, Text)>)
      requires Valid()
      modifies this`watch, this`confirmed
      ensures Valid()
      ensures forall i :: 0 <= i < |sent| ==>
                var (k, txid) := sent[i];
                k in receipts && receipts[k].txid == txid && k in prepared && prepared[k].txid == txid
      ensures Names(sent) == Resendable(old(Listed(watch)), look, decodes, MAX_PER_PASS)
      ensures forall k :: k in Listed(watch)
                <==> k in old(Listed(watch)) && !(Happens(write) && k in Sure(old(Listed(watch)), look, MAX_PER_PASS))
      ensures confirmed == old(confirmed) + Sure(old(Listed(watch)), look, MAX_PER_PASS)
    {
      hide Safe, AllCanonical, NoDuplicates, JsonSize, ShortItems;
      sent := [];
      WatchAlwaysLoads(Disk(), everQueued, confirmed);
      var loaded := LoadWatch();
      NothingWatched(look, decodes);
      WatchedFirst(Listed(watch), look, decodes);
      hide Sure, Resendable, Names;
      if loaded.None? || loaded.value == [] {
        return;
      }
      var nextWatch;
      ghost var seen;
      nextWatch, seen, sent := WalkWatch(loaded.value, look, decodes);
      if nextWatch == loaded.value {
        return;
      }
      CanonicalIsShortSeq(nextWatch);
      BytesNeverBite(nextWatch);
      if |nextWatch| > MAX_ITEMS || JsonSize(nextWatch) > MAX_BYTES {
        assert false;
        return;
      }
      WatchKeepsSafe(Disk(), nextWatch, everQueued, confirmed, seen);
      MoreConfirmed(Disk(), everQueued, confirmed, seen);
      confirmed := confirmed + seen;
      if Happens(write) {
        watch := Some(nextWatch);
      }
    }

    /** The watched item's epoch and receipt, read back. */
    method WatchedIdentity(k: Text) returns (r: Option<Identity>)
      requires Valid() && k in receipts && IsCanonicalText(k)
      ensures r.Some? && r.value.txid == receipts[k].txid && k in prepared && prepared[k].txid == r.value.txid
    {
      hide Safe, IsCanonicalText, Spells, Render, IdentityOf, IsItemText, IsLowerHexExact;
      CanonicalSpells(k);
      ReceiptsIdentify(Disk(), everQueued, confirmed, k);
      var item := ParseEvolutionAnchorQueueItem(k);
      if item.None? {
        assert false;
        return None;
      }
      CanonicalParses(k, item.value);
      r := Identified(Render(item.value));
    }

    /** The watch loop: it ends because each turn shrinks the list or moves the cursor. */
    method WalkWatch(start: seq<Text>, look: nat -> Sight, decodes: nat -> bool)
      returns (nextWatch: seq<Text>, ghost seen: set<Text>, ghost sent: seq<(Text, Text)>)
      requires Valid() && start == Listed(watch)
      ensures |nextWatch| <= |start| <= MAX_ITEMS && AllCanonical(nextWatch) && NoDuplicates(nextWatch)
      ensures forall k :: k in nextWatch ==> k in receipts
      ensures forall k :: k in nextWatch <==> k in start && k !in seen
      ensures seen == Sure(start, look, MAX_PER_PASS)
      ensures forall i :: 0 <= i < |sent| ==>
                var (k, txid) := sent[i];
                k in receipts && receipts[k].txid == txid && k in prepared && prepared[k].txid == txid
      ensures Names(sent) == Resendable(start, look, decodes, MAX_PER_PASS)
    {
      hide Safe, Walked, AllCanonical, NoDuplicates, IsCanonicalText, IdentityOf, Sure, Resendable, Names;
      WatchFacts(Disk(), everQueued, confirmed);
      WalkedNothing(Disk(), start, look, decodes);
      nextWatch, seen, sent := start, {}, [];
      var processed, cursor := 0, 0;
      while cursor < |nextWatch| && processed < MAX_PER_PASS
        invariant cursor <= |nextWatch| && processed <= MAX_PER_PASS
        invariant Walked(Disk(), start, look, decodes, processed, cursor, nextWatch, seen, sent)
        decreases |nextWatch| - cursor
      {
        var k := nextWatch[cursor];
        WalkedAt(Disk(), start, look, decodes, processed, cursor, nextWatch, seen, sent);
        var identity := WatchedIdentity(k);
        if identity.None? {
          assert false;
          return;
        }
        var sight := look(processed);
        if sight.what.Confirmed? && sight.payloadMatches {
          WalkedDrop(Disk(), start, look, decodes, processed, cursor, nextWatch, seen, sent);
          nextWatch := nextWatch[..cursor] + nextWatch[cursor + 1..];
          seen := seen + {k};
        } else {
          WalkedStay(Disk(), start, look, decodes, processed, cursor, nextWatch, seen, sent);
          if sight.what.Missing? && k in prepared && prepared[k].txid == identity.value.txid && decodes(processed) {
            sent := sent + [(k, identity.value.txid)];
          }
          cursor := cursor + 1;
        }
        processed := processed + 1;
      }
      WalkedAll(Disk(), start, look, decodes, processed, cursor, nextWatch, seen, sent);
    }

    // ---- the queue pass ----

    /** Handing a transaction to the mempool. Its precondition is the first phase of the
        protocol: the exact transaction is already durable for this item. */
    method Submit(k: Text, txid: Text, a: Attempt) returns (known: bool)
      requires k in prepared && prepared[k].txid == txid
      ensures known <==> a.found || a.admission.Added? || (a.admission.Duplicate? && a.duplicateFound)
    {
      if a.found || a.admission.Added? {
        return true;
      }
      return a.admission.Duplicate? && a.duplicateFound;
    }

    /** Persist a wallet-built transaction for an item, when it fits. */
    method Persist(k: Text, built: Built, w: Write) returns (r: Step)
      requires Valid() && k in epochs && k !in receipts
      modifies this`prepared
      ensures Valid()
      ensures r.Have? ==> built.Some? && k in prepared
                          && prepared[k] == Prepared(r.txid, built.value.1, epochs[k].newHash, epochs[k].hash)
      ensures r.Have? <==> built.Some? && 0 < |built.value.1| <= MAX_TX_HEX && w.Lands?
      ensures r.Have? ==> r.txid == built.value.0
      ensures r.Die? ==> Crashes(w)
      ensures prepared == old(prepared) || (built.Some? && Happens(w) && k in prepared && prepared == old(prepared)[k := prepared[k]])
    {
      hide Safe;
      if built.None? || |built.value.1| == 0 || |built.value.1| > MAX_TX_HEX {
        return Retain;
      }
      var p := Prepared(built.value.0, built.value.1, epochs[k].newHash, epochs[k].hash);
      if Happens(w) {
        PreparedKeepsSafe(Disk(), k, p, everQueued, confirmed);
        prepared := prepared[k := p];
      }
      if Crashes(w) {
        return Die;
      }
      if !w.Lands? {
        return Retain;
      }
      return Have(p.txid);
    }

    /** From an item with a valid record to a transaction known to the chain or mempool. */
    method Obtain(k: Text, a: Attempt) returns (r: Step)
      requires Valid() && k in epochs
      modifies this`prepared
      ensures Valid()
      ensures r.Have? ==> k in prepared && prepared[k].txid == r.txid
                          && prepared[k].newHash == epochs[k].newHash && prepared[k].recordHash == epochs[k].hash
      ensures r.Have? ==> MayReceipt(StoryOf(old(Disk()), k), a, r.txid)
      ensures forall txid :: MayReceipt(StoryOf(old(Disk()), k), a, txid) ==> r == Have(txid)
      ensures r.Die? ==> !Survives(a)
      ensures forall x :: x != k ==> StoryOf(Disk(), x) == StoryOf(old(Disk()), x)
      ensures k in old(prepared) && prepared != old(prepared) ==>
                k !in receipts && (a.rescue.Replaced? || (!Known(a) && a.fundingGone))
    {
      hide Safe, IsLowerHexExact;
      if k in anchorTx {
        AnchoredFacts(Disk(), everQueued, confirmed, k);
        if !IsLowerHexExact(anchorTx[k], 64) {
          assert false;
          return Retain;
        }
        if a.existingFound {
          return Have(anchorTx[k]);
        }
      }
      AnchoredOnly(Disk(), everQueued, confirmed, k);
      var loaded := k in prepared;
      var txid: Text := [];
      if loaded {
        if a.rescue.Retained? {
          return Retain;
        }
        if a.rescue.Replaced? {
          r := Retain;
          if k !in anchorTx && k !in receipts {
            r := Persist(k, Some((a.rescue.txid, a.rescue.txHex)), a.replaceWrite);
          }
          return if r.Die? then Die else Retain;
        }
        var p := prepared[k];
        if p.recordHash != epochs[k].hash || p.newHash != epochs[k].newHash || !IsLowerHexExact(p.txid, 64)
           || |p.txHex| == 0 || |p.txHex| > MAX_TX_HEX || |p.txHex| % 2 != 0 || !a.decodes {
          return Retain;
        }
        txid := p.txid;
      } else {
        r := Persist(k, a.built, a.prepareWrite);
        if !r.Have? {
          return r;
        }
        txid := r.txid;
      }
      var known := Submit(k, txid, a);
      if known {
        return Have(txid);
      }
      if loaded && a.fundingGone && k !in anchorTx && k !in receipts {
        r := Persist(k, a.replacement, a.replaceWrite);
        return if r.Die? then Die else Retain;
      }
      return Retain;
    }

    /** The watch list after the batch, unless it is full. */
    method WatchAfter(k: Text, isConfirmed: bool) returns (r: Option<seq<Text>>)
      requires Valid() && IsCanonicalText(k)
      ensures r.Some? ==> r.value == Without(Listed(watch), k) + (if isConfirmed then [] else [k])
      ensures r.Some? ==> isConfirmed || |Without(Listed(watch), k)| < MAX_ITEMS
      ensures r.None? ==> !isConfirmed && |Without(Listed(watch), k)| >= MAX_ITEMS
    {
      hide Safe, IsCanonicalText, Without, AllCanonical, NoDuplicates;
      WatchAlwaysLoads(Disk(), everQueued, confirmed);
      var loaded := LoadWatch();
      if loaded.None? {
        assert false;
        return None;
      }
      WatchFacts(Disk(), everQueued, confirmed);
      WithoutKeeps(Listed(watch), k);
      var next := Without(loaded.value, k);
      if !isConfirmed {
        if |next| >= MAX_ITEMS {
          return None;
        }
        CanonicalOne(k);
        CanonicalAppend(next, [k]);
        next := next + [k];
      }
      CanonicalIsShortSeq(next);
      BytesNeverBite(next);
      if JsonSize(next) > MAX_BYTES {
        assert false;
        return None;
      }
      return Some(next);
    }

    /** The atomic batch of receipt, queue and watch, as far as the disk lets it. */
    method WriteBatch(k: Text, txid: Text, nextQueue: seq<Text>, nextWatch: seq<Text>, isConfirmed: bool, w: Write)
      requires Valid() && k in epochs && CommitAllowed(Disk(), k, txid, epochs[k].newHash, epochs[k].hash)
      requires nextQueue == Without(Listed(queue), k)
      requires nextWatch == Without(Listed(watch), k) + (if isConfirmed then [] else [k])
      requires isConfirmed || |Without(Listed(watch), k)| < MAX_ITEMS
      modifies this`anchorTx, this`receipts, this`queue, this`watch, this`confirmed
      ensures Valid()
      ensures Disk() == if Happens(w) then Committed(old(Disk()), k, txid, nextQueue, nextWatch, epochs[k].newHash, epochs[k].hash)
                        else old(Disk())
      ensures confirmed == old(confirmed) + (if Happens(w) && isConfirmed then {k} else {})
    {
      hide Safe, CommitAllowed, Without;
      if Happens(w) {
        var record := epochs[k];
        CommitKeepsSafe(Disk(), k, txid, record.newHash, record.hash, isConfirmed, everQueued, confirmed);
        anchorTx, receipts := anchorTx[k := txid], receipts[k := Receipt(txid, record.newHash, record.hash)];
        queue, watch := Some(nextQueue), Some(nextWatch);
        if isConfirmed {
          confirmed := confirmed + {k};
        }
      }
    }

    /** The second phase of one item: the observed transaction's receipt is committed
        together with the queue and watch lists it implies. */
    method CommitItem(k: Text, q: seq<Text>, txid: Text, a: Attempt) returns (r: Step)
      requires Valid() && q == Listed(queue) && k in q && k in epochs && epochs[k].valid
      requires k in prepared && prepared[k].txid == txid
      requires prepared[k].newHash == epochs[k].newHash && prepared[k].recordHash == epochs[k].hash
      modifies this`anchorTx, this`receipts, this`queue, this`watch, this`confirmed
      ensures Valid()
      ensures r.Have? <==> Receipts(a, txid) && (a.sight.what.Confirmed? || |Without(old(Listed(watch)), k)| < MAX_ITEMS)
      ensures r.Have? ==> r.txid == txid && Disk() == Receipted(old(Disk()), k, txid, a.sight.what.Confirmed?)
      ensures r.Retain? ==> Disk() == old(Disk())
      ensures r.Die? ==> !Survives(a)
      ensures || Disk() == old(Disk())
              || (Disk() == Receipted(old(Disk()), k, txid, a.sight.what.Confirmed?) && Happens(a.commitWrite)
                  && IsLowerHexExact(txid, 64) && !a.sight.what.Missing? && a.sight.payloadMatches)
      ensures ReceiptsKept(old(receipts), receipts)
      ensures confirmed == old(confirmed)
           || (confirmed == old(confirmed) + {k} && a.sight.what.Confirmed? && a.sight.payloadMatches)
    {
      hide Safe, ReceiptsKept, IsLowerHexExact, IsCanonicalText, Without, AllCanonical, NoDuplicates, CountFor, JsonSize, ShortItems,
           CommitAllowed, Matches;
      QueueFacts(Disk(), everQueued, confirmed, k);
      SameReceipt(Disk(), everQueued, confirmed, k);
      NothingWritten(receipts);
      KeptBySame(receipts, k, Receipt(txid, epochs[k].newHash, epochs[k].hash));
      CommitIsAllowed(Disk(), k, txid);
      var sight := if IsLowerHexExact(txid, 64) then a.sight else Sight(Missing, false);
      if sight.what.Missing? || !sight.payloadMatches {
        return Retain;
      }
      var nextQueue := Without(q, k);
      QueueFits(q, k);
      if |nextQueue| > MAX_ITEMS || JsonSize(nextQueue) > MAX_BYTES {
        assert false;
        return Die;
      }
      var nextWatch := WatchAfter(k, sight.what.Confirmed?);
      if nextWatch.None? {
        return Retain;
      }
      WriteBatch(k, txid, nextQueue, nextWatch.value, sight.what.Confirmed?, a.commitWrite);
      if a.commitWrite.Fails? {
        return Retain;
      }
      return if a.commitWrite.Lands? then Have(txid) else Die;
    }

    /** Both phases of one item whose record is valid. */
    method Settle(k: Text, q: seq<Text>, a: Attempt) returns (r: Step)
      requires Valid() && q == Listed(queue) && k in q && k in epochs && epochs[k].valid
      modifies this`prepared, this`anchorTx, this`receipts, this`queue, this`watch, this`confirmed
      ensures Valid()
      ensures TurnDoes(old(Disk()), Disk(), k, a, old(confirmed), confirmed, r)
    {
      hide Safe, IsCanonicalText, Without, MayReceipt, Survives, IsLowerHexExact, ReceiptsKept, Known;
      NothingWritten(receipts);
      r := Obtain(k, a);
      if r.Have? {
        r := CommitItem(k, q, r.txid, a);
      }
    }

    /** One turn of the queue loop on one item. */
    method Turn(text: Text, q: seq<Text>, a: Attempt) returns (r: Step)
      requires Valid() && q == Listed(queue) && text in q
      modifies this`prepared, this`anchorTx, this`receipts, this`queue, this`watch, this`confirmed
      ensures Valid()
      ensures TurnDoes(old(Disk()), Disk(), text, a, old(confirmed), confirmed, r)
    {
      hide Safe, IsCanonicalText, Spells, Render, IsItemText, AllCanonical, Without, MayReceipt, Survives, IsLowerHexExact,
           ReceiptsKept, StoryOf, Receipts;
      QueueFacts(Disk(), everQueued, confirmed, text);
      CanonicalSpells(text);
      NothingWritten(receipts);
      var item := ParseEvolutionAnchorQueueItem(text);
      if item.None? {
        assert false;
        return Die;
      }
      CanonicalParses(text, item.value);
      var k := Render(item.value);
      if k !in epochs || !epochs[k].valid {
        return Retain;
      }
      r := Settle(k, q, a);
    }

    /** processTokenEvolutionAnchorQueue after reconciliation and the watch pass. The
        process may also die after any number of turns; the loop itself ends because each
        turn shrinks the queue or moves the cursor. */
    method QueuePass(attempts: nat -> Attempt, turns: nat)
      requires Valid()
      modifies this`prepared, this`anchorTx, this`receipts, this`queue, this`watch, this`confirmed
      ensures Valid()
      ensures forall k :: k in Listed(queue) ==> k in old(Listed(queue))
      ensures forall k :: k in old(Listed(queue)) && k !in Listed(queue) ==>
                k in receipts && k in anchorTx && anchorTx[k] == receipts[k].txid
      ensures ReceiptsKept(old(receipts), receipts)
      ensures forall n: nat :: n <= Allowance(turns) && (n == 0 || AllSurvive(attempts, n - 1)) ==>
                Gained(old(Disk()), attempts, n, receipts, Listed(queue))
      ensures Evidenced(old(Disk()), attempts, Allowance(turns), receipts.Keys)
      ensures SeenConfirmed(old(Listed(queue)), attempts, Allowance(turns), old(confirmed), confirmed)
    {
      hide Safe, NoDuplicates, AllCanonical, Without, JsonSize, ShortItems, CountFor, StoryOf, TurnDoes, Untouched;
      hide Gained, Evidenced, SeenConfirmed, AllSurvive, Earned, Shown, ReceiptsKept;
      QueueShape(Disk(), everQueued, confirmed);
      ghost var was, start, seen := Disk(), Listed(queue), confirmed;
      NoTurns(was, attempts, confirmed);
      if queue.None? {
        PassEnds(was, attempts, turns, 0, false, was, seen, seen);
        return;
      }
      var q := Listed(queue);
      CanonicalIsShortSeq(q);
      BytesNeverBite(q);
      if JsonSize(q) > MAX_BYTES || |q| > MAX_ITEMS {
        assert false;
        return;
      }
      hide InPass;
      ghost var turn, died := Drain(q, attempts, turns);
      PassEnds(was, attempts, turns, turn, died, Disk(), seen, confirmed);
      PassKept(was, attempts, turn, Disk(), seen, confirmed);
      ReceiptedAll(Disk(), everQueued, confirmed, start);
    }

    /** Turn n of a pass that began with was. */
    method NextTurn(text: Text, q: seq<Text>, attempts: nat -> Attempt, n: nat, ghost was: Durable, ghost seen: set<Text>)
      returns (r: Step)
      requires Valid() && q == Listed(queue) && text in q
      requires n < |Listed(was.queue)| && NoDuplicates(Listed(was.queue)) && text == Listed(was.queue)[n]
      requires InPass(was, attempts, n, Disk(), seen, confirmed)
      modifies this`prepared, this`anchorTx, this`receipts, this`queue, this`watch, this`confirmed
      ensures Valid() && InPass(was, attempts, n + 1, Disk(), seen, confirmed)
      ensures r.Die? ==> !Survives(attempts(n))
      ensures r.Have? ==> Listed(queue) == Without(q, text)
      ensures r.Retain? ==> Listed(queue) == q
    {
      hide Safe, NoDuplicates, Without, TurnDoes, Survives, InPass;
      ghost var d, before := Disk(), confirmed;
      r := Turn(text, q, attempts(n));
      InPassStep(was, attempts, n, d, Disk(), seen, before, confirmed, r);
      TurnEnds(d, Disk(), text, attempts(n), before, confirmed, r);
    }

    /** The queue loop: it stops early only when a turn does not survive. */
    method Drain(start: seq<Text>, attempts: nat -> Attempt, turns: nat) returns (ghost turn: nat, ghost died: bool)
      requires Valid() && start == Listed(queue)
      modifies this`prepared, this`anchorTx, this`receipts, this`queue, this`watch, this`confirmed
      ensures Valid()
      ensures turn <= Allowance(turns)
      ensures InPass(old(Disk()), attempts, turn, Disk(), old(confirmed), confirmed)
      ensures died ==> turn > 0 && !Survives(attempts(turn - 1))
      ensures !died ==> turn >= |start| || turn == Allowance(turns)
    {
      hide Safe, NoDuplicates, AllCanonical, Without, Survives, InPass, InLine;
      QueueOnce(Disk(), everQueued, confirmed);
      NoTurns(Disk(), attempts, confirmed);
      ghost var was, seen := Disk(), confirmed;
      var q := start;
      var processed, cursor := 0, 0;
      LineStarts(start);
      turn, died := 0, false;
      while cursor < |q| && processed < MAX_PER_PASS && processed < turns
        invariant Valid() && q == Listed(queue) && cursor <= |q| && processed == turn <= Allowance(turns)
        invariant InLine(q, cursor, start, turn)
        invariant InPass(was, attempts, turn, Disk(), seen, confirmed)
        decreases |q| - cursor
      {
        var text := q[cursor];
        QueueOnce(Disk(), everQueued, confirmed);
        LineMoves(q, cursor, start, turn);
        var r := NextTurn(text, q, attempts, processed, was, seen);
        turn, processed := turn + 1, processed + 1;
        if r.Die? {
          return turn, true;
        }
        if r.Have? {
          q := Without(q, text);
        } else {
          cursor := cursor + 1;
        }
      }
      LineEnds(q, cursor, start, turn);
    }

    // ---- enqueueing ----

    method CountToken(q: seq<Text>, token: Text) returns (n: nat)
      requires AllParse(q)
      ensures n == CountFor(q, token)
    {
      hide Spells, IsItemText;
      n := 0;
      for i := 0 to |q|
        invariant n == CountFor(q[..i], token)
      {
        assert q[..i + 1][..i] == q[..i];
        var item := ParseEvolutionAnchorQueueItem(q[i]);
        if item.None? {
          assert false;
          return;
        }
        ForTokenMeans(q[i], item.value, token);
        if item.value.token == token {
          n := n + 1;
        }
      }
      assert q[..|q|] == q;
    }

    /** The compacted queue with the new item, within the per-token and the global bound, of
        whatever is stored. */
    method Admit(item: Item) returns (r: Option<seq<Text>>)
      ensures r == Admitted(Disk(), item)
    {
      hide Render, CountFor, Compacted, IsItemText;
      var compact := CompactQueue(Listed(queue), anchorTx);
      if compact.None? {
        return None;
      }
      var q := compact.value;
      CompactedParses(Listed(queue), anchorTx.Keys);
      var k := Render(item);
      if k in q {
        return Some(q);
      }
      var forToken := CountToken(q, item.token);
      if forToken >= MAX_PER_TOKEN {
        return None;
      }
      if |q| >= MAX_ITEMS {
        return None;
      }
      return Some(q + [k]);
    }

    /** The persistence batch of a new epoch: record and queue together, or neither. An
        acknowledged epoch is queued. */
    method Enqueue(item: Item, record: Record, w: Write) returns (ok: bool)
      requires Valid() && ValidItem(item)
      modifies this`queue, this`epochs, this`everQueued
      ensures Valid()
      ensures ok <==> w.Lands? && EnqueueAllowed(old(Disk()), item)
      ensures ok ==> Render(item) in Listed(queue) && epochs == old(epochs)[Render(item) := record]
      ensures everQueued == old(everQueued) || everQueued == old(everQueued) + {Render(item)}
      ensures ok ==> Render(item) in everQueued
      ensures forall k :: k in old(Listed(queue)) && k !in Listed(queue) ==> k in receipts
    {
      hide Safe, Render, AllCanonical, NoDuplicates, CountFor, JsonSize, ShortItems, Enqueued, Pending, IsTokenId, EnqueueAllowed, Admitted;
      QueueShape(Disk(), everQueued, confirmed);
      AllowedIsNew(Disk(), item);
      var k := Render(item);
      if k in epochs {
        return false;
      }
      CanonicalIsShortSeq(Listed(queue));
      BytesNeverBite(Listed(queue));
      if JsonSize(Listed(queue)) > MAX_BYTES {
        assert false;
        return false;
      }
      AdmittedIsEnqueued(Disk(), item, everQueued, confirmed);
      var q := Admit(item);
      if q.None? {
        return false;
      }
      EnqueuedShape(Disk(), item, everQueued, confirmed);
      PairedKeys(Disk(), everQueued, confirmed);
      if JsonSize(q.value) > MAX_BYTES {
        assert false;
        return false;
      }
      WriteEpoch(item, record, q.value, w);
      return w.Lands?;
    }

    /** Record and queue in one batch, as far as the disk lets it. */
    method WriteEpoch(item: Item, record: Record, q: seq<Text>, w: Write)
      requires Valid() && ValidItem(item) && EnqueueAllowed(Disk(), item) && q == Enqueued(Disk(), item)
      modifies this`queue, this`epochs, this`everQueued
      ensures Valid()
      ensures !Happens(w) ==> Disk() == old(Disk()) && everQueued == old(everQueued)
      ensures Happens(w) ==>
                && Disk() == old(Disk()).(epochs := old(epochs)[Render(item) := record], queue := Some(q))
                && everQueued == old(everQueued) + {Render(item)}
    {
      hide Safe, Render, Enqueued, EnqueueAllowed, IsTokenId;
      if Happens(w) {
        EnqueueKeepsSafe(Disk(), item, record, everQueued, confirmed);
        epochs, queue := epochs[Render(item) := record], Some(q);
        everQueued := everQueued + {Render(item)};
      }
    }

    // ---- over any history ----

    /** The receipt key scan. */
    method ReceiptKeys() returns (order: seq<Text>)
      ensures NoDuplicates(order) && forall k :: k in order <==> k in receipts
    {
      order := [];
      var todo := receipts.Keys;
      while todo != {}
        invariant NoDuplicates(order) && todo <= receipts.Keys
        invariant forall k :: k in order <==> k in receipts && k !in todo
        decreases |todo|
      {
        var k :| k in todo;
        todo := todo - {k};
        order := order + [k];
      }
    }

    /** Enqueues, reconciliations, watch passes and queue passes in any order, each with
        its own failing or crashing writes: nothing acknowledged is ever lost, no receipt
        ever changes, and an item leaves the watch list only once it was seen confirmed. */
    method Live(history: seq<Event>) returns (acknowledged: set<Text>)
      requires Valid() && forall i :: 0 <= i < |history| && history[i].Arrival? ==> ValidItem(history[i].item)
      modifies this
      ensures Valid() && old(everQueued) <= everQueued && acknowledged <= everQueued
      ensures forall k :: k in old(everQueued) + acknowledged ==>
                k in Listed(queue) || (k in receipts && k in anchorTx && anchorTx[k] == receipts[k].txid)
      ensures forall k :: k in receipts ==> k in confirmed || k in Listed(watch)
      ensures ReceiptsKept(old(receipts), receipts)
    {
      hide Safe, NoDuplicates, ValidItem, Render;
      acknowledged := {};
      for i := 0 to |history|
        invariant Valid() && old(everQueued) <= everQueued && acknowledged <= everQueued
        invariant ReceiptsKept(old(receipts), receipts)
      {
        match history[i] {
          case Arrival(item, record, w) =>
            var ok := Enqueue(item, record, w);
            if ok {
              acknowledged := acknowledged + {Render(item)};
            }
          case ReconcileStep(look, w) =>
            var order := ReceiptKeys();
            var _ := Reconcile(order, look, w);
          case WatchStep(look, decodes, w) =>
            ghost var _ := WatchPass(look, decodes, w);
          case QueueStep(attempts, turns) =>
            QueuePass(attempts, turns);
        }
      }
      StillThere(Disk(), everQueued, confirmed);
    }

    method Identified(k: Text) returns (r: Option<Identity>)
      ensures r == IdentityOf(Disk(), k)
    {
      if k !in epochs || !epochs[k].valid || k !in receipts {
        return None;
      }
      var record, receipt := epochs[k], receipts[k];
      if receipt.newHash != record.newHash || receipt.recordHash != record.hash || !IsLowerHexExact(receipt.txid, 64) {
        return None;
      }
      if k !in anchorTx || anchorTx[k] != receipt.txid {
        return None;
      }
      return Some(Identity(receipt.txid, record.newHash, record.opReturn, record.hash));
    }
  }

  /** What the invariant says of everything that was ever queued or receipted. */
  lemma StillThere(d: Durable, everQueued: set<Text>, confirmed: set<Text>)
    requires Safe(d, everQueued, confirmed)
    ensures forall k :: k in everQueued ==>
              k in Listed(d.queue) || (k in d.receipts && k in d.anchorTx && d.anchorTx[k] == d.receipts[k].txid)
    ensures forall k :: k in d.receipts ==> k in confirmed || k in Listed(d.watch)
  {
    hide QueueOk, WatchOk, IsCanonicalText, IsLowerHexExact, Matches;
  }

  /** Committing an item again can only rewrite the receipt it already has. */
  lemma SameReceipt(d: Durable, everQueued: set<Text>, confirmed: set<Text>, k: Text)
    requires Safe(d, everQueued, confirmed) && k in d.epochs
    ensures k in d.receipts && k in d.prepared ==>
              d.receipts[k] == Receipt(d.prepared[k].txid, d.epochs[k].newHash, d.epochs[k].hash)
  {
    hide QueueOk, WatchOk, NothingLost, Watched, IsCanonicalText, IsLowerHexExact;
  }

  // ---- what enqueueing keeps ----

  function Pending(q: seq<Text>, anchored: set<Text>): (r: seq<Text>)
    ensures |r| <= |q|
    ensures forall k :: k in r <==> k in q && k !in anchored
  {
    if q == [] then []
    else
      var front, x := Pending(q[..|q| - 1], anchored), q[|q| - 1];
      assert q == q[..|q| - 1] + [x];
      if x in anchored then front else front + [x]
  }

  lemma {:induction false} PendingKeeps(q: seq<Text>, anchored: set<Text>)
    ensures AllCanonical(q) ==> AllCanonical(Pending(q, anchored))
    ensures NoDuplicates(q) ==> NoDuplicates(Pending(q, anchored))
    ensures forall token :: CountFor(Pending(q, anchored), token) <= CountFor(q, token)
  {
    hide IsCanonicalText, ForToken;
    if q != [] {
      var front, x := q[..|q| - 1], q[|q| - 1];
      PendingKeeps(front, anchored);
      assert NoDuplicates(q) ==> NoDuplicates(front) && x !in front;
      if x !in anchored {
        assert Pending(q, anchored)[..|Pending(q, anchored)| - 1] == Pending(front, anchored);
      }
    }
  }

  lemma QueueParses(q: seq<Text>)
    requires AllCanonical(q)
    ensures AllParse(q)
  {
    hide IsCanonicalText, IsItemText;
    forall i | 0 <= i < |q| ensures IsItemText(q[i]) {
      CanonicalSpells(q[i]);
    }
  }

  lemma PairedKeys(d: Durable, everQueued: set<Text>, confirmed: set<Text>)
    requires Safe(d, everQueued, confirmed)
    ensures d.anchorTx.Keys == d.receipts.Keys
  {
    hide QueueOk, WatchOk, NothingLost, Watched, Backed;
  }

  lemma PendingShape(d: Durable, everQueued: set<Text>, confirmed: set<Text>)
    requires Safe(d, everQueued, confirmed)
    ensures var q := Pending(Listed(d.queue), d.anchorTx.Keys);
            AllCanonical(q) && NoDuplicates(q) && |q| <= MAX_ITEMS && forall token :: CountFor(q, token) <= MAX_PER_TOKEN
  {
    hide WatchOk, ReceiptsBacked, Watched, NothingLost, AllCanonical, NoDuplicates, CountFor, Pending;
    PendingKeeps(Listed(d.queue), d.anchorTx.Keys);
    forall token ensures CountFor(Pending(Listed(d.queue), d.anchorTx.Keys), token) <= MAX_PER_TOKEN {
      assert CountFor(Listed(d.queue), token) <= MAX_PER_TOKEN;
    }
  }

  /** A new epoch, and room for it: for its token and in the whole queue. */
  ghost predicate EnqueueAllowed(d: Durable, item: Item) {
    var q := Pending(Listed(d.queue), d.anchorTx.Keys);
    && Render(item) !in d.epochs
    && (Render(item) in q || (CountFor(q, item.token) < MAX_PER_TOKEN && |q| < MAX_ITEMS))
  }

  lemma AllowedIsNew(d: Durable, item: Item)
    ensures EnqueueAllowed(d, item) ==> Render(item) !in d.epochs
  {
  }

  ghost function Enqueued(d: Durable, item: Item): seq<Text> {
    var q := Pending(Listed(d.queue), d.anchorTx.Keys);
    if Render(item) in q then q else q + [Render(item)]
  }

  /** What an enqueue would store, of whatever is stored now: nothing if any queue text is
      malformed or there is no room. */
  ghost function Admitted(d: Durable, item: Item): Option<seq<Text>> {
    var q, k := Compacted(Listed(d.queue), d.anchorTx.Keys), Render(item);
    if !AllParse(Listed(d.queue)) then None
    else if k in q then Some(q)
    else if CountFor(q, item.token) >= MAX_PER_TOKEN || |q| >= MAX_ITEMS then None
    else Some(q + [k])
  }

  /** Under the invariant that is the enqueue of the protocol. */
  lemma AdmittedIsEnqueued(d: Durable, item: Item, everQueued: set<Text>, confirmed: set<Text>)
    requires Safe(d, everQueued, confirmed)
    ensures Render(item) !in d.epochs ==>
              Admitted(d, item) == if EnqueueAllowed(d, item) then Some(Enqueued(d, item)) else None
  {
    QueueShape(d, everQueued, confirmed);
    hide Safe, Render, AllCanonical, NoDuplicates, CountFor, Pending, Compacted, IsItemText;
    QueueParses(Listed(d.queue));
    CompactedIsPending(Listed(d.queue), d.anchorTx.Keys);
    PendingShape(d, everQueued, confirmed);
  }

  lemma ForTokenMeans(t: Text, i: Item, token: Text)
    requires Spells(t, i)
    ensures ForToken(t, token) <==> i.token == token
  {
    hide Spells;
    if ForToken(t, token) {
      var epoch :| Spells(t, Item(token, epoch));
      SpellsOne(t, i, Item(token, epoch));
    }
    if i.token == token {
      assert Spells(t, Item(token, i.epoch));
    }
  }

  lemma EnqueuedShape(d: Durable, item: Item, everQueued: set<Text>, confirmed: set<Text>)
    requires Safe(d, everQueued, confirmed) && ValidItem(item) && EnqueueAllowed(d, item)
    ensures var q := Enqueued(d, item);
            && AllCanonical(q) && NoDuplicates(q) && |q| <= MAX_ITEMS && (forall token :: CountFor(q, token) <= MAX_PER_TOKEN)
            && JsonSize(q) <= MAX_BYTES
            && forall k :: k in q <==> k == Render(item) || (k in Listed(d.queue) && k !in d.anchorTx)
  {
    hide Safe, Render, Spells, Pending, ForToken, JsonSize, IsTokenId, AllCanonical, NoDuplicates, CountFor;
    var p, k := Pending(Listed(d.queue), d.anchorTx.Keys), Render(item);
    PendingShape(d, everQueued, confirmed);
    if k !in p {
      AppendedShape(p, item);
    }
    CanonicalIsShortSeq(Enqueued(d, item));
    BytesNeverBite(Enqueued(d, item));
  }

  lemma AppendedShape(p: seq<Text>, item: Item)
    requires ValidItem(item) && Render(item) !in p && AllCanonical(p) && NoDuplicates(p) && |p| < MAX_ITEMS
    requires CountFor(p, item.token) < MAX_PER_TOKEN && forall token :: CountFor(p, token) <= MAX_PER_TOKEN
    ensures var q := p + [Render(item)];
            AllCanonical(q) && NoDuplicates(q) && |q| <= MAX_ITEMS && forall token :: CountFor(q, token) <= MAX_PER_TOKEN
  {
    RenderIsSpelled(item);
    hide Render, Spells, ForToken, IsTokenId, AllCanonical;
    var k := Render(item);
    assert IsCanonicalText(k);
    hide IsCanonicalText;
    forall token ensures CountFor(p + [k], token) <= MAX_PER_TOKEN {
      ForTokenMeans(k, item, token);
      assert (p + [k])[..|p|] == p;
    }
    CanonicalOne(k);
    CanonicalAppend(p, [k]);
  }

  /** An epoch that was never stored may be added together with its queue entry: the only
      items that leave the queue here are anchored and receipted. */
  lemma EnqueueKeepsSafe(d: Durable, item: Item, record: Record, everQueued: set<Text>, confirmed: set<Text>)
    requires Safe(d, everQueued, confirmed) && ValidItem(item) && EnqueueAllowed(d, item)
    ensures Safe(d.(epochs := d.epochs[Render(item) := record], queue := Some(Enqueued(d, item))),
                 everQueued + {Render(item)}, confirmed)
  {
    var e := d.(epochs := d.epochs[Render(item) := record], queue := Some(Enqueued(d, item)));
    assert Render(item) !in d.epochs;
    hide Enqueued, AllCanonical, NoDuplicates, CountFor, Render, EnqueueAllowed, ReceiptsBacked, JsonSize;
    EnqueuedShape(d, item, everQueued, confirmed);
    NewEpochBacked(d, Render(item), record, e.queue);
    PairedKeys(d, everQueued, confirmed);
  }

  lemma NewEpochBacked(d: Durable, k: Text, record: Record, queue: Option<seq<Text>>)
    requires ReceiptsBacked(d) && k !in d.epochs
    ensures ReceiptsBacked(d.(epochs := d.epochs[k := record], queue := queue))
  {
    hide IsCanonicalText, IsLowerHexExact;
    var e := d.(epochs := d.epochs[k := record], queue := queue);
    forall j | j in e.receipts ensures Backed(e, j) {
      assert Backed(d, j);
    }
  }

  lemma AnchoredFacts(d: Durable, everQueued: set<Text>, confirmed: set<Text>, k: Text)
    requires Safe(d, everQueued, confirmed) && k in d.anchorTx && k in d.epochs
    ensures k in d.prepared && d.prepared[k].txid == d.anchorTx[k]
    ensures d.prepared[k].newHash == d.epochs[k].newHash && d.prepared[k].recordHash == d.epochs[k].hash
    ensures IsLowerHexExact(d.anchorTx[k], 64)
  {
    hide QueueOk, WatchOk, NothingLost, Watched, IsCanonicalText, IsLowerHexExact;
    assert k in d.receipts;
    assert Backed(d, k);
  }

  lemma AnchoredOnly(d: Durable, everQueued: set<Text>, confirmed: set<Text>, k: Text)
    requires Safe(d, everQueued, confirmed)
    ensures k in d.anchorTx <==> k in d.receipts
    ensures k in d.receipts ==> k in d.prepared
  {
    hide QueueOk, WatchOk, NothingLost, Watched, IsCanonicalText, IsLowerHexExact;
    if k in d.receipts {
      assert Backed(d, k);
    }
  }

  lemma ReceiptFacts(d: Durable, everQueued: set<Text>, confirmed: set<Text>, k: Text)
    requires Safe(d, everQueued, confirmed) && k in everQueued && k !in Listed(d.queue)
    ensures k in d.receipts && k in d.anchorTx && d.anchorTx[k] == d.receipts[k].txid
  {
    hide QueueOk, WatchOk, Watched, IsCanonicalText, IsLowerHexExact;
    assert Backed(d, k);
  }

  lemma QueueShape(d: Durable, everQueued: set<Text>, confirmed: set<Text>)
    requires Safe(d, everQueued, confirmed)
    ensures AllCanonical(Listed(d.queue)) && |Listed(d.queue)| <= MAX_ITEMS && NoDuplicates(Listed(d.queue))
    ensures forall k :: k in Listed(d.queue) ==> k in everQueued
  {
    hide WatchOk, ReceiptsBacked, Watched, AllCanonical, NoDuplicates, CountFor;
  }

  lemma QueueFacts(d: Durable, everQueued: set<Text>, confirmed: set<Text>, k: Text)
    requires Safe(d, everQueued, confirmed) && k in Listed(d.queue)
    ensures IsCanonicalText(k) && k in everQueued
    ensures AllCanonical(Listed(d.queue)) && |Listed(d.queue)| <= MAX_ITEMS
  {
    hide IsCanonicalText;
    QueueShape(d, everQueued, confirmed);
  }

  lemma QueueFits(q: seq<Text>, k: Text)
    requires AllCanonical(q) && |q| <= MAX_ITEMS
    ensures |Without(q, k)| <= MAX_ITEMS && JsonSize(Without(q, k)) <= MAX_BYTES
  {
    hide AllCanonical, NoDuplicates, CountFor, Without, JsonSize;
    WithoutKeeps(q, k);
    CanonicalIsShortSeq(Without(q, k));
    BytesNeverBite(Without(q, k));
  }

  lemma WatchFacts(d: Durable, everQueued: set<Text>, confirmed: set<Text>)
    requires Safe(d, everQueued, confirmed)
    ensures AllCanonical(Listed(d.watch)) && NoDuplicates(Listed(d.watch)) && |Listed(d.watch)| <= MAX_ITEMS
    ensures forall k :: k in Listed(d.watch) ==> k in d.receipts
  {
    hide AllCanonical, NoDuplicates, QueueOk, ReceiptsBacked, NothingLost, Watched;
  }

  /** vector::erase of one position. */
  lemma CutKeeps(s: seq<Text>, i: nat)
    requires i < |s| && AllCanonical(s) && NoDuplicates(s)
    ensures var t := s[..i] + s[i + 1..];
            AllCanonical(t) && NoDuplicates(t) && forall k :: k in t <==> k in s && k != s[i]
  {
    hide IsCanonicalText;
    var t := s[..i] + s[i + 1..];
    assert s == s[..i] + [s[i]] + s[i + 1..];
    forall j | 0 <= j < |t| ensures t[j] == if j < i then s[j] else s[j + 1] {
    }
  }

  lemma ReceiptIsCanonical(d: Durable, everQueued: set<Text>, confirmed: set<Text>, k: Text)
    requires Safe(d, everQueued, confirmed) && k in d.receipts
    ensures IsCanonicalText(k)
  {
    hide IsCanonicalText, QueueOk, WatchOk, NothingLost, Watched, Matches;
    assert Backed(d, k);
  }

  lemma {:induction false} LongerUnconfirmed(order: seq<Text>, look: nat -> Sight, n: nat)
    requires n <= |order|
    ensures |Unconfirmed(order, look, n)| <= |Unconfirmed(order, look, |order|)|
    decreases |order| - n
  {
    if n < |order| {
      LongerUnconfirmed(order, look, n + 1);
    }
  }

  /** The scan result is a well-formed watch list holding every unconfirmed receipt. */
  lemma ScanDesired(d: Durable, order: seq<Text>, look: nat -> Sight, everQueued: set<Text>, confirmed: set<Text>)
    requires Safe(d, everQueued, confirmed)
    requires NoDuplicates(order) && forall k :: k in order <==> k in d.receipts
    ensures var desired := Unconfirmed(order, look, |order|);
            && AllCanonical(desired) && NoDuplicates(desired) && ShortItems(desired)
            && (forall k :: k in desired ==> k in d.receipts)
            && (forall k :: k in d.receipts && k !in desired ==>
                  exists j :: 0 <= j < |order| && look(j).what.Confirmed? && order[j] == k)
  {
    hide Unconfirmed, IsCanonicalText, QueueOk, WatchOk, NothingLost, Watched, ReceiptsBacked, Safe;
    forall i | 0 <= i < |order| ensures IsCanonicalText(order[i]) {
      ReceiptIsCanonical(d, everQueued, confirmed, order[i]);
    }
    UnconfirmedFrom(order, look, |order|);
    CanonicalIsShortSeq(Unconfirmed(order, look, |order|));
    forall k | k in d.receipts && k !in Unconfirmed(order, look, |order|)
      ensures exists j :: 0 <= j < |order| && look(j).what.Confirmed? && order[j] == k
    {
      assert k in order;
      var j :| 0 <= j < |order| && order[j] == k;
      assert look(j).what.Confirmed?;
    }
  }
}
