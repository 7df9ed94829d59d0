/** What falls outside the anchor queue's invariant: enqueues while a pass holds the queue it
    read (src/ai_oracle_service.cpp, lines 2141-2848, against src/token_evolution.cpp, lines
    1129-1430, under different locks), and stores with anchors that have no receipt. */
module AnchorRaces {
  import opened ByteCodec
  import opened Decimals
  import opened AnchorItem
  import opened AnchorQueue

  // ---- compaction of any store ----

  ghost predicate HoldsItem(q: seq<Text>, i: Item) {
    exists t :: t in q && Spells(t, i)
  }

  /** An item keeps a text through compaction exactly when it is not anchored. */
  lemma CompactionKeeps(q: seq<Text>, anchored: set<Text>, i: Item)
    requires HoldsItem(q, i)
    ensures HoldsItem(Compacted(q, anchored), i) <==> Render(i) !in anchored
  {
    hide Spells, Render, Compacted;
    forall t | Spells(t, i) ensures ItemAnchored(t, anchored) <==> Render(i) in anchored {
      SpelledAnchored(t, i, anchored);
    }
    forall t ensures t in Compacted(q, anchored) <==> t in q && !ItemAnchored(t, anchored) {
      CompactedMembers(q, anchored, t);
    }
  }

  /** Over an enqueue of another item, in any store: a queued item is still queued or has a
      receipt exactly when it is not anchored or has a receipt. */
  lemma EnqueueKeepsItem(d: Durable, item: Item, i: Item)
    requires Admitted(d, item).Some? && ValidItem(item) && HoldsItem(Listed(d.queue), i) && i != item
    ensures HoldsItem(Admitted(d, item).value, i) || Render(i) in d.receipts
       <==> Render(i) !in d.anchorTx || Render(i) in d.receipts
  {
    RenderIsSpelled(item);
    hide Spells, Render, Compacted, CountFor, IsItemText, IsTokenId;
    CompactionKeeps(Listed(d.queue), d.anchorTx.Keys, i);
    if Spells(Render(item), i) {
      SpellsOne(Render(item), item, i);
    }
    AddedText(Compacted(Listed(d.queue), d.anchorTx.Keys), Render(item), i);
  }

  lemma AddedText(q: seq<Text>, k: Text, i: Item)
    requires !Spells(k, i)
    ensures HoldsItem(q + [k], i) <==> HoldsItem(q, i)
  {
    hide Spells;
    if HoldsItem(q, i) {
      var t :| t in q && Spells(t, i);
      assert t in q + [k];
    }
  }

  function Zeros(n: nat): (t: Text)
    ensures |t| == n && forall i :: 0 <= i < n ==> t[i] == '0'
  {
    seq(n, _ => '0')
  }

  /** Such a store: an anchor without a receipt, of an item queued with a leading zero. The
      next enqueue leaves the item neither queued nor receipted. */
  lemma ReceiptlessAnchorDropsItem()
    ensures var d := Durable(Some(["0123abcd:07"]), None, map["0123abcd:7" := Zeros(64)], map[], map[], map[]);
            var i := Item("0123abcd", 7);
            && HoldsItem(Listed(d.queue), i) && Admitted(d, Item("0123abcd", 8)).Some?
            && !HoldsItem(Admitted(d, Item("0123abcd", 8)).value, i) && Render(i) !in d.receipts
  {
    var token: Text, text: Text, key: Text := "0123abcd", "0123abcd:07", "0123abcd:7";
    var d := Durable(Some([text]), None, map[key := Zeros(64)], map[], map[], map[]);
    var i := Item(token, 7);
    LeadingZeroSpells();
    assert Decimal(7) == ['7'];
    assert Render(i) == key;
    assert ValidItem(Item(token, 8));
    SpelledAnchored(text, i, d.anchorTx.Keys);
    hide Spells, Render, IsItemText, ItemAnchored, IsTokenId;
    OneText(text, d.anchorTx.Keys);
    NoneForToken(token);
    assert text in Listed(d.queue);
    EnqueueKeepsItem(d, Item(token, 8), i);
  }

  lemma OneText(text: Text, anchored: set<Text>)
    requires IsItemText(text) && ItemAnchored(text, anchored)
    ensures AllParse([text]) && Compacted([text], anchored) == []
  {
    hide IsItemText, ItemAnchored;
    assert [text][..0] == [];
  }

  lemma NoneForToken(token: Text)
    ensures CountFor([], token) == 0
  {
  }

  // ---- a pass and the enqueues around it ----

  /** The disk, and the queue that a running pass holds. */
  datatype Mid = Mid(d: Durable, held: Option<seq<Text>>)

  /** A pass reads the queue, commits items of the queue it holds, and ends; enqueues and
      prepared transactions come in between. */
  datatype MidStep =
    | Read
    | End
    | Arrive(item: Item, record: Record)
    | Prepare(k: Text, p: Prepared)
    | Commit(k: Text, txid: Text, isConfirmed: bool)

  ghost predicate Step(s: Mid, step: MidStep, t: Mid) {
    match step
    case Read => t == Mid(s.d, Some(Listed(s.d.queue)))
    case End => t == Mid(s.d, None)
    case Arrive(item, record) =>
      && ValidItem(item) && Render(item) !in s.d.epochs && Admitted(s.d, item).Some?
      && t == Mid(s.d.(epochs := s.d.epochs[Render(item) := record], queue := Admitted(s.d, item)), s.held)
    case Prepare(k, p) =>
      k !in s.d.receipts && t == Mid(s.d.(prepared := s.d.prepared[k := p]), s.held)
    case Commit(k, txid, isConfirmed) =>
      && s.held.Some? && k in s.held.value && k in s.d.epochs
      && CommitAllowed(s.d, k, txid, s.d.epochs[k].newHash, s.d.epochs[k].hash)
      && (isConfirmed || |Without(Listed(s.d.watch), k)| < MAX_ITEMS)
      && var queue := Without(s.held.value, k);
         var watch := Without(Listed(s.d.watch), k) + (if isConfirmed then [] else [k]);
         t == Mid(Committed(s.d, k, txid, queue, watch, s.d.epochs[k].newHash, s.d.epochs[k].hash), Some(queue))
  }

  ghost predicate Run(s: Mid, steps: seq<MidStep>, t: Mid)
    decreases |steps|
  {
    if steps == [] then s == t else exists m :: Step(s, steps[0], m) && Run(m, steps[1..], t)
  }

  /** What every such history keeps. */
  ghost predicate Sane(s: Mid) {
    && s.d.anchorTx.Keys == s.d.receipts.Keys
    && (forall k :: k in Listed(s.d.queue) || k in s.d.receipts ==> k in s.d.epochs)
    && (s.held.Some? ==> forall k :: k in s.held.value ==> k in s.d.epochs)
  }

  lemma SafeIsSane(d: Durable, everQueued: set<Text>, confirmed: set<Text>)
    requires Safe(d, everQueued, confirmed)
    ensures Sane(Mid(d, None))
  {
    hide QueueOk, WatchOk, NothingLost, Watched, IsCanonicalText, IsLowerHexExact;
    forall k | k in d.receipts ensures k in d.epochs {
      assert Backed(d, k);
    }
  }

  lemma AdmittedMembers(d: Durable, item: Item)
    requires Admitted(d, item).Some?
    ensures Render(item) in Admitted(d, item).value
    ensures forall k :: k in Admitted(d, item).value ==> k in Listed(d.queue) || k == Render(item)
  {
    hide Render, Compacted, CountFor, IsItemText, ItemAnchored;
    var q := Compacted(Listed(d.queue), d.anchorTx.Keys);
    forall k ensures k in q ==> k in Listed(d.queue) {
      CompactedMembers(Listed(d.queue), d.anchorTx.Keys, k);
    }
  }

  /** A rendered item stays queued over an enqueue unless it is anchored. */
  lemma AdmittedKeeps(d: Durable, item: Item, i: Item)
    requires Admitted(d, item).Some? && ValidItem(i) && Render(i) in Listed(d.queue) && Render(i) !in d.anchorTx
    ensures Render(i) in Admitted(d, item).value
  {
    RenderIsSpelled(i);
    hide Spells, Render, Compacted, CountFor, IsItemText, IsTokenId;
    SpelledAnchored(Render(i), i, d.anchorTx.Keys);
    CompactedMembers(Listed(d.queue), d.anchorTx.Keys, Render(i));
  }

  lemma StepSane(s: Mid, step: MidStep, t: Mid)
    requires Sane(s) && Step(s, step, t)
    ensures Sane(t)
  {
    hide Render, Admitted, CommitAllowed, Without, ValidItem;
    if step.Arrive? {
      AdmittedMembers(s.d, step.item);
    }
  }

  lemma {:induction false} RunSane(s: Mid, steps: seq<MidStep>, t: Mid)
    requires Sane(s) && Run(s, steps, t)
    ensures Sane(t)
    decreases |steps|
  {
    hide Sane, Step;
    if steps != [] {
      var m :| Step(s, steps[0], m) && Run(m, steps[1..], t);
      StepSane(s, steps[0], m);
      RunSane(m, steps[1..], t);
    }
  }

  /** Still queued or receipted. */
  predicate Kept(s: Mid, k: Text) {
    k in Listed(s.d.queue) || k in s.d.receipts
  }

  /** A commit comes before the next read of the queue. */
  predicate CommitsUnread(steps: seq<MidStep>) {
    steps != [] && !steps[0].Read? && (steps[0].Commit? || CommitsUnread(steps[1..]))
  }

  // ---- the three fates of an acknowledged item ----

  predicate Unread(s: Mid, k: Text) {
    && k in Listed(s.d.queue) && k in s.d.epochs && k !in s.d.receipts
    && (s.held.Some? ==> k !in s.held.value)
  }

  predicate Seen(s: Mid, k: Text) {
    k in s.d.receipts || (k in Listed(s.d.queue) && (s.held.Some? ==> k in s.held.value))
  }

  predicate Gone(s: Mid, k: Text) {
    && k !in Listed(s.d.queue) && k in s.d.epochs && k !in s.d.receipts
    && (s.held.Some? ==> k !in s.held.value)
  }

  lemma StepFates(s: Mid, step: MidStep, t: Mid, i: Item)
    requires Sane(s) && Step(s, step, t) && ValidItem(i)
    ensures var k := Render(i);
            && (Seen(s, k) ==> Seen(t, k))
            && (Gone(s, k) ==> Gone(t, k))
            && (Unread(s, k) ==> if step.Read? then Seen(t, k) else if step.Commit? then Gone(t, k) else Unread(t, k))
  {
    hide Render, Admitted, CommitAllowed, Without, ValidItem;
    if step.Arrive? {
      AdmittedMembers(s.d, step.item);
      if Render(i) in Listed(s.d.queue) && Render(i) !in s.d.anchorTx {
        AdmittedKeeps(s.d, step.item, i);
      }
    }
  }

  lemma {:induction false} SettledFates(s: Mid, steps: seq<MidStep>, t: Mid, i: Item)
    requires Sane(s) && Run(s, steps, t) && ValidItem(i)
    ensures Seen(s, Render(i)) ==> Seen(t, Render(i))
    ensures Gone(s, Render(i)) ==> Gone(t, Render(i))
    decreases |steps|
  {
    hide Sane, Step, Render, ValidItem, Seen, Gone, Unread;
    if steps != [] {
      var m :| Step(s, steps[0], m) && Run(m, steps[1..], t);
      StepSane(s, steps[0], m);
      StepFates(s, steps[0], m, i);
      SettledFates(m, steps[1..], t, i);
    }
  }

  lemma {:induction false} UnreadFate(s: Mid, steps: seq<MidStep>, t: Mid, i: Item)
    requires Sane(s) && Run(s, steps, t) && ValidItem(i) && Unread(s, Render(i))
    ensures if CommitsUnread(steps) then Gone(t, Render(i)) else Kept(t, Render(i))
    decreases |steps|
  {
    hide Sane, Step, Render, ValidItem;
    if steps != [] {
      var m :| Step(s, steps[0], m) && Run(m, steps[1..], t);
      StepSane(s, steps[0], m);
      StepFates(s, steps[0], m, i);
      if steps[0].Read? || steps[0].Commit? {
        SettledFates(m, steps[1..], t, i);
      } else {
        UnreadFate(m, steps[1..], t, i);
      }
    }
  }

  /** An acknowledged enqueue, at any point of any history of passes and enqueues: however
      the history goes on, the item is kept if and only if no commit comes before the next
      read of the queue. A lost item is in no list, and its epoch is never queued again. */
  lemma AcknowledgedKeptIff(d: Durable, everQueued: set<Text>, confirmed: set<Text>, before: seq<MidStep>, s: Mid,
                            item: Item, record: Record, m: Mid, after: seq<MidStep>, t: Mid)
    requires Safe(d, everQueued, confirmed) && Run(Mid(d, None), before, s)
    requires Step(s, Arrive(item, record), m) && Run(m, after, t)
    ensures Kept(m, Render(item))
    ensures Kept(t, Render(item)) <==> !CommitsUnread(after)
    ensures CommitsUnread(after) ==> Gone(t, Render(item))
  {
    hide Safe, Run, Render, Admitted, CommitsUnread, ValidItem;
    SafeIsSane(d, everQueued, confirmed);
    RunSane(Mid(d, None), before, s);
    StepSane(s, Arrive(item, record), m);
    AdmittedMembers(s.d, item);
    UnreadFate(m, after, t, item);
  }

  /** So the next commit of a pass that read the queue before always loses it. */
  lemma StaleCommitLoses(s: Mid, item: Item, record: Record, m: Mid, k: Text, txid: Text, isConfirmed: bool, t: Mid)
    requires Sane(s) && Step(s, Arrive(item, record), m) && Step(m, Commit(k, txid, isConfirmed), t)
    ensures Kept(m, Render(item)) && !Kept(t, Render(item))
  {
    hide Render, Admitted, CommitAllowed, ValidItem, Without;
    StepSane(s, Arrive(item, record), m);
    AdmittedMembers(s.d, item);
    StepFates(m, Commit(k, txid, isConfirmed), t, item);
  }

  // ---- such a loss ----

  /** One queued item with a valid record and its transaction prepared. */
  ghost function Ready(k: Text, record: Record, txHex: Text): Durable {
    Durable(Some([k]), None, map[], map[], map[k := Prepared(Zeros(64), txHex, record.newHash, record.hash)],
            map[k := record])
  }

  lemma ReadyIsSafe(k: Text, record: Record, txHex: Text)
    requires IsCanonicalText(k) && record.valid
    ensures Safe(Ready(k, record, txHex), {k}, {})
    ensures CommitAllowed(Ready(k, record, txHex), k, Zeros(64), record.newHash, record.hash)
    ensures Compacted([k], {}) == [k] && AllParse([k])
  {
    CanonicalOne(k);
    CanonicalAnchored(k, {});
    CanonicalSpells(k);
    hide IsCanonicalText, AllCanonical, ForToken, IsItemText, ItemAnchored;
    assert [k][..0] == [];
    forall token ensures CountFor([k], token) <= MAX_PER_TOKEN {
      assert CountFor([k][..0], token) == 0;
    }
  }

  /** The pass reads the queue; the token's next epoch is acknowledged; the pass commits its
      one item. The new epoch is lost. */
  lemma MidPassLoss(record: Record, next: Record, txHex: Text) returns (t: Mid)
    requires record.valid
    ensures var k: Text, item := "0123abcd:1", Item("0123abcd", 2);
            var d, steps := Ready(k, record, txHex), [Read, Arrive(item, next), Commit(k, Zeros(64), false)];
            Safe(d, {k}, {}) && Run(Mid(d, None), steps, t) && !Kept(t, Render(item))
  {
    var k: Text, token: Text := "0123abcd:1", "0123abcd";
    var item := Item(token, 2);
    var d := Ready(k, record, txHex);
    assert Decimal(1) == ['1'] && Decimal(2) == ['2'];
    assert Render(Item(token, 1)) == k && Render(item)[9] == '2' && k[9] == '1';
    assert ValidItem(item) && ValidItem(Item(token, 1));
    RenderIsSpelled(Item(token, 1));
    assert IsCanonicalText(k);
    ReadyIsSafe(k, record, txHex);
    t := LossSteps(d, k, item, next, record);
  }

  lemma LossSteps(d: Durable, k: Text, item: Item, next: Record, record: Record) returns (t: Mid)
    requires Safe(d, {k}, {}) && d.queue == Some([k]) && d.watch == None && d.anchorTx == map[] && d.epochs == map[k := record]
    requires ValidItem(item) && Render(item) != k && Compacted([k], {}) == [k] && AllParse([k])
    requires CommitAllowed(d, k, Zeros(64), record.newHash, record.hash)
    ensures Run(Mid(d, None), [Read, Arrive(item, next), Commit(k, Zeros(64), false)], t) && !Kept(t, Render(item))
  {
    hide Safe, Render, ValidItem, Compacted, AllParse, IsCanonicalText, IsLowerHexExact, Zeros;
    var txid := Zeros(64);
    FewForToken(d, {k}, {}, item.token);
    assert d.anchorTx.Keys == {};
    var read := Mid(d, Some([k]));
    var queued := Mid(d.(epochs := d.epochs[Render(item) := next], queue := Admitted(d, item)), Some([k]));
    var queue := Without([k], k);
    t := Mid(Committed(queued.d, k, txid, queue, Without([], k) + [k], record.newHash, record.hash), Some(queue));
    SafeIsSane(d, {k}, {});
    var steps := [Read, Arrive(item, next), Commit(k, txid, false)];
    assert Step(Mid(d, None), Read, read);
    assert Step(read, Arrive(item, next), queued);
    assert Step(queued, Commit(k, txid, false), t);
    StaleCommitLoses(read, item, next, queued, k, txid, false, t);
    RunThree(Mid(d, None), read, queued, t, steps[0], steps[1], steps[2]);
    assert steps == [steps[0], steps[1], steps[2]];
  }

  lemma FewForToken(d: Durable, everQueued: set<Text>, confirmed: set<Text>, token: Text)
    requires Safe(d, everQueued, confirmed) && |Listed(d.queue)| == 1
    ensures CountFor(Listed(d.queue), token) <= 1
  {
    assert CountFor(Listed(d.queue)[..0], token) == 0;
  }

  lemma RunThree(a: Mid, b: Mid, c: Mid, d: Mid, x: MidStep, y: MidStep, z: MidStep)
    requires Step(a, x, b) && Step(b, y, c) && Step(c, z, d)
    ensures Run(a, [x, y, z], d)
  {
    hide Step;
    assert Run(d, [], d);
    assert [z][1..] == [] && [y, z][1..] == [z] && [x, y, z][1..] == [y, z];
    assert Run(c, [z], d);
    assert Run(b, [y, z], d);
  }
}
