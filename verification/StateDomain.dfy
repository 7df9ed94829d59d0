/** The durable form of contract state: src/contract_state_runtime.h, lines 30-233
    (the confirmed-domain loader), and the state phases of applyBlock
    (src/blockchain.cpp, lines 18519-18935). The database is a map of raw keys. */
module StateDomain {
  import opened ByteCodec
  import opened StateLimits
  import opened InitEnvelope
  import opened Lineage
  import InitSchemas

  type Db = map<Text, Text>

  const VOTING_FAMILY: Text := "voting_v1"
  const TOKEN_FAMILY: Text := "token_issuer_v1"
  const KV_FAMILY: Text := ""

  /** A confirmed domain as the loader hands it to execution; the empty family is
      the key/value family, which has no registry entry. */
  datatype Snapshot = Snapshot(
    current: Text, root: Text, ownerHash160: Text, family: Text, state: StateMap, accounted: nat)

  predicate IsLowerHash160(v: Text) {
    |v| == 40 && forall i :: 0 <= i < 40 ==> IsLowerHexDigit(v[i])
  }

  // ---- what is stored for a domain ----

  ghost predicate StoredState(db: Db, root: Text, state: StateMap) {
    && (forall k :: k in state <==> IsLogicalKeyAllowed(k) && BuildContractStateKey(root, k) in db)
    && (forall k :: k in state ==> BytesOf(db[BuildContractStateKey(root, k)]) == state[k])
  }

  ghost predicate IsStateKeyOf(key: Text, root: Text) {
    exists k :: IsLogicalKeyAllowed(k) && key == BuildContractStateKey(root, k)
  }

  ghost predicate Registered(db: Db, s: Snapshot) {
    && IsCanonicalContractOutpoint(s.current) && IsCanonicalContractOutpoint(s.root)
    && BuildContractLineageKey(s.current) in db && db[BuildContractLineageKey(s.current)] == s.root
    && BuildContractLiveKey(s.root) in db && db[BuildContractLiveKey(s.root)] == s.current
    && BuildContractOwnerKey(s.root) in db && db[BuildContractOwnerKey(s.root)] == s.ownerHash160
    && IsLowerHash160(s.ownerHash160)
    && var familyKey := BuildContractFamilyKey(s.root);
       if familyKey in db then s.family == db[familyKey] && (s.family == VOTING_FAMILY || s.family == TOKEN_FAMILY)
       else s.family == KV_FAMILY
  }

  /** The snapshot that loading the live anchor s.current must give. */
  ghost predicate LoadedFrom(db: Db, s: Snapshot) {
    && Registered(db, s)
    && (forall key :: key in db && HasPrefix(key, BuildContractStatePrefix(s.root)) ==> IsStateKeyOf(key, s.root))
    && StoredState(db, s.root, s.state)
    && s.state != map[]
    && WithinLimits(s.state) && s.accounted == TotalBytes(s.state)
  }

  lemma StateKeyParts(root: Text, k: Text)
    requires IsCanonicalContractOutpoint(root) && IsLogicalKeyAllowed(k)
    ensures var key := BuildContractStateKey(root, k);
            && HasPrefix(key, BuildContractStatePrefix(root)) && HasPrefix(key, STATE_PREFIX)
            && key[|BuildContractStatePrefix(root)|..] == HexEncodeLogicalKey(k)
  {
  }

  /** Distinct logical keys, or distinct domains, give distinct durable keys. */
  lemma StateKeyInjective(r: Text, k: Text, s: Text, l: Text)
    requires IsCanonicalContractOutpoint(r) && IsLogicalKeyAllowed(k)
    requires IsCanonicalContractOutpoint(s) && IsLogicalKeyAllowed(l)
    requires BuildContractStateKey(r, k) == BuildContractStateKey(s, l)
    ensures r == s && k == l
  {
    StateKeyParts(r, k);
    StateKeyParts(s, l);
    DomainPrefixesApart(r, s, BuildContractStateKey(r, k));
    HexEncodeInjective(k, l);
  }

  lemma LoadIsUnique(db: Db, s: Snapshot, t: Snapshot)
    requires LoadedFrom(db, s) && LoadedFrom(db, t) && s.current == t.current
    ensures s == t
  {
    assert s.root == t.root;
    assert s.state.Keys == t.state.Keys;
    assert s.state == t.state;
  }

  lemma LoadsStoredState(db: Db, s: Snapshot, root: Text, state: StateMap)
    requires StoredState(db, root, state)
    ensures LoadedFrom(db, s) && s.root == root ==> s.state == state
  {
    assert LoadedFrom(db, s) && s.root == root ==> s.state.Keys == state.Keys;
  }

  // ---- the loader ----

  /** LoadConfirmedStateDomain over a readable database. */
  method LoadConfirmedStateDomain(db: Db, current: Text) returns (r: Option<Snapshot>)
    ensures r.Some? ==> r.value.current == current && LoadedFrom(db, r.value)
    ensures r.None? ==> forall s: Snapshot :: s.current == current ==> !LoadedFrom(db, s)
  {
    if !IsCanonicalContractOutpoint(current) {
      return None;
    }
    var lineageKey := BuildContractLineageKey(current);
    if lineageKey !in db {
      return None;
    }
    var root := db[lineageKey];
    if !IsCanonicalContractOutpoint(root) {
      return None;
    }
    var liveKey, ownerKey := BuildContractLiveKey(root), BuildContractOwnerKey(root);
    if liveKey !in db || db[liveKey] != current {
      return None;
    }
    if ownerKey !in db || !IsLowerHash160(db[ownerKey]) {
      return None;
    }
    var familyKey := BuildContractFamilyKey(root);
    if familyKey in db && db[familyKey] != VOTING_FAMILY && db[familyKey] != TOKEN_FAMILY {
      return None;
    }
    var family := if familyKey in db then db[familyKey] else KV_FAMILY;
    var state := ScanState(db, root);
    if state.None? {
      return None;
    }
    var accounted := MeasureStateBytes(state.value);
    if state.value == map[] || accounted.None? {
      forall s: Snapshot | s.current == current ensures !LoadedFrom(db, s) {
        LoadsStoredState(db, s, root, state.value);
      }
      return None;
    }
    return Some(Snapshot(current, root, db[ownerKey], family, state.value, accounted.value));
  }

  ghost predicate DecodedInto(state: StateMap, root: Text, key: Text) {
    exists k :: k in state && IsLogicalKeyAllowed(k) && key == BuildContractStateKey(root, k)
  }

  ghost predicate ReadFrom(db: Db, root: Text, state: StateMap, done: set<Text>) {
    && (forall k :: k in state ==>
          IsLogicalKeyAllowed(k) && BuildContractStateKey(root, k) in done * db.Keys
          && state[k] == BytesOf(db[BuildContractStateKey(root, k)]))
    && (forall key :: key in done ==> DecodedInto(state, root, key))
  }

  lemma ReadOneMore(db: Db, root: Text, state: StateMap, done: set<Text>, key: Text, k: Text)
    requires IsCanonicalContractOutpoint(root) && IsLogicalKeyAllowed(k)
    requires ReadFrom(db, root, state, done)
    requires key in db && key !in done && key == BuildContractStateKey(root, k)
    ensures k !in state
    ensures ReadFrom(db, root, state[k := BytesOf(db[key])], done + {key})
  {
    var next := state[k := BytesOf(db[key])];
    forall d | d in done + {key} ensures DecodedInto(next, root, d) {
      if d == key {
        assert k in next;
      } else {
        var l :| l in state && IsLogicalKeyAllowed(l) && d == BuildContractStateKey(root, l);
        assert l in next;
      }
    }
  }

  lemma ReadAll(db: Db, root: Text, state: StateMap, under: set<Text>)
    requires IsCanonicalContractOutpoint(root)
    requires under == set key | key in db && HasPrefix(key, BuildContractStatePrefix(root))
    requires ReadFrom(db, root, state, under)
    ensures StoredState(db, root, state)
    ensures forall key :: key in db && HasPrefix(key, BuildContractStatePrefix(root)) ==> IsStateKeyOf(key, root)
  {
    forall k | IsLogicalKeyAllowed(k) && BuildContractStateKey(root, k) in db ensures k in state {
      var key := BuildContractStateKey(root, k);
      StateKeyParts(root, k);
      assert DecodedInto(state, root, key);
      var l :| l in state && IsLogicalKeyAllowed(l) && key == BuildContractStateKey(root, l);
      StateKeyInjective(root, l, root, k);
    }
    forall key | key in db && HasPrefix(key, BuildContractStatePrefix(root)) ensures IsStateKeyOf(key, root) {
      assert DecodedInto(state, root, key);
    }
  }

  lemma OversizedValueNotLoaded(db: Db, root: Text, k: Text)
    requires IsLogicalKeyAllowed(k) && BuildContractStateKey(root, k) in db
    requires !IsValueAllowed(BytesOf(db[BuildContractStateKey(root, k)]))
    ensures forall s: Snapshot :: s.root == root ==> !LoadedFrom(db, s)
  {
  }

  lemma ForeignKeyNotLoaded(db: Db, root: Text, key: Text)
    requires IsCanonicalContractOutpoint(root) && key in db && HasPrefix(key, BuildContractStatePrefix(root))
    requires forall k :: IsLogicalKeyAllowed(k) ==> HexEncodeLogicalKey(k) != key[|BuildContractStatePrefix(root)|..]
    ensures forall s: Snapshot :: s.root == root ==> !LoadedFrom(db, s)
  {
    assert !IsStateKeyOf(key, root) by {
      if IsStateKeyOf(key, root) {
        var k :| IsLogicalKeyAllowed(k) && key == BuildContractStateKey(root, k);
        StateKeyParts(root, k);
      }
    }
  }

  lemma KeyFromHex(root: Text, key: Text, k: Text)
    requires IsCanonicalContractOutpoint(root) && IsLogicalKeyAllowed(k)
    requires HasPrefix(key, BuildContractStatePrefix(root))
    requires HexEncodeLogicalKey(k) == key[|BuildContractStatePrefix(root)|..]
    ensures key == BuildContractStateKey(root, k)
  {
    assert key == BuildContractStatePrefix(root) + HexEncodeLogicalKey(k);
  }

  lemma ReadNothing(db: Db, root: Text)
    ensures ReadFrom(db, root, map[], {})
  {
  }

  /** The prefix scan: every key must be canonical hex, every value short enough. */
  method ScanState(db: Db, root: Text) returns (r: Option<StateMap>)
    requires IsCanonicalContractOutpoint(root)
    ensures r.Some? ==> StoredState(db, root, r.value)
    ensures r.Some? ==>
      forall key :: key in db && HasPrefix(key, BuildContractStatePrefix(root)) ==> IsStateKeyOf(key, root)
    ensures r.None? ==> forall s: Snapshot :: s.root == root ==> !LoadedFrom(db, s)
  {
    hide ReadFrom, LoadedFrom, StoredState, IsStateKeyOf, BuildContractStatePrefix, BuildContractStateKey, HexEncodeLogicalKey,
      IsLogicalKeyAllowed, IsValueAllowed, BytesOf, IsCanonicalContractOutpoint;
    var prefix := BuildContractStatePrefix(root);
    var under := set key | key in db && HasPrefix(key, prefix);
    var todo := under;
    var state: StateMap := map[];
    assert under - todo == {};
    ReadNothing(db, root);
    while todo != {}
      invariant todo <= under
      invariant ReadFrom(db, root, state, under - todo)
      decreases |todo|
    {
      var key :| key in todo;
      var encoded := key[|prefix|..];
      var logical := DecodeCanonicalLogicalKeyHex(encoded);
      if logical.None? {
        ForeignKeyNotLoaded(db, root, key);
        return None;
      }
      var k := logical.value;
      KeyFromHex(root, key, k);
      var value := BytesOf(db[key]);
      if !IsValueAllowed(value) {
        OversizedValueNotLoaded(db, root, k);
        return None;
      }
      ReadOneMore(db, root, state, under - todo, key, k);
      if k in state {
        return None;
      }
      state := state[k := value];
      assert under - (todo - {key}) == under - todo + {key};
      todo := todo - {key};
    }
    assert under - todo == under;
    ReadAll(db, root, state, under);
    return Some(state);
  }

  // ---- commits ----

  ghost predicate SameAt(db: Db, next: Db, key: Text) {
    (key in next <==> key in db) && (key in db ==> next[key] == db[key])
  }

  ghost predicate RecordOf(key: Text, root: Text, keys: set<Text>) {
    exists k :: k in keys && IsLogicalKeyAllowed(k) && key == BuildContractStateKey(root, k)
  }

  /** next holds the entries of state under keys, and is db everywhere else except
      possibly at the registry keys. */
  ghost predicate Wrote(db: Db, next: Db, root: Text, state: StateMap, keys: set<Text>, registry: set<Text>) {
    && (forall k :: k in keys ==> IsLogicalKeyAllowed(k) && k in state)
    && (forall k :: k in keys ==>
          BuildContractStateKey(root, k) in next && next[BuildContractStateKey(root, k)] == TextOf(state[k]))
    && (forall key :: key !in registry && !RecordOf(key, root, keys) ==> SameAt(db, next, key))
  }

  /** The entries a call created or gave a new value. */
  function ChangedKeys(before: StateMap, after: StateMap): set<Text> {
    set k | k in after && !(k in before && before[k] == after[k])
  }

  lemma NoRecordOfFewer(key: Text, root: Text, keys: set<Text>, k: Text)
    requires !RecordOf(key, root, keys + {k})
    ensures !RecordOf(key, root, keys)
  {
    forall l | l in keys ensures l in keys + {k} {
    }
  }

  lemma WroteOneMore(db: Db, next: Db, root: Text, state: StateMap, keys: set<Text>, k: Text)
    requires IsCanonicalContractOutpoint(root)
    requires Wrote(db, next, root, state, keys, {})
    requires k in state && IsLogicalKeyAllowed(k)
    ensures Wrote(db, next[BuildContractStateKey(root, k) := TextOf(state[k])], root, state, keys + {k}, {})
  {
    hide BuildContractStateKey, BuildContractLineageKey, BuildContractLiveKey, BuildContractOwnerKey, BuildContractFamilyKey;
    var more := next[BuildContractStateKey(root, k) := TextOf(state[k])];
    forall l | l in keys
      ensures BuildContractStateKey(root, l) in more && more[BuildContractStateKey(root, l)] == TextOf(state[l])
    {
      if BuildContractStateKey(root, l) == BuildContractStateKey(root, k) {
        StateKeyInjective(root, l, root, k);
      }
    }
    forall key | !RecordOf(key, root, keys + {k}) ensures SameAt(db, more, key) {
      assert k in keys + {k};
      NoRecordOfFewer(key, root, keys, k);
    }
  }

  lemma WroteNothing(db: Db, root: Text, state: StateMap)
    ensures Wrote(db, db, root, state, {}, {})
  {
  }

  /** An issuer's call, which names the buyer's balance key, may change two keys only. */
  predicate MayChange(balanceKey: Option<Text>, k: Text) {
    balanceKey.None? || k == InitSchemas.TOTAL_ISSUED || k == balanceKey.value
  }

  lemma AnyMayChange()
    ensures forall k :: MayChange(None, k)
  {
  }

  /** The changed keys among those already visited. */
  ghost function Visited(before: StateMap, after: StateMap, todo: set<Text>): set<Text> {
    ChangedKeys(before, after) - todo
  }

  lemma VisitedEnds(before: StateMap, after: StateMap)
    ensures Visited(before, after, after.Keys) == {}
    ensures Visited(before, after, {}) == ChangedKeys(before, after)
  {
  }

  /** Visiting one more key settles whether it changed. */
  lemma VisitKey(before: StateMap, after: StateMap, todo: set<Text>, k: Text)
    requires k in todo && todo <= after.Keys
    ensures var was, now := Visited(before, after, todo), Visited(before, after, todo - {k});
            if k in before && before[k] == after[k] then now == was
            else k in ChangedKeys(before, after) && now == was + {k} && |now| == |was| + 1
  {
    var was, now := Visited(before, after, todo), Visited(before, after, todo - {k});
    if k in before && before[k] == after[k] {
      assert now == was;
    } else {
      assert now == was + {k};
    }
  }

  /** The delta loop of a Voting V1 or Token Issuer V1 commit; an issuer's, which names the
      buyer's balance key, refuses the first changed key that is not one of its two. */
  method CommitDelta(db: Db, root: Text, before: StateMap, after: StateMap, balanceKey: Option<Text>)
    returns (r: Option<Db>, changedKeys: nat)
    requires IsCanonicalContractOutpoint(root) && EntriesAllowed(after)
    ensures r.Some? <==> forall k :: k in ChangedKeys(before, after) ==> MayChange(balanceKey, k)
    ensures r.Some? ==> Wrote(db, r.value, root, after, ChangedKeys(before, after), {})
    ensures r.Some? ==> changedKeys == |ChangedKeys(before, after)|
  {
    hide BuildContractStateKey, BuildContractLineageKey, BuildContractLiveKey, BuildContractOwnerKey, BuildContractFamilyKey;
    hide Wrote, IsCanonicalContractOutpoint, WithinLimits, ChangedKeys, TextOf, IsLogicalKeyAllowed, IsValueAllowed, MayChange, Visited;
    var next := db;
    changedKeys := 0;
    var todo := after.Keys;
    WroteNothing(db, root, after);
    VisitedEnds(before, after);
    while todo != {}
      invariant todo <= after.Keys
      invariant changedKeys == |Visited(before, after, todo)|
      invariant forall k :: k in Visited(before, after, todo) ==> MayChange(balanceKey, k)
      invariant Wrote(db, next, root, after, Visited(before, after, todo), {})
      decreases |todo|
    {
      var k :| k in todo;
      VisitKey(before, after, todo, k);
      ghost var was := Visited(before, after, todo);
      todo := todo - {k};
      if k in before && before[k] == after[k] {
        continue;
      }
      if !MayChange(balanceKey, k) {
        return None, changedKeys;
      }
      WroteOneMore(db, next, root, after, was, k);
      next := next[BuildContractStateKey(root, k) := TextOf(after[k])];
      changedKeys := changedKeys + 1;
    }
    return Some(next), changedKeys;
  }

  /** A continuation commit: some entries including every changed one, a lineage
      record for the new anchor, and the live pointer moved to it. */
  ghost predicate CallCommitted(db: Db, next: Db, s: Snapshot, after: StateMap, newCurrent: Text, keys: set<Text>) {
    var lineage, live := BuildContractLineageKey(newCurrent), BuildContractLiveKey(s.root);
    && IsCanonicalContractOutpoint(newCurrent)
    && lineage !in db
    && ChangedKeys(s.state, after) <= keys
    && Wrote(db, next, s.root, after, keys, {lineage, live})
    && lineage in next && next[lineage] == s.root
    && live in next && next[live] == newCurrent
  }

  lemma RegistryKeysHavePrefix(o: Text)
    requires IsCanonicalContractOutpoint(o)
    ensures HasPrefix(BuildContractLineageKey(o), LINEAGE_PREFIX) && BuildContractLineageKey(o)[16..] == o
    ensures HasPrefix(BuildContractLiveKey(o), LIVE_PREFIX) && BuildContractLiveKey(o)[13..] == o
    ensures HasPrefix(BuildContractOwnerKey(o), OWNER_PREFIX) && BuildContractOwnerKey(o)[14..] == o
    ensures HasPrefix(BuildContractFamilyKey(o), FAMILY_PREFIX) && BuildContractFamilyKey(o)[15..] == o
  {
  }

  predicate IsRegistryKey(key: Text) {
    HasPrefix(key, LINEAGE_PREFIX) || HasPrefix(key, LIVE_PREFIX)
    || HasPrefix(key, OWNER_PREFIX) || HasPrefix(key, FAMILY_PREFIX)
  }

  lemma RegistryKeyIsNoRecord(key: Text, root: Text, keys: set<Text>)
    requires IsCanonicalContractOutpoint(root) && IsRegistryKey(key)
    ensures !RecordOf(key, root, keys)
  {
    if RecordOf(key, root, keys) {
      var k :| k in keys && IsLogicalKeyAllowed(k) && key == BuildContractStateKey(root, k);
      StateKeyParts(root, k);
      FamiliesApart(key);
    }
  }

  lemma StatePrefixIsStateFamily(root: Text, key: Text)
    requires IsCanonicalContractOutpoint(root) && HasPrefix(key, BuildContractStatePrefix(root))
    ensures HasPrefix(key, STATE_PREFIX) && !IsRegistryKey(key)
  {
    assert key[..14] == key[..|BuildContractStatePrefix(root)|][..14];
    FamiliesApart(key);
  }

  /** A registry key changes only where it is named. */
  lemma RegistryFrame(db: Db, next: Db, root: Text, state: StateMap, keys: set<Text>, registry: set<Text>, key: Text)
    requires IsCanonicalContractOutpoint(root) && IsRegistryKey(key) && key !in registry
    requires Wrote(db, next, root, state, keys, registry)
    ensures SameAt(db, next, key)
  {
    RegistryKeyIsNoRecord(key, root, keys);
  }

  /** A key of another domain never changes. */
  lemma ForeignStateFrame(db: Db, next: Db, root: Text, state: StateMap, keys: set<Text>, registry: set<Text>,
                          other: Text, key: Text)
    requires IsCanonicalContractOutpoint(root) && IsCanonicalContractOutpoint(other) && root != other
    requires HasPrefix(key, BuildContractStatePrefix(other))
    requires forall r :: r in registry ==> IsRegistryKey(r)
    requires Wrote(db, next, root, state, keys, registry)
    ensures SameAt(db, next, key)
  {
    StatePrefixIsStateFamily(other, key);
    if RecordOf(key, root, keys) {
      var k :| k in keys && IsLogicalKeyAllowed(k) && key == BuildContractStateKey(root, k);
      StateKeyParts(root, k);
      DomainPrefixesApart(root, other, key);
    }
  }

  lemma OwnStateKey(db: Db, next: Db, root: Text, before: StateMap, after: StateMap, keys: set<Text>, registry: set<Text>, k: Text)
    requires IsCanonicalContractOutpoint(root) && IsLogicalKeyAllowed(k)
    requires forall r :: r in registry ==> IsRegistryKey(r)
    requires StoredState(db, root, before)
    requires before.Keys <= after.Keys && ChangedKeys(before, after) <= keys
    requires Wrote(db, next, root, after, keys, registry)
    ensures BuildContractStateKey(root, k) in next <==> k in after
    ensures k in after ==> BytesOf(next[BuildContractStateKey(root, k)]) == after[k]
  {
    var key := BuildContractStateKey(root, k);
    if k in keys {
      TextBytesRoundTrip([], after[k]);
    } else {
      StateKeyParts(root, k);
      StatePrefixIsStateFamily(root, key);
      if RecordOf(key, root, keys) {
        var l :| l in keys && IsLogicalKeyAllowed(l) && key == BuildContractStateKey(root, l);
        StateKeyInjective(root, k, root, l);
      }
      assert SameAt(db, next, key);
      assert k in after ==> k in before && before[k] == after[k];
    }
  }

  /** After the write the domain stores exactly the new state. */
  lemma WroteStoresState(db: Db, next: Db, root: Text, before: StateMap, after: StateMap, keys: set<Text>, registry: set<Text>)
    requires IsCanonicalContractOutpoint(root) && EntriesAllowed(after)
    requires forall r :: r in registry ==> IsRegistryKey(r)
    requires StoredState(db, root, before)
    requires forall key :: key in db && HasPrefix(key, BuildContractStatePrefix(root)) ==> IsStateKeyOf(key, root)
    requires before.Keys <= after.Keys && ChangedKeys(before, after) <= keys
    requires Wrote(db, next, root, after, keys, registry)
    ensures StoredState(next, root, after)
    ensures forall key :: key in next && HasPrefix(key, BuildContractStatePrefix(root)) ==> IsStateKeyOf(key, root)
  {
    forall k | IsLogicalKeyAllowed(k)
      ensures BuildContractStateKey(root, k) in next <==> k in after
      ensures k in after ==> BytesOf(next[BuildContractStateKey(root, k)]) == after[k]
    {
      OwnStateKey(db, next, root, before, after, keys, registry, k);
    }
    forall key | key in next && HasPrefix(key, BuildContractStatePrefix(root)) ensures IsStateKeyOf(key, root) {
      StatePrefixIsStateFamily(root, key);
      if !RecordOf(key, root, keys) {
        assert SameAt(db, next, key);
      }
    }
  }

  ghost predicate CommitSetting(db: Db, next: Db, s: Snapshot, after: StateMap, newCurrent: Text, keys: set<Text>) {
    && LoadedFrom(db, s)
    && WithinLimits(after) && s.state.Keys <= after.Keys
    && CallCommitted(db, next, s, after, newCurrent, keys)
  }

  function Continued(s: Snapshot, after: StateMap, newCurrent: Text, accounted: nat): Snapshot {
    s.(current := newCurrent, state := after, accounted := accounted)
  }

  /** Committing a call and loading its continuation gives back exactly the
      executed state, under the same root, owner and family. */
  lemma CommitThenLoad(db: Db, next: Db, s: Snapshot, after: StateMap, newCurrent: Text, keys: set<Text>)
    requires CommitSetting(db, next, s, after, newCurrent, keys)
    ensures LoadedFrom(next, Continued(s, after, newCurrent, TotalBytes(after)))
  {
    hide BuildContractStateKey, BuildContractLineageKey, BuildContractLiveKey, BuildContractOwnerKey, BuildContractFamilyKey;
    var registry := {BuildContractLineageKey(newCurrent), BuildContractLiveKey(s.root)};
    RegistryKeysHavePrefix(newCurrent);
    RegistryKeysHavePrefix(s.root);
    var owner, family := BuildContractOwnerKey(s.root), BuildContractFamilyKey(s.root);
    FamiliesApart(owner);
    FamiliesApart(family);
    RegistryFrame(db, next, s.root, after, keys, registry, owner);
    RegistryFrame(db, next, s.root, after, keys, registry, family);
    assert Registered(next, Continued(s, after, newCurrent, TotalBytes(after)));
    WroteStoresState(db, next, s.root, s.state, after, keys, registry);
  }

  /** A spent anchor is stale: it no longer loads anything. */
  lemma SpentAnchorIsStale(db: Db, next: Db, s: Snapshot, after: StateMap, newCurrent: Text, keys: set<Text>, t: Snapshot)
    requires CommitSetting(db, next, s, after, newCurrent, keys)
    requires t.current == s.current
    ensures !LoadedFrom(next, t)
  {
    hide BuildContractStateKey, BuildContractLineageKey, BuildContractLiveKey, BuildContractOwnerKey, BuildContractFamilyKey;
    var registry := {BuildContractLineageKey(newCurrent), BuildContractLiveKey(s.root)};
    var lineage := BuildContractLineageKey(s.current);
    RegistryKeysHavePrefix(s.current);
    RegistryKeysHavePrefix(s.root);
    FamiliesApart(lineage);
    RegistryFrame(db, next, s.root, after, keys, registry, lineage);
  }

  /** What a write under one root, and registry records that are not t's, leave alone. */
  lemma ForeignSnapshot(db: Db, next: Db, root: Text, state: StateMap, keys: set<Text>, registry: set<Text>, t: Snapshot)
    requires IsCanonicalContractOutpoint(root) && t.root != root
    requires IsCanonicalContractOutpoint(t.current) && IsCanonicalContractOutpoint(t.root)
    requires forall r :: r in registry ==> IsRegistryKey(r)
    requires Wrote(db, next, root, state, keys, registry)
    requires registry !! {BuildContractLineageKey(t.current), BuildContractLiveKey(t.root),
                          BuildContractOwnerKey(t.root), BuildContractFamilyKey(t.root)}
    ensures LoadedFrom(next, t) <==> LoadedFrom(db, t)
  {
    RegistryKeysHavePrefix(t.current);
    RegistryKeysHavePrefix(t.root);
    RegistryFrame(db, next, root, state, keys, registry, BuildContractLineageKey(t.current));
    RegistryFrame(db, next, root, state, keys, registry, BuildContractLiveKey(t.root));
    RegistryFrame(db, next, root, state, keys, registry, BuildContractOwnerKey(t.root));
    RegistryFrame(db, next, root, state, keys, registry, BuildContractFamilyKey(t.root));
    assert Registered(next, t) <==> Registered(db, t);
    forall key | HasPrefix(key, BuildContractStatePrefix(t.root)) ensures SameAt(db, next, key) {
      ForeignStateFrame(db, next, root, state, keys, registry, t.root, key);
    }
    forall k | IsLogicalKeyAllowed(k) ensures SameAt(db, next, BuildContractStateKey(t.root, k)) {
      StateKeyParts(t.root, k);
    }
    SameStored(db, next, t.root, t.state);
    SameStored(next, db, t.root, t.state);
  }

  lemma SameStored(db: Db, next: Db, root: Text, state: StateMap)
    requires forall k :: IsLogicalKeyAllowed(k) ==> SameAt(db, next, BuildContractStateKey(root, k))
    ensures StoredState(db, root, state) ==> StoredState(next, root, state)
  {
  }

  lemma LoadedIsLive(db: Db, s: Snapshot)
    requires LoadedFrom(db, s)
    ensures IsCanonicalContractOutpoint(s.root) && BuildContractLiveKey(s.root) in db
  {
  }

  lemma LoadedIsCanonical(db: Db, t: Snapshot)
    requires LoadedFrom(db, t)
    ensures IsCanonicalContractOutpoint(t.current) && IsCanonicalContractOutpoint(t.root)
  {
  }

  lemma LineageMustMatch(db: Db, t: Snapshot)
    ensures LoadedFrom(db, t) ==>
              BuildContractLineageKey(t.current) in db && db[BuildContractLineageKey(t.current)] == t.root
  {
  }

  lemma CommitRegistry(newCurrent: Text, root: Text)
    requires IsCanonicalContractOutpoint(newCurrent) && IsCanonicalContractOutpoint(root)
    ensures BuildContractLineageKey(newCurrent) != BuildContractLiveKey(root)
    ensures forall r :: r in {BuildContractLineageKey(newCurrent), BuildContractLiveKey(root)} ==> IsRegistryKey(r)
    ensures forall r :: r in {BuildContractLineageKey(newCurrent), BuildContractLiveKey(root)} && HasPrefix(r, LIVE_PREFIX)
              ==> r == BuildContractLiveKey(root)
  {
    hide BuildContractLineageKey, BuildContractLiveKey, BuildContractOwnerKey, BuildContractFamilyKey;
    RegistryKeysHavePrefix(newCurrent);
    RegistryKeysHavePrefix(root);
    FamiliesApart(BuildContractLineageKey(newCurrent));
  }

  /** The records a commit writes are not those of any other root's snapshot. */
  lemma CommitMissesOthers(newCurrent: Text, root: Text, t: Snapshot)
    requires IsCanonicalContractOutpoint(newCurrent) && IsCanonicalContractOutpoint(root)
    requires IsCanonicalContractOutpoint(t.current) && IsCanonicalContractOutpoint(t.root) && t.root != root
    ensures forall r :: r in {BuildContractLineageKey(newCurrent), BuildContractLiveKey(root)} ==> IsRegistryKey(r)
    ensures t.current != newCurrent ==>
              {BuildContractLineageKey(newCurrent), BuildContractLiveKey(root)}
              !! {BuildContractLineageKey(t.current), BuildContractLiveKey(t.root),
                  BuildContractOwnerKey(t.root), BuildContractFamilyKey(t.root)}
  {
    hide BuildContractLineageKey, BuildContractLiveKey, BuildContractOwnerKey, BuildContractFamilyKey;
    CommitRegistry(newCurrent, root);
    RegistryKeysHavePrefix(newCurrent);
    RegistryKeysHavePrefix(root);
    RegistryKeysHavePrefix(t.current);
    RegistryKeysHavePrefix(t.root);
    FamiliesApart(BuildContractLineageKey(newCurrent));
    FamiliesApart(BuildContractLiveKey(root));
  }

  /** Isolation: a commit under one root changes nothing that any other root loads,
      however similar the outpoints look. */
  lemma OtherRootsUnaffected(db: Db, next: Db, s: Snapshot, after: StateMap, newCurrent: Text, keys: set<Text>, t: Snapshot)
    requires CommitSetting(db, next, s, after, newCurrent, keys)
    requires t.root != s.root
    ensures LoadedFrom(next, t) <==> LoadedFrom(db, t)
  {
    hide BuildContractStateKey, BuildContractLineageKey, BuildContractLiveKey, BuildContractOwnerKey, BuildContractFamilyKey;
    hide Wrote, LoadedFrom, WithinLimits, IsCanonicalContractOutpoint, ChangedKeys;
    LoadedIsLive(db, s);
    if LoadedFrom(db, t) || LoadedFrom(next, t) {
      LoadedIsCanonical(if LoadedFrom(db, t) then db else next, t);
      CommitMissesOthers(newCurrent, s.root, t);
      if t.current != newCurrent {
        ForeignSnapshot(db, next, s.root, after, keys,
                        {BuildContractLineageKey(newCurrent), BuildContractLiveKey(s.root)}, t);
      } else {
        LineageMustMatch(db, t);
        LineageMustMatch(next, t);
      }
    }
  }

  // ---- creation ----

  /** The registry keys of a root are all absent before its creation is committed. */
  predicate Unborn(db: Db, root: Text) {
    && BuildContractLineageKey(root) !in db && BuildContractLiveKey(root) !in db
    && BuildContractOwnerKey(root) !in db && BuildContractFamilyKey(root) !in db
  }

  function RegistryOf(root: Text, family: Text): set<Text> {
    {BuildContractLineageKey(root), BuildContractLiveKey(root), BuildContractOwnerKey(root)}
    + (if family == KV_FAMILY then {} else {BuildContractFamilyKey(root)})
  }

  ghost predicate RootCreated(db: Db, next: Db, root: Text, owner: Text, family: Text, state: StateMap) {
    && Unborn(db, root)
    && Wrote(db, next, root, state, state.Keys, RegistryOf(root, family))
    && BuildContractLineageKey(root) in next && next[BuildContractLineageKey(root)] == root
    && BuildContractLiveKey(root) in next && next[BuildContractLiveKey(root)] == root
    && BuildContractOwnerKey(root) in next && next[BuildContractOwnerKey(root)] == owner
    && (family != KV_FAMILY ==> BuildContractFamilyKey(root) in next && next[BuildContractFamilyKey(root)] == family)
  }

  ghost predicate CreateSetting(db: Db, next: Db, root: Text, owner: Text, family: Text, state: StateMap) {
    && IsCanonicalContractOutpoint(root) && IsLowerHash160(owner)
    && family in {KV_FAMILY, VOTING_FAMILY, TOKEN_FAMILY}
    && WithinLimits(state) && state != map[]
    && RootCreated(db, next, root, owner, family, state)
  }

  /** No durable state key exists outside a registered domain. */
  ghost predicate StateIsRegistered(db: Db) {
    forall key, root ::
      (key in db && IsCanonicalContractOutpoint(root) && HasPrefix(key, BuildContractStatePrefix(root)))
      ==> BuildContractLiveKey(root) in db
  }

  function Born(root: Text, owner: Text, family: Text, state: StateMap, accounted: nat): Snapshot {
    Snapshot(root, root, owner, family, state, accounted)
  }

  /** A fresh root loads exactly its creation envelope's state. */
  lemma CreateThenLoad(db: Db, next: Db, root: Text, owner: Text, family: Text, state: StateMap)
    requires CreateSetting(db, next, root, owner, family, state)
    requires StateIsRegistered(db)
    ensures LoadedFrom(next, Born(root, owner, family, state, TotalBytes(state)))
  {
    hide BuildContractStateKey, BuildContractLineageKey, BuildContractLiveKey, BuildContractOwnerKey, BuildContractFamilyKey;
    var registry := RegistryOf(root, family);
    RegistryKeysHavePrefix(root);
    if family == KV_FAMILY {
      FamiliesApart(BuildContractFamilyKey(root));
      RegistryFrame(db, next, root, state, state.Keys, registry, BuildContractFamilyKey(root));
    }
    assert Registered(next, Born(root, owner, family, state, TotalBytes(state)));
    forall k | IsLogicalKeyAllowed(k) ensures BuildContractStateKey(root, k) !in db {
      StateKeyParts(root, k);
    }
    assert StoredState(db, root, map[]);
    WroteStoresState(db, next, root, map[], state, state.Keys, registry);
  }

  lemma CreateLeavesOthers(db: Db, next: Db, root: Text, owner: Text, family: Text, state: StateMap, t: Snapshot)
    requires CreateSetting(db, next, root, owner, family, state)
    requires t.root != root && LoadedFrom(db, t)
    ensures LoadedFrom(next, t)
  {
    hide BuildContractStateKey, BuildContractLineageKey, BuildContractLiveKey, BuildContractOwnerKey, BuildContractFamilyKey;
    hide Wrote, IsCanonicalContractOutpoint, WithinLimits, StoredState, IsLowerHash160;
    RegistryKeysHavePrefix(root);
    RegistryKeysHavePrefix(t.root);
    RegistryKeysHavePrefix(t.current);
    FamiliesApart(BuildContractLineageKey(root));
    FamiliesApart(BuildContractLiveKey(root));
    FamiliesApart(BuildContractOwnerKey(root));
    FamiliesApart(BuildContractFamilyKey(root));
    ForeignSnapshot(db, next, root, state, state.Keys, RegistryOf(root, family), t);
  }

  // ---- the database as a ledger of contracts ----

  type Ledger = map<Text, Snapshot>

  /** The raw key space is exactly a ledger of independent contracts. */
  ghost predicate Represents(db: Db, ledger: Ledger) {
    && (forall root :: root in ledger ==> ledger[root].root == root && LoadedFrom(db, ledger[root]))
    && (forall root :: IsCanonicalContractOutpoint(root) && BuildContractLiveKey(root) in db ==> root in ledger)
    && StateIsRegistered(db)
  }

  lemma EmptyRepresents()
    ensures Represents(map[], map[])
  {
  }

  lemma LiveKeysAfter(db: Db, next: Db, root: Text, state: StateMap, keys: set<Text>, registry: set<Text>, o: Text)
    requires IsCanonicalContractOutpoint(root) && IsCanonicalContractOutpoint(o) && o != root
    requires Wrote(db, next, root, state, keys, registry)
    requires forall r :: r in registry && HasPrefix(r, LIVE_PREFIX) ==> r == BuildContractLiveKey(root)
    ensures SameAt(db, next, BuildContractLiveKey(o))
  {
    RegistryKeysHavePrefix(o);
    RegistryKeysHavePrefix(root);
    RegistryFrame(db, next, root, state, keys, registry, BuildContractLiveKey(o));
  }

  lemma RegisteredAfter(db: Db, next: Db, root: Text, state: StateMap, keys: set<Text>, registry: set<Text>)
    requires IsCanonicalContractOutpoint(root)
    requires Wrote(db, next, root, state, keys, registry)
    requires forall r :: r in registry ==> IsRegistryKey(r)
    requires forall r :: r in registry && HasPrefix(r, LIVE_PREFIX) ==> r == BuildContractLiveKey(root)
    requires StateIsRegistered(db) && BuildContractLiveKey(root) in next
    ensures StateIsRegistered(next)
  {
    forall key, o | key in next && IsCanonicalContractOutpoint(o) && HasPrefix(key, BuildContractStatePrefix(o))
      ensures BuildContractLiveKey(o) in next
    {
      if o != root {
        ForeignStateFrame(db, next, root, state, keys, registry, o, key);
        LiveKeysAfter(db, next, root, state, keys, registry, o);
      }
    }
  }

  lemma CreationRegistry(root: Text, family: Text)
    requires IsCanonicalContractOutpoint(root)
    ensures forall r :: r in RegistryOf(root, family) ==> IsRegistryKey(r)
    ensures forall r :: r in RegistryOf(root, family) && HasPrefix(r, LIVE_PREFIX) ==> r == BuildContractLiveKey(root)
  {
    hide BuildContractLineageKey, BuildContractLiveKey, BuildContractOwnerKey, BuildContractFamilyKey;
    RegistryKeysHavePrefix(root);
    FamiliesApart(BuildContractLineageKey(root));
    FamiliesApart(BuildContractOwnerKey(root));
    FamiliesApart(BuildContractFamilyKey(root));
  }

  lemma CommitLive(db: Db, next: Db, s: Snapshot, after: StateMap, newCurrent: Text, keys: set<Text>, root: Text)
    requires CommitSetting(db, next, s, after, newCurrent, keys)
    requires IsCanonicalContractOutpoint(root) && BuildContractLiveKey(root) in next
    ensures BuildContractLiveKey(root) in db
  {
    hide BuildContractStateKey, BuildContractLineageKey, BuildContractLiveKey, BuildContractOwnerKey, BuildContractFamilyKey;
    hide Wrote, LoadedFrom, IsCanonicalContractOutpoint, WithinLimits, HasPrefix;
    LoadedIsLive(db, s);
    CommitRegistry(newCurrent, s.root);
    if root != s.root {
      LiveKeysAfter(db, next, s.root, after, keys, {BuildContractLineageKey(newCurrent), BuildContractLiveKey(s.root)}, root);
    }
  }

  /** A commit is one ledger update. */
  lemma CommitRefines(db: Db, next: Db, ledger: Ledger, s: Snapshot, after: StateMap, newCurrent: Text, keys: set<Text>)
    requires Represents(db, ledger) && s.root in ledger && ledger[s.root] == s
    requires CommitSetting(db, next, s, after, newCurrent, keys)
    ensures Represents(next, ledger[s.root := Continued(s, after, newCurrent, TotalBytes(after))])
  {
    hide BuildContractStateKey, BuildContractLineageKey, BuildContractLiveKey, BuildContractOwnerKey, BuildContractFamilyKey;
    hide Wrote, LoadedFrom, StateIsRegistered, IsCanonicalContractOutpoint, WithinLimits, HasPrefix, TotalBytes;
    LoadedIsLive(db, s);
    CommitThenLoad(db, next, s, after, newCurrent, keys);
    forall root | root in ledger && root != s.root ensures LoadedFrom(next, ledger[root]) {
      OtherRootsUnaffected(db, next, s, after, newCurrent, keys, ledger[root]);
    }
    forall root | IsCanonicalContractOutpoint(root) && BuildContractLiveKey(root) in next ensures root in ledger {
      CommitLive(db, next, s, after, newCurrent, keys, root);
    }
    CommitRegistry(newCurrent, s.root);
    RegisteredAfter(db, next, s.root, after, keys, {BuildContractLineageKey(newCurrent), BuildContractLiveKey(s.root)});
  }

  /** A creation is one ledger insertion under a root the ledger does not have. */
  lemma CreateRefines(db: Db, next: Db, ledger: Ledger, root: Text, owner: Text, family: Text, state: StateMap)
    requires Represents(db, ledger)
    requires CreateSetting(db, next, root, owner, family, state)
    ensures root !in ledger
    ensures Represents(next, ledger[root := Born(root, owner, family, state, TotalBytes(state))])
  {
    hide BuildContractStateKey, BuildContractLineageKey, BuildContractLiveKey, BuildContractOwnerKey, BuildContractFamilyKey;
    hide Wrote, LoadedFrom, StateIsRegistered, IsCanonicalContractOutpoint, WithinLimits, HasPrefix;
    var registry := RegistryOf(root, family);
    CreationRegistry(root, family);
    CreateThenLoad(db, next, root, owner, family, state);
    forall r | r in ledger ensures r != root && LoadedFrom(next, ledger[r]) {
      LoadedIsLive(db, ledger[r]);
      CreateLeavesOthers(db, next, root, owner, family, state, ledger[r]);
    }
    forall r | IsCanonicalContractOutpoint(r) && BuildContractLiveKey(r) in next && r != root ensures r in ledger {
      LiveKeysAfter(db, next, root, state, state.Keys, registry, r);
    }
    RegisteredAfter(db, next, root, state, state.Keys, registry);
  }

  // ---- the two commit phases ----

  lemma CommittableFacts(db: Db, s: Snapshot, after: StateMap, key: Text)
    requires LoadedFrom(db, s) && WithinLimits(after)
    ensures EntriesAllowed(after) && IsCanonicalContractOutpoint(s.root)
    ensures key in after ==> IsLogicalKeyAllowed(key)
    ensures s.family == KV_FAMILY || s.family == VOTING_FAMILY || s.family == TOKEN_FAMILY
  {
  }

  /** Phase 3.6 for one executed call: refuse a reused continuation, put the delta
      (the key/value family puts its one key even when unchanged), roll the anchor. */
  method CommitCall(db: Db, s: Snapshot, after: StateMap, newCurrent: Text, logicalKey: Text, value: Bytes, balanceKey: Text)
    returns (r: Option<Db>, ghost keys: set<Text>)
    requires LoadedFrom(db, s) && WithinLimits(after) && s.state.Keys <= after.Keys
    requires IsCanonicalContractOutpoint(newCurrent)
    requires s.family == KV_FAMILY ==> ChangedKeys(s.state, after) <= {logicalKey}
    ensures r.Some? <==> BuildContractLineageKey(newCurrent) !in db
                         && (s.family == KV_FAMILY ==> logicalKey in after && after[logicalKey] == value)
                         && (s.family == VOTING_FAMILY ==> |ChangedKeys(s.state, after)| == 3)
                         && (s.family == TOKEN_FAMILY ==>
                               |ChangedKeys(s.state, after)| == 2
                               && forall k :: k in ChangedKeys(s.state, after) ==> MayChange(Some(balanceKey), k))
    ensures r.Some? ==> CommitSetting(db, r.value, s, after, newCurrent, keys)
  {
    hide BuildContractStateKey, BuildContractLineageKey, BuildContractLiveKey, BuildContractOwnerKey, BuildContractFamilyKey;
    hide Wrote, IsCanonicalContractOutpoint, WithinLimits, LoadedFrom, TextOf, HasPrefix, ChangedKeys, IsRegistryKey;
    hide EntriesAllowed, MayChange;
    CommittableFacts(db, s, after, logicalKey);
    keys := {};
    var lineageKey, liveKey := BuildContractLineageKey(newCurrent), BuildContractLiveKey(s.root);
    if lineageKey in db {
      return None, keys;
    }
    var next := db;
    WroteNothing(db, s.root, after);
    ghost var none: set<Text> := {};
    if s.family == KV_FAMILY {
      if logicalKey !in after || after[logicalKey] != value {
        return None, keys;
      }
      keys := {logicalKey};
      WroteOneMore(db, db, s.root, after, {}, logicalKey);
      assert none + {logicalKey} == keys;
      next := db[BuildContractStateKey(s.root, logicalKey) := TextOf(value)];
    } else {
      keys := ChangedKeys(s.state, after);
      AnyMayChange();
      var put, changedKeys := CommitDelta(db, s.root, s.state, after, if s.family == VOTING_FAMILY then None else Some(balanceKey));
      if put.None? {
        return None, keys;
      }
      next := put.value;
      if changedKeys != (if s.family == VOTING_FAMILY then 3 else 2) {
        return None, keys;
      }
    }
    assert none + {lineageKey} == {lineageKey};
    PutRegistry(db, next, s.root, after, keys, none, lineageKey, s.root, newCurrent);
    next := next[lineageKey := s.root];
    PutRegistry(db, next, s.root, after, keys, {lineageKey}, liveKey, newCurrent, s.root);
    next := next[liveKey := newCurrent];
    CommitRegistry(newCurrent, s.root);
    assert {lineageKey} + {liveKey} == {lineageKey, liveKey};
    return Some(next), keys;
  }

  lemma PutRegistry(db: Db, next: Db, root: Text, state: StateMap, keys: set<Text>, registry: set<Text>,
                    key: Text, value: Text, o: Text)
    requires IsCanonicalContractOutpoint(root) && IsCanonicalContractOutpoint(o)
    requires key in {BuildContractLineageKey(o), BuildContractLiveKey(o), BuildContractOwnerKey(o), BuildContractFamilyKey(o)}
    requires Wrote(db, next, root, state, keys, registry)
    ensures Wrote(db, next[key := value], root, state, keys, registry + {key})
  {
    hide BuildContractStateKey, BuildContractLineageKey, BuildContractLiveKey, BuildContractOwnerKey, BuildContractFamilyKey;
    RegistryKeysHavePrefix(o);
    forall k | k in keys ensures BuildContractStateKey(root, k) != key {
      RegistryKeyIsNoRecord(key, root, keys);
    }
  }

  /** The initial entries, each of whose keys must be absent. */
  method PutEntries(db: Db, root: Text, entries: seq<Entry>) returns (r: Option<Db>)
    requires IsCanonicalContractOutpoint(root) && ValidEntries(entries)
    ensures r.Some? <==> forall i :: 0 <= i < |entries| ==> BuildContractStateKey(root, entries[i].key) !in db
    ensures r.Some? ==> Wrote(db, r.value, root, StateOf(entries), StateOf(entries).Keys, {})
  {
    hide BuildContractStateKey, Wrote, IsCanonicalContractOutpoint, WithinLimits, TextOf;
    var state := StateOf(entries);
    var next := db;
    WroteNothing(db, root, state);
    ghost var none: set<Text> := {};
    assert StateOf(entries[..0]).Keys == none;
    for i := 0 to |entries|
      invariant forall j :: 0 <= j < i ==> BuildContractStateKey(root, entries[j].key) !in db
      invariant Wrote(db, next, root, state, StateOf(entries[..i]).Keys, {})
    {
      StateOfSorted(entries, i);
      ValidEntryFits(entries, i);
      PrefixStep(entries, i);
      if BuildContractStateKey(root, entries[i].key) in db {
        return None;
      }
      WroteOneMore(db, next, root, state, StateOf(entries[..i]).Keys, entries[i].key);
      next := next[BuildContractStateKey(root, entries[i].key) := TextOf(entries[i].value)];
      assert StateOf(entries[..i + 1]).Keys == StateOf(entries[..i]).Keys + {entries[i].key};
    }
    assert entries[..|entries|] == entries;
    return Some(next);
  }

  lemma RegistryDistinct(root: Text)
    requires IsCanonicalContractOutpoint(root)
    ensures BuildContractLineageKey(root) !in {BuildContractLiveKey(root), BuildContractOwnerKey(root), BuildContractFamilyKey(root)}
    ensures BuildContractLiveKey(root) !in {BuildContractOwnerKey(root), BuildContractFamilyKey(root)}
    ensures BuildContractOwnerKey(root) != BuildContractFamilyKey(root)
  {
    hide BuildContractLineageKey, BuildContractLiveKey, BuildContractOwnerKey, BuildContractFamilyKey;
    RegistryKeysHavePrefix(root);
    FamiliesApart(BuildContractLineageKey(root));
    FamiliesApart(BuildContractLiveKey(root));
    FamiliesApart(BuildContractOwnerKey(root));
  }

  /** Phase 3.5 for one creation: registry and initial keys must be absent. */
  method CommitCreation(db: Db, root: Text, owner: Text, family: Text, e: Envelope) returns (r: Option<Db>)
    requires IsCanonicalContractOutpoint(root) && IsLowerHash160(owner)
    requires family in {KV_FAMILY, VOTING_FAMILY, TOKEN_FAMILY}
    requires ValidEntries(e.entries) && e.entries != []
    ensures r.Some? <==> Unborn(db, root)
                         && forall i :: 0 <= i < |e.entries| ==> BuildContractStateKey(root, e.entries[i].key) !in db
    ensures r.Some? ==> CreateSetting(db, r.value, root, owner, family, StateOf(e.entries))
  {
    hide BuildContractStateKey, BuildContractLineageKey, BuildContractLiveKey, BuildContractOwnerKey, BuildContractFamilyKey;
    hide Wrote, IsCanonicalContractOutpoint, WithinLimits, IsLowerHash160;
    if !Unborn(db, root) {
      return None;
    }
    ghost var state := StateOf(e.entries);
    StateOfSorted(e.entries, 0);
    var lineageKey, liveKey := BuildContractLineageKey(root), BuildContractLiveKey(root);
    var ownerKey, familyKey := BuildContractOwnerKey(root), BuildContractFamilyKey(root);
    var put := PutEntries(db, root, e.entries);
    if put.None? {
      return None;
    }
    var next := put.value;
    ghost var registry: set<Text> := {};
    PutRegistry(db, next, root, state, state.Keys, registry, lineageKey, root, root);
    next, registry := next[lineageKey := root], registry + {lineageKey};
    PutRegistry(db, next, root, state, state.Keys, registry, liveKey, root, root);
    next, registry := next[liveKey := root], registry + {liveKey};
    PutRegistry(db, next, root, state, state.Keys, registry, ownerKey, owner, root);
    next, registry := next[ownerKey := owner], registry + {ownerKey};
    if family != KV_FAMILY {
      PutRegistry(db, next, root, state, state.Keys, registry, familyKey, family, root);
      next, registry := next[familyKey := family], registry + {familyKey};
    }
    assert registry == RegistryOf(root, family);
    RegistryDistinct(root);
    return Some(next);
  }
}
