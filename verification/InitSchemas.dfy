/** src/contract_call_policy.h, lines 891-1064: the two creation schemas. The code
    looks keys up and counts entries; the schemas are properties of the state map. */
module InitSchemas {
  import opened ByteCodec
  import opened Decimals
  import opened StateLimits
  import opened InitEnvelope

  const PROPOSAL: Text := "proposal"
  const NUM_OPTIONS: Text := "numoptions"
  const END_TIME: Text := "endtime"
  const TOTAL_VOTES: Text := "totalvotes"
  const EXCHANGE_RATE: Text := "exchange_rate"
  const MAX_SUPPLY: Text := "max_supply"
  const TOKEN_NAME: Text := "token_name"
  const TOTAL_ISSUED: Text := "total_issued"

  function OptionKey(i: nat): Text {
    "option" + Decimal(i)
  }

  function CountKey(i: nat): Text {
    "count" + Decimal(i)
  }

  /** option0, count0, ..., option(n-1), count(n-1). */
  function OptionAndCountKeys(n: nat): set<Text> {
    if n == 0 then {} else OptionAndCountKeys(n - 1) + {OptionKey(n - 1), CountKey(n - 1)}
  }

  function VotingCoreKeys(): set<Text> {
    {PROPOSAL, NUM_OPTIONS, END_TIME, TOTAL_VOTES}
  }

  predicate HoldsU64(state: StateMap, key: Text) {
    key in state && |state[key]| == 8
  }

  /** ReadVotingU64, read as a total function where HoldsU64 says it succeeds. */
  function U64At(state: StateMap, key: Text): nat
    requires HoldsU64(state, key)
  {
    LeValue(state[key])
  }

  lemma U64Bound(state: StateMap, key: Text)
    requires HoldsU64(state, key)
    ensures U64At(state, key) <= U64_MAX && Le(U64At(state, key), 8) == state[key]
  {
    U64RoundTrip(0, state[key]);
  }

  predicate HoldsText(state: StateMap, key: Text, most: nat) {
    key in state && 1 <= |state[key]| <= most
  }

  predicate HoldsZero(state: StateMap, key: Text) {
    HoldsU64(state, key) && U64At(state, key) == 0
  }

  predicate HoldsOptionCount(state: StateMap) {
    NUM_OPTIONS in state && |state[NUM_OPTIONS]| == 1 && 2 <= state[NUM_OPTIONS][0] <= 10
  }

  function NumOptions(state: StateMap): nat
    requires HoldsOptionCount(state)
  {
    state[NUM_OPTIONS][0]
  }

  /** An empty ballot with nothing else in it. */
  predicate IsVotingInit(state: StateMap) {
    && HoldsText(state, PROPOSAL, 200)
    && HoldsOptionCount(state)
    && HoldsU64(state, END_TIME) && U64At(state, END_TIME) != 0
    && HoldsZero(state, TOTAL_VOTES)
    && (forall i :: 0 <= i < NumOptions(state) ==> HoldsText(state, OptionKey(i), 50) && HoldsZero(state, CountKey(i)))
    && state.Keys == VotingCoreKeys() + OptionAndCountKeys(NumOptions(state))
  }

  predicate IsNameByte(c: Byte) {
    'A' as int <= c <= 'Z' as int || 'a' as int <= c <= 'z' as int
    || '0' as int <= c <= '9' as int || c == '_' as int || c == '-' as int
  }

  predicate IsTokenName(name: Bytes) {
    1 <= |name| <= 10 && forall i :: 0 <= i < |name| ==> IsNameByte(name[i])
  }

  function TokenCoreKeys(): set<Text> {
    {EXCHANGE_RATE, MAX_SUPPLY, TOKEN_NAME, TOTAL_ISSUED}
  }

  /** An issuer that has issued nothing. */
  predicate IsTokenInit(state: StateMap) {
    && state.Keys == TokenCoreKeys()
    && IsTokenName(state[TOKEN_NAME])
    && HoldsU64(state, EXCHANGE_RATE) && U64At(state, EXCHANGE_RATE) != 0
    && HoldsU64(state, MAX_SUPPLY)
    && HoldsZero(state, TOTAL_ISSUED)
  }

  // ---- lookups ----

  /** The first value stored under a key. */
  function Find(entries: seq<Entry>, key: Text): Option<Bytes> {
    if entries == [] then None
    else if entries[0].key == key then Some(entries[0].value)
    else Find(entries[1..], key)
  }

  /** The map in which the first entry of a key wins. */
  function FirstState(entries: seq<Entry>): (state: StateMap)
    ensures |state| <= |entries|
  {
    if entries == [] then map[]
    else
      var rest := FirstState(entries[1..]);
      var state := rest[entries[0].key := entries[0].value];
      assert state.Keys == rest.Keys + {entries[0].key};
      state
  }

  /** A lookup among the entries is a lookup in that map. */
  lemma {:induction false} FindInFirst(entries: seq<Entry>, key: Text)
    ensures Find(entries, key) == if key in FirstState(entries) then Some(FirstState(entries)[key]) else None
  {
    if entries != [] {
      FindInFirst(entries[1..], key);
    }
  }

  lemma FindAllFirst(entries: seq<Entry>)
    ensures forall key :: Find(entries, key) == if key in FirstState(entries) then Some(FirstState(entries)[key]) else None
  {
    forall key ensures Find(entries, key) == if key in FirstState(entries) then Some(FirstState(entries)[key]) else None {
      FindInFirst(entries, key);
    }
  }

  /** In strictly sorted entries no key repeats, so first and last win alike. */
  lemma FirstIsState(entries: seq<Entry>)
    requires StrictlySorted(entries)
    ensures FirstState(entries) == StateOf(entries) && |FirstState(entries)| == |entries|
  {
    hide FirstState, StateOf, StrictlySorted;
    FindAll(entries);
    FindAllFirst(entries);
    StateOfSize(entries);
    var a, b := FirstState(entries), StateOf(entries);
    forall key ensures (key in a <==> key in b) && (key in a ==> a[key] == b[key]) {
      assert Find(entries, key) == if key in a then Some(a[key]) else None;
      assert Find(entries, key) == if key in b then Some(b[key]) else None;
    }
    assert a == b;
  }

  method FindInitValue(entries: seq<Entry>, key: Text) returns (r: Option<Bytes>)
    ensures r == Find(entries, key)
  {
    assert entries[0..] == entries;
    for i := 0 to |entries|
      invariant Find(entries, key) == Find(entries[i..], key)
    {
      assert entries[i..][1..] == entries[i + 1..];
      if entries[i].key == key {
        return Some(entries[i].value);
      }
    }
    return None;
  }

  lemma {:induction false} FindHit(entries: seq<Entry>, i: nat)
    requires StrictlySorted(entries) && i < |entries|
    ensures Find(entries, entries[i].key) == Some(entries[i].value)
  {
    if i > 0 {
      SortedApart(entries, 0, i);
      assert forall j :: 0 < j < |entries| - 1 ==> Precedes(entries[j].key, entries[j + 1].key);
      FindHit(entries[1..], i - 1);
    }
  }

  lemma {:induction false} FindIsEntry(entries: seq<Entry>, key: Text) returns (i: nat)
    requires Find(entries, key).Some?
    ensures i < |entries| && entries[i] == Entry(key, Find(entries, key).value)
  {
    if entries[0].key == key {
      i := 0;
    } else {
      var j := FindIsEntry(entries[1..], key);
      i := j + 1;
    }
  }

  /** In strictly sorted entries a lookup is a lookup in the map they build. */
  lemma FindInState(entries: seq<Entry>, key: Text)
    requires StrictlySorted(entries)
    ensures Find(entries, key) == if key in StateOf(entries) then Some(StateOf(entries)[key]) else None
  {
    if key in StateOf(entries) {
      var i := KeyIndex(entries, key);
      FindHit(entries, i);
      StateOfSorted(entries, i);
    } else if Find(entries, key).Some? {
      var i := FindIsEntry(entries, key);
      StateOfSorted(entries, i);
    }
  }

  lemma FindAll(entries: seq<Entry>)
    requires StrictlySorted(entries)
    ensures forall key :: Find(entries, key) == if key in StateOf(entries) then Some(StateOf(entries)[key]) else None
  {
    forall key ensures Find(entries, key) == if key in StateOf(entries) then Some(StateOf(entries)[key]) else None {
      FindInState(entries, key);
    }
  }

  // ---- how many keys a ballot has ----

  lemma {:induction false} OptionAndCountKeyShape(n: nat, key: Text)
    ensures key in OptionAndCountKeys(n) <==> exists i: nat :: i < n && (key == OptionKey(i) || key == CountKey(i))
  {
    hide OptionKey, CountKey;
    if n > 0 {
      OptionAndCountKeyShape(n - 1, key);
      if key in OptionAndCountKeys(n) && key in OptionAndCountKeys(n - 1) {
        var i: nat :| i < n - 1 && (key == OptionKey(i) || key == CountKey(i));
        assert i < n;
      }
    }
  }

  lemma OptionKeyInjective(i: nat, j: nat)
    ensures OptionKey(i) == OptionKey(j) ==> i == j
    ensures CountKey(i) == CountKey(j) ==> i == j
    ensures OptionKey(i) != CountKey(j)
  {
    assert OptionKey(i)[6..] == Decimal(i) && OptionKey(j)[6..] == Decimal(j);
    assert CountKey(i)[5..] == Decimal(i) && CountKey(j)[5..] == Decimal(j);
    DecimalDenotes(i);
    DecimalDenotes(j);
    assert OptionKey(i)[0] == 'o' && CountKey(j)[0] == 'c';
  }

  lemma NewKey(n: nat, key: Text)
    requires n > 0 && (key == OptionKey(n - 1) || key == CountKey(n - 1))
    ensures key !in OptionAndCountKeys(n - 1)
  {
    OptionAndCountKeyShape(n - 1, key);
    forall i: nat | i < n - 1 ensures key != OptionKey(i) && key != CountKey(i) {
      OptionKeyInjective(i, n - 1);
      OptionKeyInjective(n - 1, i);
    }
  }

  lemma {:induction false} OptionAndCountKeyCount(n: nat)
    ensures |OptionAndCountKeys(n)| == 2 * n
  {
    if n > 0 {
      OptionAndCountKeyCount(n - 1);
      NewKey(n, OptionKey(n - 1));
      NewKey(n, CountKey(n - 1));
      OptionKeyInjective(n - 1, n - 1);
      assert |{OptionKey(n - 1), CountKey(n - 1)}| == 2;
    }
  }

  lemma VotingKeyCount(n: nat)
    ensures |VotingCoreKeys() + OptionAndCountKeys(n)| == 4 + 2 * n
  {
    OptionAndCountKeyCount(n);
    assert PROPOSAL[0] == 'p' && NUM_OPTIONS[0] == 'n' && END_TIME[0] == 'e' && TOTAL_VOTES[0] == 't';
    assert |VotingCoreKeys()| == 4;
    forall key | key in VotingCoreKeys() ensures key !in OptionAndCountKeys(n) {
      OptionAndCountKeyShape(n, key);
      forall i: nat | i < n ensures key != OptionKey(i) && key != CountKey(i) {
        assert OptionKey(i)[0] == 'o' && CountKey(i)[0] == 'c';
      }
    }
  }

  lemma SubsetOfSameSize<T>(a: set<T>, b: set<T>)
    requires a <= b && |a| == |b|
    ensures a == b
  {
    assert |b - a| == 0;
  }

  /** All required keys present and the right number of entries: nothing extra. */
  lemma NothingExtra(state: StateMap, n: nat)
    requires PROPOSAL in state && NUM_OPTIONS in state && END_TIME in state && TOTAL_VOTES in state
    requires forall i :: 0 <= i < n ==> OptionKey(i) in state && CountKey(i) in state
    ensures |state| == 4 + 2 * n <==> state.Keys == VotingCoreKeys() + OptionAndCountKeys(n)
  {
    var keys := VotingCoreKeys() + OptionAndCountKeys(n);
    VotingKeyCount(n);
    forall key | key in OptionAndCountKeys(n) ensures key in state {
      OptionAndCountKeyShape(n, key);
    }
    assert keys <= state.Keys && |state.Keys| == |state|;
    if |state| == 4 + 2 * n {
      SubsetOfSameSize(keys, state.Keys);
    }
  }

  lemma AtLeastRequired(state: StateMap, n: nat)
    requires PROPOSAL in state && NUM_OPTIONS in state && END_TIME in state && TOTAL_VOTES in state
    requires forall i :: 0 <= i < n ==> OptionKey(i) in state && CountKey(i) in state
    ensures |state| >= 4 + 2 * n
  {
    var keys := VotingCoreKeys() + OptionAndCountKeys(n);
    VotingKeyCount(n);
    forall key | key in OptionAndCountKeys(n) ensures key in state {
      OptionAndCountKeyShape(n, key);
    }
    SubsetIsSmaller(keys, state.Keys);
    assert |state.Keys| == |state|;
  }

  lemma SubsetIsSmaller<T>(a: set<T>, b: set<T>)
    requires a <= b
    ensures |a| <= |b|
  {
    assert b == a + (b - a);
  }

  // ---- the two recognisers ----

  predicate IsAllZeroU64(value: Bytes) {
    |value| == 8 && LeValue(value) == 0
  }

  /** Any entry list: accepted exactly when no key repeats and the map is a voting schema. */
  method IsCanonicalVotingV1InitEnvelope(e: Envelope) returns (ok: bool)
    ensures ok == (|FirstState(e.entries)| == |e.entries| && IsVotingInit(FirstState(e.entries)))
  {
    hide OptionKey, CountKey, FirstState, Find, LeValue, VotingCoreKeys, OptionAndCountKeys;
    ghost var state := FirstState(e.entries);
    FindAllFirst(e.entries);
    var proposal := FindInitValue(e.entries, PROPOSAL);
    var numOptions := FindInitValue(e.entries, NUM_OPTIONS);
    var endTime := FindInitValue(e.entries, END_TIME);
    var totalVotes := FindInitValue(e.entries, TOTAL_VOTES);
    if proposal.None? || numOptions.None? || endTime.None? || totalVotes.None? {
      return false;
    }
    if proposal.value == [] || |proposal.value| > 200 {
      return false;
    }
    if |numOptions.value| != 1 || numOptions.value[0] < 2 || numOptions.value[0] > 10 {
      return false;
    }
    var end := DecodeU64LEExact(endTime.value);
    if end.None? || end.value == 0 {
      return false;
    }
    if !IsAllZeroU64(totalVotes.value) {
      return false;
    }
    var n := numOptions.value[0];
    if |e.entries| != 4 + 2 * n {
      if IsVotingInit(state) {
        NothingExtra(state, n);
      }
      return false;
    }
    for i := 0 to n
      invariant forall j :: 0 <= j < i ==> HoldsText(state, OptionKey(j), 50) && HoldsZero(state, CountKey(j))
    {
      var option := FindInitValue(e.entries, OptionKey(i));
      var count := FindInitValue(e.entries, CountKey(i));
      if option.None? || option.value == [] || |option.value| > 50 {
        return false;
      }
      if count.None? || !IsAllZeroU64(count.value) {
        return false;
      }
    }
    AtLeastRequired(state, n);
    NothingExtra(state, n);
    return true;
  }

  const EXPECTED_INIT_KEYS: seq<Text> := [EXCHANGE_RATE, MAX_SUPPLY, TOKEN_NAME, TOTAL_ISSUED]

  lemma ExpectedKeysSorted()
    ensures forall i, j :: 0 <= i < j < 4 ==> Precedes(EXPECTED_INIT_KEYS[i], EXPECTED_INIT_KEYS[j])
  {
    assert EXCHANGE_RATE[0] < MAX_SUPPLY[0] < TOKEN_NAME[0];
    assert Precedes(TOKEN_NAME[2..], TOTAL_ISSUED[2..]);
    assert Precedes(TOKEN_NAME[1..], TOTAL_ISSUED[1..]) by {
      assert TOKEN_NAME[1..][1..] == TOKEN_NAME[2..] && TOTAL_ISSUED[1..][1..] == TOTAL_ISSUED[2..];
    }
  }

  /** Sorted entries under the four keys stand in the one canonical order. */
  lemma FourKeysInOrder(entries: seq<Entry>)
    requires StrictlySorted(entries)
    ensures StateOf(entries).Keys == TokenCoreKeys()
       <==> |entries| == 4 && forall i :: 0 <= i < 4 ==> entries[i].key == EXPECTED_INIT_KEYS[i]
  {
    hide StateOf, StrictlySorted, Precedes;
    var state := StateOf(entries);
    StateOfSize(entries);
    ExpectedKeysSorted();
    TokenKeyCount();
    assert |state.Keys| == |state|;
    if state.Keys == TokenCoreKeys() {
      var a := KeyIndex(entries, EXPECTED_INIT_KEYS[0]);
      var b := KeyIndex(entries, EXPECTED_INIT_KEYS[1]);
      var c := KeyIndex(entries, EXPECTED_INIT_KEYS[2]);
      var d := KeyIndex(entries, EXPECTED_INIT_KEYS[3]);
      InOrder(entries, a, b);
      InOrder(entries, b, c);
      InOrder(entries, c, d);
    }
    if |entries| == 4 && forall i :: 0 <= i < 4 ==> entries[i].key == EXPECTED_INIT_KEYS[i] {
      StateOfSorted(entries, 0);
      StateOfSorted(entries, 1);
      StateOfSorted(entries, 2);
      StateOfSorted(entries, 3);
      assert EXPECTED_INIT_KEYS[0] in state && EXPECTED_INIT_KEYS[1] in state;
      assert EXPECTED_INIT_KEYS[2] in state && EXPECTED_INIT_KEYS[3] in state;
      SubsetOfSameSize(TokenCoreKeys(), state.Keys);
    }
  }

  lemma TokenKeyCount()
    ensures |TokenCoreKeys()| == 4
  {
    ExpectedKeysSorted();
    hide Precedes;
    forall i, j | 0 <= i < j < 4 ensures EXPECTED_INIT_KEYS[i] != EXPECTED_INIT_KEYS[j] {
      PrecedesIrreflexive(EXPECTED_INIT_KEYS[i]);
    }
    FourDistinct(EXPECTED_INIT_KEYS[0], EXPECTED_INIT_KEYS[1], EXPECTED_INIT_KEYS[2], EXPECTED_INIT_KEYS[3]);
  }

  lemma FourDistinct(a: Text, b: Text, c: Text, d: Text)
    requires a != b && a != c && a != d && b != c && b != d && c != d
    ensures |{a, b, c, d}| == 4
  {
  }

  lemma InOrder(entries: seq<Entry>, i: nat, j: nat)
    requires StrictlySorted(entries) && i < |entries| && j < |entries|
    requires Precedes(entries[i].key, entries[j].key)
    ensures i < j
  {
    PrecedesIrreflexive(entries[i].key);
    if j < i {
      SortedApart(entries, j, i);
      PrecedesTransitive(entries[i].key, entries[j].key, entries[i].key);
    }
  }

  lemma ExpectedIsSorted(entries: seq<Entry>)
    requires |entries| == 4 && forall i :: 0 <= i < 4 ==> entries[i].key == EXPECTED_INIT_KEYS[i]
    ensures StrictlySorted(entries)
  {
    ExpectedKeysSorted();
    hide Precedes;
  }

  /** Any entry list: the positional check lets through only sorted lists, and of those
      exactly the ones whose map is a token schema. */
  method IsCanonicalTokenIssuerV1InitEnvelope(e: Envelope) returns (ok: bool)
    ensures ok == (StrictlySorted(e.entries) && IsTokenInit(StateOf(e.entries)))
  {
    hide StateOf, StrictlySorted, Find, LeValue;
    if StrictlySorted(e.entries) {
      FourKeysInOrder(e.entries);
    }
    if |e.entries| != 4 {
      return false;
    }
    for i := 0 to 4
      invariant forall j :: 0 <= j < i ==> e.entries[j].key == EXPECTED_INIT_KEYS[j]
    {
      if e.entries[i].key != EXPECTED_INIT_KEYS[i] {
        return false;
      }
    }
    ExpectedIsSorted(e.entries);
    FindAll(e.entries);
    var tokenName := FindInitValue(e.entries, TOKEN_NAME);
    var exchangeRate := FindInitValue(e.entries, EXCHANGE_RATE);
    var maxSupply := FindInitValue(e.entries, MAX_SUPPLY);
    var totalIssued := FindInitValue(e.entries, TOTAL_ISSUED);
    if tokenName.None? || exchangeRate.None? || maxSupply.None? || totalIssued.None? {
      assert false;
      return false;
    }
    if tokenName.value == [] || |tokenName.value| > 10 {
      return false;
    }
    for i := 0 to |tokenName.value|
      invariant forall j :: 0 <= j < i ==> IsNameByte(tokenName.value[j])
    {
      if !IsNameByte(tokenName.value[i]) {
        return false;
      }
    }
    var rate := DecodeU64LEExact(exchangeRate.value);
    if rate.None? || rate.value == 0 {
      return false;
    }
    var max := DecodeU64LEExact(maxSupply.value);
    if max.None? || !IsAllZeroU64(totalIssued.value) {
      return false;
    }
    return true;
  }

  /** No state satisfies both schemas, so the order of trying them is immaterial. */
  lemma SchemasAreDisjoint(state: StateMap)
    ensures !(IsVotingInit(state) && IsTokenInit(state))
  {
    assert PROPOSAL[0] == 'p' && MAX_SUPPLY[0] == 'm' && EXCHANGE_RATE[0] == 'e';
    assert TOKEN_NAME[0] == 't' && TOTAL_ISSUED[0] == 't';
    assert PROPOSAL !in TokenCoreKeys();
  }
}
