/** src/contract_state_limits.h: the consensus limits on one contract's key/value
    state, measured from scratch and kept up to date one write at a time. */
module StateLimits {
  import opened ByteCodec
  import opened MapSums

  const MAX_LOGICAL_KEY_BYTES: nat := 128
  const MAX_VALUE_BYTES: nat := 4096
  const MAX_KEYS_PER_DOMAIN: nat := 4096
  const MAX_TOTAL_STATE_BYTES: nat := 1_048_576
  const STORE_GAS_BASE: nat := 1000
  const STORE_GAS_PER_ACCOUNTED_BYTE: nat := 100

  type StateMap = map<Text, Bytes>

  predicate IsLogicalKeyAllowed(key: Text) {
    0 < |key| <= MAX_LOGICAL_KEY_BYTES
  }

  predicate IsValueAllowed(value: Bytes) {
    |value| <= MAX_VALUE_BYTES
  }

  /** ComputeAccountedEntryBytes. */
  function AccountedEntryBytes(key: Text, valueBytes: nat): Option<nat> {
    if !IsLogicalKeyAllowed(key) || valueBytes > MAX_VALUE_BYTES then None
    else if valueBytes > MAX_TOTAL_STATE_BYTES - 2 * |key| then None
    else Some(2 * |key| + valueBytes)
  }

  /** What each entry costs: two durable bytes per key byte, one per value byte. */
  function Weights(state: StateMap): map<Text, nat> {
    map k | k in state :: 2 * |k| + |state[k]|
  }

  ghost function TotalBytes(state: StateMap): nat {
    Sum(Weights(state))
  }

  ghost predicate EntriesAllowed(state: StateMap) {
    forall k :: k in state ==> IsLogicalKeyAllowed(k) && IsValueAllowed(state[k])
  }

  /** The limits, with no mention of any order of visiting the map. */
  ghost predicate WithinLimits(state: StateMap) {
    |state| <= MAX_KEYS_PER_DOMAIN && EntriesAllowed(state) && TotalBytes(state) <= MAX_TOTAL_STATE_BYTES
  }

  ghost function Measured(state: StateMap): Option<nat> {
    if WithinLimits(state) then Some(TotalBytes(state)) else None
  }

  /** MeasureStateBytes, walking the map in whatever order it comes. */
  method MeasureStateBytes(state: StateMap) returns (bytes: Option<nat>)
    ensures bytes == Measured(state)
  {
    if |state| > MAX_KEYS_PER_DOMAIN {
      return None;
    }
    var total := 0;
    var todo := state.Keys;
    assert Without(Weights(state), todo) == map[];
    while todo != {}
      invariant todo <= state.Keys
      invariant total == Sum(Without(Weights(state), todo)) <= MAX_TOTAL_STATE_BYTES
      invariant forall k :: k in state && k !in todo ==> IsLogicalKeyAllowed(k) && IsValueAllowed(state[k])
      decreases |todo|
    {
      var key :| key in todo;
      var entry := AccountedEntryBytes(key, |state[key]|);
      if entry.None? {
        return None;
      }
      SumVisit(Weights(state), todo, key);
      if entry.value > MAX_TOTAL_STATE_BYTES - total {
        SumWithin(Weights(state), todo - {key});
        return None;
      }
      total := total + entry.value;
      todo := todo - {key};
    }
    assert Without(Weights(state), todo) == Weights(state);
    return Some(total);
  }

  lemma TotalUpdate(state: StateMap, key: Text, value: Bytes)
    ensures TotalBytes(state[key := value])
         == TotalBytes(state) - (if key in state then 2 * |key| + |state[key]| else 0) + 2 * |key| + |value|
    ensures |state[key := value]| == |state| + (if key in state then 0 else 1)
  {
    assert Weights(state[key := value]) == Weights(state)[key := 2 * |key| + |value|];
    SumUpdate(Weights(state), key, 2 * |key| + |value|);
    assert state[key := value].Keys == state.Keys + {key};
  }

  /** One entry's cost is part of the total it is subtracted from. */
  lemma EntryWithinTotal(state: StateMap, key: Text)
    requires key in state
    ensures 2 * |key| + |state[key]| <= TotalBytes(state)
  {
    SumAtLeast(Weights(state), key);
  }

  /** CanApplyStateWrite: the incremental check agrees with measuring the updated
      map from scratch, and reports exactly its total. */
  method CanApplyStateWrite(state: StateMap, key: Text, value: Bytes) returns (resulting: Option<nat>)
    ensures resulting == if WithinLimits(state) then Measured(state[key := value]) else None
  {
    TotalUpdate(state, key, value);
    if !IsLogicalKeyAllowed(key) || !IsValueAllowed(value) {
      assert key in state[key := value];
      return None;
    }
    var current := MeasureStateBytes(state);
    if current.None? {
      return None;
    }
    var currentBytes := current.value;
    if key !in state {
      if |state| >= MAX_KEYS_PER_DOMAIN {
        return None;
      }
    } else {
      EntryWithinTotal(state, key);
      var before := AccountedEntryBytes(key, |state[key]|);
      if before.None? || before.value > currentBytes {
        return None;
      }
      currentBytes := currentBytes - before.value;
    }
    var entry := AccountedEntryBytes(key, |value|);
    if entry.None? || entry.value > MAX_TOTAL_STATE_BYTES - currentBytes {
      return None;
    }
    return Some(currentBytes + entry.value);
  }

  /** ComputeStoreGas: defined for exactly the writes that AccountedEntryBytes prices. */
  function StoreGas(keyBytes: nat, valueBytes: nat): (gas: Option<nat>)
    ensures gas.Some? <==> 0 < keyBytes <= MAX_LOGICAL_KEY_BYTES && valueBytes <= MAX_VALUE_BYTES
    ensures gas.Some? ==> 1200 <= gas.value <= 436_200
  {
    if keyBytes == 0 || keyBytes > MAX_LOGICAL_KEY_BYTES || valueBytes > MAX_VALUE_BYTES then None
    else
      var accounted := keyBytes * 2 + valueBytes;
      if accounted > (U64_MAX - STORE_GAS_BASE) / STORE_GAS_PER_ACCOUNTED_BYTE then Option<nat>.None
      else Some(STORE_GAS_BASE + accounted * STORE_GAS_PER_ACCOUNTED_BYTE)
  }

  /** A store pays for exactly the entry it accounts, so for at least what the domain grows. */
  lemma GasCoversGrowth(state: StateMap, key: Text, value: Bytes)
    requires StoreGas(|key|, |value|).Some?
    ensures AccountedEntryBytes(key, |value|).Some?
    ensures var gas, growth := StoreGas(|key|, |value|).value, TotalBytes(state[key := value]) - TotalBytes(state);
            && STORE_GAS_BASE + STORE_GAS_PER_ACCOUNTED_BYTE * growth <= gas
            && (key !in state ==> gas == STORE_GAS_BASE + STORE_GAS_PER_ACCOUNTED_BYTE * growth)
  {
    hide TotalBytes;
    TotalUpdate(state, key, value);
  }

  function Stored(state: StateMap, writes: seq<(Text, Bytes)>): StateMap
    decreases |writes|
  {
    if writes == [] then state else Stored(state[writes[0].0 := writes[0].1], writes[1..])
  }

  /** The gas of a run of stores, each of which must be storable. */
  function GasOf(writes: seq<(Text, Bytes)>): Option<nat> {
    if writes == [] then Some(0)
    else
      var first, rest := StoreGas(|writes[0].0|, |writes[0].1|), GasOf(writes[1..]);
      if first.Some? && rest.Some? then Some(first.value + rest.value) else None
  }

  /** Gas bounds growth over any run of stores: a full block of twenty million gas grows
      the durable state by at most 200,000 accounted bytes. */
  lemma {:induction false} GasBoundsGrowth(state: StateMap, writes: seq<(Text, Bytes)>)
    requires GasOf(writes).Some?
    ensures STORE_GAS_PER_ACCOUNTED_BYTE * (TotalBytes(Stored(state, writes)) - TotalBytes(state)) + STORE_GAS_BASE * |writes|
         <= GasOf(writes).value
    ensures GasOf(writes).value <= 20_000_000 ==> TotalBytes(Stored(state, writes)) - TotalBytes(state) <= 200_000
    decreases |writes|
  {
    hide TotalBytes, StoreGas;
    if writes != [] {
      GasCoversGrowth(state, writes[0].0, writes[0].1);
      GasBoundsGrowth(state[writes[0].0 := writes[0].1], writes[1..]);
    }
  }
}
