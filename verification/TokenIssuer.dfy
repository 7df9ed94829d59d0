/** src/contract_state_runtime.h, lines 644-985: Token Issuer V1. The state carries its
    own ledger; a purchase adds to it exactly what the anchor gained. */
module TokenIssuer {
  import opened ByteCodec
  import opened MapSums
  import opened StateLimits
  import opened CallShape
  import opened ContractVm
  import opened InitSchemas
  import opened StateDomain

  const BALANCE_PREFIX: Text := "balance:"

  function BalanceKey(hash160: Text): Text {
    BALANCE_PREFIX + hash160
  }

  /** IsCanonicalTokenBalanceKey. */
  predicate IsBalanceKey(key: Text) {
    |key| == 48 && key[..8] == BALANCE_PREFIX && IsLowerHash160(key[8..])
  }

  lemma BalanceKeysOfHashes(h: Text, g: Text)
    requires IsLowerHash160(h)
    ensures IsBalanceKey(BalanceKey(h)) && |BalanceKey(h)| == 48
    ensures BalanceKey(h) !in TokenCoreKeys() && BalanceKey(h) != TOTAL_ISSUED
    ensures BalanceKey(h) == BalanceKey(g) ==> h == g
  {
    assert BalanceKey(h)[8..] == h && BalanceKey(g)[8..] == g;
    assert BalanceKey(h)[..8] == BALANCE_PREFIX;
    assert BalanceKey(h)[0] == 'b';
    assert EXCHANGE_RATE[0] == 'e' && MAX_SUPPLY[0] == 'm' && TOKEN_NAME[0] == 't' && TOTAL_ISSUED[0] == 't';
  }

  lemma CoreKeysAreNotBalances(key: Text)
    requires key in TokenCoreKeys()
    ensures !IsBalanceKey(key)
  {
    assert EXCHANGE_RATE[0] == 'e' && MAX_SUPPLY[0] == 'm' && TOKEN_NAME[0] == 't' && TOTAL_ISSUED[0] == 't';
    assert |key| >= 8 ==> key[0] == key[..8][0];
    assert BALANCE_PREFIX[0] == 'b';
  }

  lemma CoreKeysDistinct()
    ensures EXCHANGE_RATE != TOTAL_ISSUED && MAX_SUPPLY != TOTAL_ISSUED && TOKEN_NAME != TOTAL_ISSUED
  {
    assert TOKEN_NAME[2] == 'k' && TOTAL_ISSUED[2] == 't';
    assert EXCHANGE_RATE[0] == 'e' && MAX_SUPPLY[0] == 'm' && TOTAL_ISSUED[0] == 't';
  }

  // ---- the state invariant ----

  predicate HasTokenCore(state: StateMap) {
    && TOKEN_NAME in state && IsTokenName(state[TOKEN_NAME])
    && HoldsU64(state, EXCHANGE_RATE) && HoldsU64(state, MAX_SUPPLY) && HoldsU64(state, TOTAL_ISSUED)
  }

  function Rate(state: StateMap): nat
    requires HasTokenCore(state)
  {
    U64At(state, EXCHANGE_RATE)
  }

  function MaxSupply(state: StateMap): nat
    requires HasTokenCore(state)
  {
    U64At(state, MAX_SUPPLY)
  }

  function Issued(state: StateMap): nat
    requires HasTokenCore(state)
  {
    U64At(state, TOTAL_ISSUED)
  }

  function Balances(state: StateMap): map<Text, nat> {
    map k | k in state && k !in TokenCoreKeys() :: LeValue(state[k])
  }

  /** What a buyer holds; nothing when the key is absent. */
  function BalanceOf(state: StateMap, hash160: Text): nat {
    if BalanceKey(hash160) in state then LeValue(state[BalanceKey(hash160)]) else 0
  }

  /** The authoritative state: well-formed, capped, and fully accounted for. */
  ghost predicate TokenState(state: StateMap) {
    && HasTokenCore(state)
    && Rate(state) != 0
    && (MaxSupply(state) != 0 ==> Issued(state) <= MaxSupply(state))
    && (forall k :: k in state ==> k in TokenCoreKeys() || (IsBalanceKey(k) && |state[k]| == 8))
    && Sum(Balances(state)) == Issued(state)
  }

  /** ValidateTokenIssuerV1State: the walk over the map, in whatever order. */
  method ValidateTokenIssuerV1State(state: StateMap) returns (r: Option<(nat, nat, nat)>)
    ensures r.Some? <==> TokenState(state)
    ensures r.Some? ==> r.value == (Rate(state), MaxSupply(state), Issued(state))
  {
    hide IsBalanceKey, LeValue;
    if TOKEN_NAME !in state || state[TOKEN_NAME] == [] || |state[TOKEN_NAME]| > 10
       || !HoldsU64(state, EXCHANGE_RATE) || !HoldsU64(state, MAX_SUPPLY) || !HoldsU64(state, TOTAL_ISSUED) {
      return None;
    }
    var name := state[TOKEN_NAME];
    for i := 0 to |name|
      invariant forall j :: 0 <= j < i ==> IsNameByte(name[j])
    {
      if !IsNameByte(name[i]) {
        return None;
      }
    }
    var rate, max, issued := U64At(state, EXCHANGE_RATE), U64At(state, MAX_SUPPLY), U64At(state, TOTAL_ISSUED);
    if rate == 0 {
      return None;
    }
    if max != 0 && issued > max {
      return None;
    }
    var sum := SumBalances(state);
    if sum.None? || sum.value != issued {
      U64Bound(state, TOTAL_ISSUED);
      return None;
    }
    return Some((rate, max, issued));
  }

  /** The balance loop with its overflow guard. */
  method SumBalances(state: StateMap) returns (r: Option<nat>)
    ensures r.Some? <==> Sum(Balances(state)) <= U64_MAX
                         && forall k :: k in state ==> k in TokenCoreKeys() || (IsBalanceKey(k) && |state[k]| == 8)
    ensures r.Some? ==> r.value == Sum(Balances(state))
  {
    hide IsBalanceKey, LeValue;
    var balances := Balances(state);
    var sum := 0;
    var todo := state.Keys;
    assert Without(balances, todo) == map[];
    while todo != {}
      invariant todo <= state.Keys
      invariant sum == Sum(Without(balances, todo)) <= U64_MAX
      invariant forall k :: k in state && k !in todo ==> k in TokenCoreKeys() || (IsBalanceKey(k) && |state[k]| == 8)
      decreases |todo|
    {
      var key :| key in todo;
      if key in TokenCoreKeys() {
        assert Without(balances, todo - {key}) == Without(balances, todo);
        todo := todo - {key};
        continue;
      }
      if !IsBalanceKey(key) || |state[key]| != 8 {
        return None;
      }
      var balance := LeValue(state[key]);
      SumVisit(balances, todo, key);
      if balance > U64_MAX - sum {
        SumWithin(balances, todo - {key});
        return None;
      }
      sum := sum + balance;
      todo := todo - {key};
    }
    assert Without(balances, todo) == balances;
    return Some(sum);
  }

  // ---- the issuance delta ----

  /** Exactly the total and one buyer's balance were replaced, and both really changed. */
  predicate IsIssuanceDelta(before: StateMap, after: StateMap, balanceKey: Text, total: Bytes, balance: Bytes) {
    && IsBalanceKey(balanceKey) && |total| == 8 && |balance| == 8
    && after == before[TOTAL_ISSUED := total][balanceKey := balance]
    && !(TOTAL_ISSUED in before && before[TOTAL_ISSUED] == total)
    && !(balanceKey in before && before[balanceKey] == balance)
  }

  lemma DeltaChangedKeys(before: StateMap, after: StateMap, balanceKey: Text)
    requires IsBalanceKey(balanceKey)
    requires TOTAL_ISSUED in after && balanceKey in after && before.Keys <= after.Keys
    requires forall k :: k in ChangedKeys(before, after) ==> k == TOTAL_ISSUED || k == balanceKey
    ensures |ChangedKeys(before, after)| == 2
       <==> !(TOTAL_ISSUED in before && before[TOTAL_ISSUED] == after[TOTAL_ISSUED])
            && !(balanceKey in before && before[balanceKey] == after[balanceKey])
    ensures after == before[TOTAL_ISSUED := after[TOTAL_ISSUED]][balanceKey := after[balanceKey]]
  {
    CoreIsNoBalance(balanceKey);
    var changed := ChangedKeys(before, after);
    if TOTAL_ISSUED in changed && balanceKey in changed {
      assert changed == {TOTAL_ISSUED, balanceKey};
    } else if TOTAL_ISSUED in changed {
      assert changed == {TOTAL_ISSUED};
    } else if balanceKey in changed {
      assert changed == {balanceKey};
    } else {
      assert changed == {};
    }
    forall k | k in before && k != TOTAL_ISSUED && k != balanceKey ensures before[k] == after[k] {
      assert k !in changed;
    }
    forall k | k in after && k != TOTAL_ISSUED && k != balanceKey ensures k in before {
      assert k !in changed;
    }
  }

  lemma CoreIsNoBalance(balanceKey: Text)
    requires IsBalanceKey(balanceKey)
    ensures balanceKey !in TokenCoreKeys()
  {
    if balanceKey in TokenCoreKeys() {
      CoreKeysAreNotBalances(balanceKey);
    }
  }

  method NothingDeleted(before: StateMap, after: StateMap) returns (ok: bool)
    ensures ok == (before.Keys <= after.Keys)
  {
    var todo := before.Keys;
    while todo != {}
      invariant todo <= before.Keys
      invariant forall k :: k in before && k !in todo ==> k in after
      decreases |todo|
    {
      var key :| key in todo;
      if key !in after {
        return false;
      }
      todo := todo - {key};
    }
    return true;
  }

  /** How many keys changed, unless one changed that a purchase may not touch. */
  method CountChanges(before: StateMap, after: StateMap, totalKey: Text, balanceKey: Text) returns (r: Option<nat>)
    ensures r.Some? <==> forall k :: k in ChangedKeys(before, after) ==> k == totalKey || k == balanceKey
    ensures r.Some? ==> r.value == |ChangedKeys(before, after)|
  {
    var changedKeys := 0;
    ghost var changed: set<Text> := {};
    var todo := after.Keys;
    while todo != {}
      invariant todo <= after.Keys
      invariant changed == ChangedKeys(before, after) - todo
      invariant forall k :: k in changed ==> k == totalKey || k == balanceKey
      invariant changedKeys == |changed|
      decreases |todo|
    {
      var key :| key in todo;
      todo := todo - {key};
      if key in before && before[key] == after[key] {
        assert changed == ChangedKeys(before, after) - todo;
        continue;
      }
      assert key in ChangedKeys(before, after);
      if key != totalKey && key != balanceKey {
        return None;
      }
      assert key !in changed;
      changed := changed + {key};
      assert changed == ChangedKeys(before, after) - todo;
      changedKeys := changedKeys + 1;
    }
    assert changed == ChangedKeys(before, after);
    return Some(changedKeys);
  }

  /** ValidateTokenIssuerV1CallDelta: exact whatever produced the after state. */
  method ValidateTokenIssuerV1CallDelta(before: StateMap, after: StateMap, balanceKey: Text, total: Bytes, balance: Bytes)
    returns (ok: bool)
    ensures ok == IsIssuanceDelta(before, after, balanceKey, total, balance)
  {
    hide IsBalanceKey;
    if !IsBalanceKey(balanceKey) || |total| != 8 || |balance| != 8 {
      return false;
    }
    CoreIsNoBalance(balanceKey);
    if TOTAL_ISSUED !in after || after[TOTAL_ISSUED] != total || balanceKey !in after || after[balanceKey] != balance {
      return false;
    }
    var kept := NothingDeleted(before, after);
    if !kept {
      return false;
    }
    var changedKeys := CountChanges(before, after, TOTAL_ISSUED, balanceKey);
    if changedKeys.None? {
      return false;
    }
    DeltaChangedKeys(before, after, balanceKey);
    return changedKeys.value == 2;
  }

  // ---- one purchase ----

  datatype TokenError =
    | WrongFamily | BadBuyer | NoValue | WrongTarget | BadState | MintOverflow | TotalOverflow | CapExceeded
    | WrongTotal | BalanceMalformed | BalanceOverflow | VmRefused | VmTotalMissing | LimitExceeded | GasExceeded
    | DeltaRefused | PostInvariant | ImmutableChanged

  datatype Purchase =
    | Refused(error: TokenError)
    | Bought(state: StateMap, gasUsed: nat, minted: nat, newTotal: nat, balanceKey: Text)

  const BALANCE_GAS: nat := 11_400

  /** The state a purchase must leave. */
  function AfterPurchase(state: StateMap, hash160: Text, minted: nat): StateMap
    requires HasTokenCore(state)
  {
    state[TOTAL_ISSUED := Le(Issued(state) + minted, 8)][BalanceKey(hash160) := Le(BalanceOf(state, hash160) + minted, 8)]
  }

  /** The conditions on the call itself, with no mention of the buyer's old balance. */
  ghost predicate Purchasable(s: Snapshot, call: Call, hash160: Text, address: Text) {
    && s.family == TOKEN_FAMILY
    && IsLowerHash160(hash160) && address != []
    && call.callValue > 0 && call.logicalKey == TOTAL_ISSUED
    && TokenState(s.state)
    && var total := Issued(s.state) + call.callValue * Rate(s.state);
       && total <= U64_MAX
       && (MaxSupply(s.state) != 0 ==> total <= MaxSupply(s.state))
       && call.value == Le(total, 8)
  }

  /** The machine wrote the new total, touched at most the buyer's key besides, and
      left room for the balance write in bytes and in gas. */
  ghost predicate VmKept(vm: StateMap -> VmResult, state: StateMap, after: StateMap, balanceKey: Text, gasLimit: nat)
    requires balanceKey in after && TOTAL_ISSUED in after
  {
    var r := vm(state);
    && r.VmDone?
    && TOTAL_ISSUED in r.state && r.state[TOTAL_ISSUED] == after[TOTAL_ISSUED]
    && r.state[balanceKey := after[balanceKey]] == after
    && WithinLimits(r.state) && WithinLimits(after)
    && r.gasUsed + BALANCE_GAS <= gasLimit
  }

  lemma MapReplaceSum(state: StateMap, hash160: Text, minted: nat)
    requires TokenState(state) && IsLowerHash160(hash160)
    requires Issued(state) + minted <= U64_MAX
    ensures BalanceOf(state, hash160) <= Issued(state)
    ensures Sum(Balances(AfterPurchase(state, hash160, minted))) == Issued(state) + minted
  {
    hide IsBalanceKey, LeValue, IsLowerHash160;
    var key := BalanceKey(hash160);
    BalanceKeysOfHashes(hash160, hash160);
    if key in state {
      SumAtLeast(Balances(state), key);
    }
    var newBalance := BalanceOf(state, hash160) + minted;
    U64RoundTrip(newBalance, []);
    assert Balances(AfterPurchase(state, hash160, minted)) == Balances(state)[key := newBalance];
    SumUpdate(Balances(state), key, newBalance);
  }

  /** A purchase keeps the ledger invariant and moves exactly what it says. */
  lemma PurchaseKeepsLedger(state: StateMap, hash160: Text, minted: nat)
    requires TokenState(state) && IsLowerHash160(hash160)
    requires Issued(state) + minted <= U64_MAX
    requires MaxSupply(state) != 0 ==> Issued(state) + minted <= MaxSupply(state)
    ensures var after := AfterPurchase(state, hash160, minted);
            && TokenState(after)
            && Issued(after) == Issued(state) + minted
            && Rate(after) == Rate(state) && MaxSupply(after) == MaxSupply(state) && after[TOKEN_NAME] == state[TOKEN_NAME]
            && BalanceOf(after, hash160) == BalanceOf(state, hash160) + minted
  {
    hide IsBalanceKey, LeValue, IsLowerHash160, Balances, BalanceKey, IsTokenName;
    MapReplaceSum(state, hash160, minted);
    BalanceKeysOfHashes(hash160, hash160);
    CoreKeysDistinct();
    U64RoundTrip(Issued(state) + minted, []);
    U64RoundTrip(BalanceOf(state, hash160) + minted, []);
  }

  /** Nobody else's balance moves. */
  lemma PurchaseLeavesOthers(state: StateMap, hash160: Text, minted: nat, other: Text)
    requires HasTokenCore(state) && IsLowerHash160(hash160) && IsLowerHash160(other) && other != hash160
    ensures BalanceOf(AfterPurchase(state, hash160, minted), other) == BalanceOf(state, other)
  {
    BalanceKeysOfHashes(other, hash160);
  }

  lemma PurchaseIsDelta(state: StateMap, hash160: Text, minted: nat)
    requires TokenState(state) && IsLowerHash160(hash160) && minted > 0
    requires Issued(state) + minted <= U64_MAX
    ensures IsIssuanceDelta(state, AfterPurchase(state, hash160, minted), BalanceKey(hash160),
                            Le(Issued(state) + minted, 8), Le(BalanceOf(state, hash160) + minted, 8))
  {
    hide IsBalanceKey, LeValue, IsLowerHash160, Balances, BalanceKey, IsTokenName, TokenCoreKeys;
    MapReplaceSum(state, hash160, minted);
    BalanceKeysOfHashes(hash160, hash160);
    U64RoundTrip(Issued(state) + minted, []);
    U64RoundTrip(BalanceOf(state, hash160) + minted, []);
  }

  lemma MintFits(value: nat, rate: nat, total: nat)
    requires rate > 0
    ensures value > U64_MAX / rate <==> value * rate > U64_MAX
  {
    var q := U64_MAX / rate;
    assert q * rate <= U64_MAX < (q + 1) * rate;
    if value > q {
      MulMono(q + 1, value, rate);
    } else {
      MulMono(value, q, rate);
    }
  }

  /** ExecuteTokenIssuerV1Call. Acceptance is exactly the call conditions plus a
      machine that kept to its one write: the buyer-balance checks and the whole
      post-call invariant never refuse anything the other checks let through. */
  method ExecuteTokenIssuerV1Call(s: Snapshot, call: Call, hash160: Text, address: Text, gasLimit: U64,
                                  vm: StateMap -> VmResult)
    returns (r: Purchase)
    ensures r.Bought? <==>
              Purchasable(s, call, hash160, address)
              && VmKept(vm, s.state, AfterPurchase(s.state, hash160, call.callValue * Rate(s.state)),
                        BalanceKey(hash160), gasLimit)
    ensures r.Bought? ==>
              && r.state == AfterPurchase(s.state, hash160, call.callValue * Rate(s.state))
              && r.minted == call.callValue * Rate(s.state)
              && r.newTotal == Issued(s.state) + r.minted
              && r.balanceKey == BalanceKey(hash160)
              && r.gasUsed == vm(s.state).gasUsed + BALANCE_GAS
    ensures r.Bought? ==> r.gasUsed <= gasLimit
    ensures r.Refused? ==> r.error !in {BalanceMalformed, BalanceOverflow, PostInvariant, ImmutableChanged}
  {
    hide IsBalanceKey, LeValue, Le, IsLowerHash160, WithinLimits, TokenState, Balances, IsTokenName, VmKept, AfterPurchase,
         BalanceKey, Rate, MaxSupply, Issued;
    if s.family != TOKEN_FAMILY {
      return Refused(WrongFamily);
    }
    if !IsLowerHash160(hash160) || address == [] {
      return Refused(BadBuyer);
    }
    if call.callValue == 0 {
      return Refused(NoValue);
    }
    if call.logicalKey != TOTAL_ISSUED {
      return Refused(WrongTarget);
    }
    var numbers := ValidateTokenIssuerV1State(s.state);
    if numbers.None? {
      return Refused(BadState);
    }
    TokenStateFacts(s.state);
    var (rate, maxSupply, oldTotal) := numbers.value;
    MintFits(call.callValue, rate, oldTotal);
    if call.callValue > U64_MAX / rate {
      return Refused(MintOverflow);
    }
    var minted := call.callValue * rate;
    if minted == 0 || minted > U64_MAX - oldTotal {
      return Refused(TotalOverflow);
    }
    var newTotal := oldTotal + minted;
    if maxSupply != 0 && newTotal > maxSupply {
      return Refused(CapExceeded);
    }
    var expectedTotal := EncodeU64(newTotal);
    if call.value != expectedTotal {
      return Refused(WrongTotal);
    }
    assert Purchasable(s, call, hash160, address);
    r := FinishPurchase(s.state, call, hash160, gasLimit, vm, minted, newTotal, expectedTotal);
    if r.Bought? {
      KeptGas(vm, s.state, hash160, minted, gasLimit);
    }
  }

  lemma KeptGas(vm: StateMap -> VmResult, state: StateMap, hash160: Text, minted: nat, gasLimit: nat)
    requires HasTokenCore(state) && VmKept(vm, state, AfterPurchase(state, hash160, minted), BalanceKey(hash160), gasLimit)
    ensures vm(state).VmDone? && vm(state).gasUsed + BALANCE_GAS <= gasLimit
  {
    hide WithinLimits;
  }

  lemma TokenStateFacts(state: StateMap)
    requires TokenState(state)
    ensures HasTokenCore(state) && Rate(state) > 0 && Issued(state) <= U64_MAX
    ensures forall h: Text :: IsLowerHash160(h) && BalanceKey(h) in state ==> HoldsU64(state, BalanceKey(h))
  {
    U64Bound(state, TOTAL_ISSUED);
    forall h: Text | IsLowerHash160(h) && BalanceKey(h) in state ensures HoldsU64(state, BalanceKey(h)) {
      BalanceKeysOfHashes(h, h);
    }
  }

  /** The second half of the call: the buyer's balance, the machine, the checks after it. */
  method FinishPurchase(state: StateMap, call: Call, hash160: Text, gasLimit: U64, vm: StateMap -> VmResult,
                        minted: nat, newTotal: nat, expectedTotal: Bytes)
    returns (r: Purchase)
    requires TokenState(state) && IsLowerHash160(hash160) && minted > 0
    requires newTotal == Issued(state) + minted <= U64_MAX && expectedTotal == Le(newTotal, 8)
    requires MaxSupply(state) != 0 ==> newTotal <= MaxSupply(state)
    ensures r.Bought? <==> VmKept(vm, state, AfterPurchase(state, hash160, minted), BalanceKey(hash160), gasLimit)
    ensures r.Bought? ==>
              r == Bought(AfterPurchase(state, hash160, minted), vm(state).gasUsed + BALANCE_GAS, minted, newTotal,
                          BalanceKey(hash160))
    ensures r.Refused? ==> r.error !in {BalanceMalformed, BalanceOverflow, PostInvariant, ImmutableChanged}
  {
    hide IsBalanceKey, LeValue, IsLowerHash160, WithinLimits, TokenState, Balances, VmKept, AfterPurchase, BalanceKey;
    hide IsIssuanceDelta, TokenCoreKeys, IsTokenName;
    TokenStateFacts(state);
    MapReplaceSum(state, hash160, minted);
    BalanceKeysOfHashes(hash160, hash160);
    ghost var after := AfterPurchase(state, hash160, minted);
    var balanceKey := BalanceKey(hash160);
    var oldBalance := 0;
    if balanceKey in state {
      var read := DecodeU64LEExact(state[balanceKey]);
      if read.None? {
        assert false;
        return Refused(BalanceMalformed);
      }
      oldBalance := read.value;
    }
    if minted > U64_MAX - oldBalance {
      assert false;
      return Refused(BalanceOverflow);
    }
    var newBalanceBytes := EncodeU64(oldBalance + minted);
    PurchaseIsDelta(state, hash160, minted);
    PurchaseKeepsLedger(state, hash160, minted);
    r := RunAndCheck(state, gasLimit, vm, minted, newTotal, balanceKey, expectedTotal, newBalanceBytes, after);
  }

  /** The machine, the balance write, and the checks after it. */
  method RunAndCheck(state: StateMap, gasLimit: U64, vm: StateMap -> VmResult, minted: nat, newTotal: nat,
                     balanceKey: Text, expectedTotal: Bytes, newBalanceBytes: Bytes, ghost after: StateMap)
    returns (r: Purchase)
    requires HasTokenCore(state)
    requires |balanceKey| == 48 && IsIssuanceDelta(state, after, balanceKey, expectedTotal, newBalanceBytes)
    requires balanceKey != TOTAL_ISSUED
    requires TokenState(after) && Rate(after) == Rate(state) && MaxSupply(after) == MaxSupply(state)
    requires Issued(after) == newTotal
    ensures r.Bought? <==> VmKept(vm, state, after, balanceKey, gasLimit)
    ensures r.Bought? ==> r == Bought(after, vm(state).gasUsed + BALANCE_GAS, minted, newTotal, balanceKey)
    ensures r.Refused? ==> r.error !in {BalanceMalformed, BalanceOverflow, PostInvariant, ImmutableChanged}
  {
    hide IsBalanceKey, LeValue, WithinLimits, TokenState, Balances, HasTokenCore, IsTokenName;
    var done := vm(state);
    if done.VmFailed? {
      return Refused(VmRefused);
    }
    var result := done.state;
    if TOTAL_ISSUED !in result || result[TOTAL_ISSUED] != expectedTotal {
      return Refused(VmTotalMissing);
    }
    var resulting := CanApplyStateWrite(result, balanceKey, newBalanceBytes);
    var gas := StoreGas(|balanceKey|, |newBalanceBytes|);
    if resulting.None? || gas.None? {
      return Refused(LimitExceeded);
    }
    if done.gasUsed > gasLimit || gas.value > gasLimit - done.gasUsed {
      return Refused(GasExceeded);
    }
    result := result[balanceKey := newBalanceBytes];
    var delta := ValidateTokenIssuerV1CallDelta(state, result, balanceKey, expectedTotal, newBalanceBytes);
    if !delta {
      return Refused(DeltaRefused);
    }
    assert result == after;
    var checked := ValidateTokenIssuerV1State(result);
    if checked.None? {
      assert false;
      return Refused(PostInvariant);
    }
    if checked.value != (Rate(state), MaxSupply(state), newTotal) {
      assert false;
      return Refused(ImmutableChanged);
    }
    return Bought(result, done.gasUsed + gas.value, minted, newTotal, balanceKey);
  }
}
