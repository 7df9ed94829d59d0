/** src/contract_state_runtime.h, lines 314-641: Voting V1. One state holds the counts,
    the total and one marker per voter, and they always agree. */
module Voting {
  import opened ByteCodec
  import opened Decimals
  import opened StateLimits
  import CallEnvelope
  import opened CallShape
  import opened ContractVm
  import opened InitSchemas
  import opened StateDomain

  const VOTED_PREFIX: Text := "voted:"
  const COUNT_PREFIX: Text := "count"

  function VotedKey(hash160: Text): Text {
    VOTED_PREFIX + hash160
  }

  predicate IsVotedKey(key: Text) {
    |key| == 46 && key[..6] == VOTED_PREFIX && IsLowerHash160(key[6..])
  }

  function KnownKeys(n: nat): set<Text> {
    VotingCoreKeys() + OptionAndCountKeys(n)
  }

  // ---- keys never meet ----

  lemma VotedKeysOfHashes(h: Text, g: Text)
    requires IsLowerHash160(h)
    ensures IsVotedKey(VotedKey(h)) && |VotedKey(h)| == 46
    ensures VotedKey(h) == VotedKey(g) ==> h == g
  {
    assert VotedKey(h)[6..] == h && VotedKey(g)[6..] == g;
    assert VotedKey(h)[..6] == VOTED_PREFIX;
  }

  lemma KnownIsNotVoted(key: Text, n: nat)
    requires key in KnownKeys(n)
    ensures !IsVotedKey(key)
  {
    assert PROPOSAL[0] == 'p' && NUM_OPTIONS[0] == 'n' && END_TIME[0] == 'e' && TOTAL_VOTES[0] == 't';
    if key in OptionAndCountKeys(n) {
      OptionAndCountKeyShape(n, key);
      var i: nat :| i < n && (key == OptionKey(i) || key == CountKey(i));
      assert key[0] == 'o' || key[0] == 'c';
    }
    assert |key| >= 6 ==> key[0] == key[..6][0];
    assert VOTED_PREFIX[0] == 'v';
  }

  lemma CountKeyIsKnown(i: nat, n: nat)
    requires i < n
    ensures CountKey(i) in KnownKeys(n) && OptionKey(i) in KnownKeys(n)
    ensures CountKey(i) !in VotingCoreKeys() && OptionKey(i) !in VotingCoreKeys()
  {
    OptionAndCountKeyShape(n, CountKey(i));
    OptionAndCountKeyShape(n, OptionKey(i));
    assert CountKey(i)[0] == 'c' && OptionKey(i)[0] == 'o';
    assert PROPOSAL[0] == 'p' && NUM_OPTIONS[0] == 'n' && END_TIME[0] == 'e' && TOTAL_VOTES[0] == 't';
  }

  lemma CoreKeysApart()
    ensures TOTAL_VOTES in VotingCoreKeys()
    ensures PROPOSAL != TOTAL_VOTES && NUM_OPTIONS != TOTAL_VOTES && END_TIME != TOTAL_VOTES
  {
    assert PROPOSAL[0] == 'p' && NUM_OPTIONS[0] == 'n' && END_TIME[0] == 'e' && TOTAL_VOTES[0] == 't';
  }

  // ---- countN ----

  /** ParseCanonicalVotingCountKey accepts exactly the names count0 to count9. */
  method ParseCanonicalVotingCountKey(key: Text) returns (choice: Option<nat>)
    ensures choice.Some? ==> choice.value <= 9 && key == CountKey(choice.value)
    ensures choice.None? ==> forall c: nat :: c <= 9 ==> key != CountKey(c)
  {
    CountKeysAreShort();
    if |key| <= 5 || key[..5] != COUNT_PREFIX {
      return None;
    }
    var suffix := key[5..];
    assert key == key[..5] + suffix;
    if |suffix| > 1 && suffix[0] == '0' {
      return None;
    }
    var value := 0;
    for i := 0 to |suffix|
      invariant AllDigits(suffix[..i]) && value == DecimalValue(suffix[..i]) <= 9
      invariant i > 1 ==> value >= 10
    {
      if !IsDigit(suffix[i]) {
        DigitsOnly(suffix, i);
        return None;
      }
      assert suffix[..i + 1] == suffix[..i] + [suffix[i]];
      DecimalValueSnoc(suffix[..i], suffix[i]);
      if i == 1 {
        FirstDigitPositive(suffix);
      }
      value := value * 10 + DigitValue(suffix[i]);
      if value > 9 {
        return None;
      }
    }
    assert suffix[..|suffix|] == suffix;
    CanonicalDecimalIsRendered(suffix);
    return Some(value);
  }

  lemma CountKeysAreShort()
    ensures forall c: nat :: c <= 9 ==> CountKey(c) == COUNT_PREFIX + [DigitOf(c)]
    ensures forall c: nat :: c <= 9 ==> CountKey(c)[..5] == COUNT_PREFIX && CountKey(c)[5..] == [DigitOf(c)]
  {
  }

  lemma DigitsOnly(suffix: Text, i: nat)
    requires i < |suffix| && !IsDigit(suffix[i])
    ensures forall c: nat :: c <= 9 ==> suffix != [DigitOf(c)]
  {
  }

  lemma FirstDigitPositive(suffix: Text)
    requires |suffix| > 1 && suffix[0] != '0' && IsDigit(suffix[0])
    ensures AllDigits(suffix[..1]) && DecimalValue(suffix[..1]) >= 1
  {
    assert suffix[..1] == [suffix[0]];
    assert [suffix[0]][..0] == [];
  }

  // ---- the state invariant ----

  function Markers(state: StateMap): set<Text> {
    set k | k in state && IsVotedKey(k)
  }

  function MarkersFor(state: StateMap, c: nat): set<Text> {
    set k | k in state && IsVotedKey(k) && |state[k]| == 1 && state[k][0] == c
  }

  predicate HoldsBallot(state: StateMap) {
    && HoldsText(state, PROPOSAL, 200)
    && HoldsOptionCount(state)
    && HoldsU64(state, END_TIME) && U64At(state, END_TIME) != 0
    && HoldsU64(state, TOTAL_VOTES)
    && forall i :: 0 <= i < NumOptions(state) ==> HoldsText(state, OptionKey(i), 50) && HoldsU64(state, CountKey(i))
  }

  function EndTime(state: StateMap): nat
    requires HoldsBallot(state)
  {
    U64At(state, END_TIME)
  }

  function Total(state: StateMap): nat
    requires HoldsBallot(state)
  {
    U64At(state, TOTAL_VOTES)
  }

  function Count(state: StateMap, i: nat): nat
    requires HoldsBallot(state) && i < NumOptions(state)
  {
    U64At(state, CountKey(i))
  }

  function CountSum(state: StateMap, n: nat): nat
    requires HoldsBallot(state) && n <= NumOptions(state)
  {
    if n == 0 then 0 else CountSum(state, n - 1) + Count(state, n - 1)
  }

  predicate KeyAllowed(state: StateMap, k: Text)
    requires HoldsBallot(state) && k in state
  {
    k in KnownKeys(NumOptions(state)) || (IsVotedKey(k) && |state[k]| == 1 && state[k][0] < NumOptions(state))
  }

  /** The counts, the total and the markers all tell the same story. */
  ghost predicate VotingState(state: StateMap) {
    && HoldsBallot(state)
    && (forall k :: k in state ==> KeyAllowed(state, k))
    && CountSum(state, NumOptions(state)) == Total(state)
    && |Markers(state)| == Total(state)
    && forall i :: 0 <= i < NumOptions(state) ==> |MarkersFor(state, i)| == Count(state, i)
  }

  lemma {:induction false} CountWithinSum(state: StateMap, n: nat, i: nat)
    requires HoldsBallot(state) && i < n <= NumOptions(state)
    ensures Count(state, i) <= CountSum(state, n)
  {
    if i < n - 1 {
      CountWithinSum(state, n - 1, i);
    }
  }

  lemma {:induction false} PartialSum(state: StateMap, n: nat)
    requires HoldsBallot(state) && n <= NumOptions(state)
    ensures CountSum(state, n) <= CountSum(state, NumOptions(state))
    decreases NumOptions(state) - n
  {
    if n < NumOptions(state) {
      PartialSum(state, n + 1);
    }
  }

  // ---- the validator ----

  method IsOptionOrCount(key: Text, n: nat) returns (known: bool)
    ensures known == (key in OptionAndCountKeys(n))
  {
    hide OptionKey, CountKey;
    OptionAndCountKeyShape(n, key);
    for i := 0 to n
      invariant forall j: nat :: j < i ==> key != OptionKey(j) && key != CountKey(j)
    {
      if key == OptionKey(i) || key == CountKey(i) {
        return true;
      }
    }
    return false;
  }

  /** Option texts and counts, summing with the overflow guard. */
  method ReadCounts(state: StateMap, n: nat) returns (counts: Option<seq<nat>>, sum: nat)
    requires HoldsText(state, PROPOSAL, 200) && HoldsOptionCount(state) && n == NumOptions(state)
    requires HoldsU64(state, END_TIME) && U64At(state, END_TIME) != 0 && HoldsU64(state, TOTAL_VOTES)
    ensures counts.Some? <==> HoldsBallot(state) && CountSum(state, n) <= U64_MAX
    ensures counts.Some? ==> |counts.value| == n && sum == CountSum(state, n)
                             && forall i :: 0 <= i < n ==> counts.value[i] == Count(state, i)
  {
    hide OptionKey, CountKey, LeValue;
    var out: seq<nat> := [];
    sum := 0;
    for i := 0 to n
      invariant |out| == i && sum <= U64_MAX
      invariant forall j :: 0 <= j < i ==>
        HoldsText(state, OptionKey(j), 50) && HoldsU64(state, CountKey(j)) && out[j] == U64At(state, CountKey(j))
      invariant HoldsBallot(state) ==> sum == CountSum(state, i)
    {
      if !HoldsText(state, OptionKey(i), 50) || !HoldsU64(state, CountKey(i)) {
        return None, sum;
      }
      var count := U64At(state, CountKey(i));
      if count > U64_MAX - sum {
        if HoldsBallot(state) {
          PartialSum(state, i + 1);
        }
        return None, sum;
      }
      out := out + [count];
      sum := sum + count;
    }
    return Some(out), sum;
  }

  /** How many markers outside todo there are, and how many for each choice. */
  ghost function Seen(state: StateMap, todo: set<Text>): nat {
    |Markers(state) - todo|
  }

  ghost function SeenFor(state: StateMap, n: nat, todo: set<Text>): (t: seq<nat>)
    ensures |t| == n
  {
    seq(n, c requires 0 <= c < n => |MarkersFor(state, c) - todo|)
  }

  lemma VisitMarker(state: StateMap, n: nat, todo: set<Text>, key: Text, c: nat)
    requires key in todo && key in state && c < n
    requires IsVotedKey(key) && |state[key]| == 1 && state[key][0] == c
    ensures Seen(state, todo - {key}) == Seen(state, todo) + 1
    ensures SeenFor(state, n, todo - {key}) == SeenFor(state, n, todo)[c := SeenFor(state, n, todo)[c] + 1]
  {
    hide IsVotedKey;
    assert Markers(state) - (todo - {key}) == Markers(state) - todo + {key};
    assert MarkersFor(state, c) - (todo - {key}) == MarkersFor(state, c) - todo + {key};
    assert forall d: nat :: d != c ==> MarkersFor(state, d) - (todo - {key}) == MarkersFor(state, d) - todo;
  }

  lemma SkipKey(state: StateMap, n: nat, todo: set<Text>, key: Text)
    requires key in todo && !IsVotedKey(key)
    ensures Seen(state, todo - {key}) == Seen(state, todo)
    ensures SeenFor(state, n, todo - {key}) == SeenFor(state, n, todo)
  {
    hide IsVotedKey;
    assert Markers(state) - (todo - {key}) == Markers(state) - todo;
    assert forall d: nat :: MarkersFor(state, d) - (todo - {key}) == MarkersFor(state, d) - todo;
  }

  lemma NothingSeen(state: StateMap, n: nat)
    ensures Seen(state, state.Keys) == 0
    ensures SeenFor(state, n, state.Keys) == seq(n, _ => 0)
  {
    hide IsVotedKey;
    assert Markers(state) - state.Keys == {};
    assert forall c: nat :: MarkersFor(state, c) - state.Keys == {};
  }

  lemma AllSeen(state: StateMap, n: nat)
    ensures Seen(state, {}) == |Markers(state)|
    ensures forall c :: 0 <= c < n ==> SeenFor(state, n, {})[c] == |MarkersFor(state, c)|
  {
    hide IsVotedKey, Markers, MarkersFor;
    assert Markers(state) - {} == Markers(state);
    assert forall c: nat :: MarkersFor(state, c) - {} == MarkersFor(state, c);
  }

  lemma AllowedMeans(state: StateMap, n: nat, key: Text)
    requires HoldsBallot(state) && n == NumOptions(state) && key in state
    ensures KeyAllowed(state, key)
       <==> key in VotingCoreKeys() || key in OptionAndCountKeys(n)
            || (IsVotedKey(key) && |state[key]| == 1 && state[key][0] < n)
    ensures key in VotingCoreKeys() || key in OptionAndCountKeys(n) ==> !IsVotedKey(key)
  {
    if key in KnownKeys(n) {
      KnownIsNotVoted(key, n);
    }
  }

  /** The walk over the map: unknown keys are refused, markers are tallied. */
  method TallyMarkers(state: StateMap, n: nat) returns (counts: Option<seq<nat>>, markers: nat)
    requires HoldsBallot(state) && n == NumOptions(state)
    ensures counts.Some? ==> |counts.value| == n && markers == |Markers(state)|
                             && forall i :: 0 <= i < n ==> counts.value[i] == |MarkersFor(state, i)|
    ensures counts.Some? ==> forall k :: k in state ==> KeyAllowed(state, k)
    ensures counts.None? ==> (exists k :: k in state && !KeyAllowed(state, k)) || |Markers(state)| > U64_MAX
  {
    hide HoldsBallot, IsVotedKey, VotingCoreKeys, OptionAndCountKeys, Markers, MarkersFor, KeyAllowed, Seen, SeenFor;
    var tallies := seq(n, _ => 0);
    markers := 0;
    var todo := state.Keys;
    NothingSeen(state, n);
    while todo != {}
      invariant todo <= state.Keys
      invariant markers == Seen(state, todo) && tallies == SeenFor(state, n, todo)
      invariant forall k :: k in state && k !in todo ==> KeyAllowed(state, k)
      decreases |todo|
    {
      var key :| key in todo;
      var value := state[key];
      var known := IsOptionOrCount(key, n);
      AllowedMeans(state, n, key);
      if key in VotingCoreKeys() || known {
        SkipKey(state, n, todo, key);
        todo := todo - {key};
        continue;
      }
      if !IsVotedKey(key) || |value| != 1 || value[0] >= n {
        return None, markers;
      }
      var choice := value[0];
      if markers == U64_MAX || tallies[choice] == U64_MAX {
        TooMany(state, n, todo, key, choice);
        return None, markers;
      }
      VisitMarker(state, n, todo, key, choice);
      todo := todo - {key};
      markers := markers + 1;
      tallies := tallies[choice := tallies[choice] + 1];
    }
    AllSeen(state, n);
    return Some(tallies), markers;
  }

  lemma Smaller<T>(a: set<T>, b: set<T>)
    requires a <= b
    ensures |a| <= |b|
    decreases |a|
  {
    if a != {} {
      var x :| x in a;
      Smaller(a - {x}, b - {x});
    }
  }

  lemma TooMany(state: StateMap, n: nat, todo: set<Text>, key: Text, c: nat)
    requires key in todo && key in state && c < n
    requires IsVotedKey(key) && |state[key]| == 1 && state[key][0] == c
    requires Seen(state, todo) == U64_MAX || SeenFor(state, n, todo)[c] == U64_MAX
    ensures |Markers(state)| > U64_MAX
  {
    hide IsVotedKey;
    VisitMarker(state, n, todo, key, c);
    assert SeenFor(state, n, todo - {key})[c] == |MarkersFor(state, c) - (todo - {key})|;
    Smaller(Markers(state) - (todo - {key}), Markers(state));
    Smaller(MarkersFor(state, c) - (todo - {key}), Markers(state));
  }

  method SameCounts(a: seq<nat>, b: seq<nat>) returns (same: bool)
    requires |a| == |b|
    ensures same <==> forall i :: 0 <= i < |a| ==> a[i] == b[i]
  {
    for i := 0 to |a|
      invariant forall j :: 0 <= j < i ==> a[j] == b[j]
    {
      if a[i] != b[i] {
        return false;
      }
    }
    return true;
  }

  /** ValidateVotingV1State. */
  method ValidateVotingV1State(state: StateMap) returns (r: Option<(nat, nat)>)
    ensures r.Some? <==> VotingState(state)
    ensures r.Some? ==> r.value == (NumOptions(state), EndTime(state))
  {
    hide IsVotedKey, OptionKey, CountKey, Markers, MarkersFor, CountSum, LeValue, KeyAllowed;
    if !HoldsText(state, PROPOSAL, 200) || NUM_OPTIONS !in state || |state[NUM_OPTIONS]| != 1
       || !HoldsU64(state, END_TIME) || !HoldsU64(state, TOTAL_VOTES) {
      return None;
    }
    var n := state[NUM_OPTIONS][0];
    if n < 2 || n > 10 {
      return None;
    }
    var endTime := U64At(state, END_TIME);
    if endTime == 0 {
      return None;
    }
    var declared := U64At(state, TOTAL_VOTES);
    U64Bound(state, TOTAL_VOTES);
    var optionCounts, summed := ReadCounts(state, n);
    if optionCounts.None? || summed != declared {
      return None;
    }
    var markerCounts, markers := TallyMarkers(state, n);
    if markerCounts.None? || markers != declared {
      return None;
    }
    var agree := SameCounts(markerCounts.value, optionCounts.value);
    if !agree {
      return None;
    }
    return Some((n, endTime));
  }

  // ---- one ballot ----

  datatype VoteError =
    | WrongFamily | BadVoter | Payable | BadState | Closed | WrongTarget | Overflow | WrongCount | AlreadyVoted
    | VmRefused | VmCountMissing | TotalLimit | MarkerLimit | GasExceeded | PostInvariant | PostLimits

  datatype Ballot = Rejected(error: VoteError) | Cast(state: StateMap, gasUsed: nat, choice: nat, voterKey: Text)

  const TALLY_GAS: nat := 14_100

  /** The conditions on the call itself. */
  ghost predicate Castable(s: Snapshot, call: Call, hash160: Text, address: Text, blockTime: nat, choice: nat) {
    && s.family == VOTING_FAMILY
    && IsLowerHash160(hash160) && address != []
    && call.callValue == 0
    && VotingState(s.state)
    && blockTime <= EndTime(s.state)
    && choice < NumOptions(s.state) && call.logicalKey == CountKey(choice)
    && Total(s.state) < U64_MAX
    && call.value == Le(Count(s.state, choice) + 1, 8)
    && VotedKey(hash160) !in s.state
  }

  /** What the deterministic family logic adds to whatever the machine left. */
  function Completed(vmState: StateMap, total: nat, hash160: Text, choice: Byte): StateMap {
    vmState[TOTAL_VOTES := Le(total, 8)][VotedKey(hash160) := [choice]]
  }

  /** The state one ballot must leave. */
  function AfterBallot(state: StateMap, hash160: Text, choice: Byte): StateMap
    requires HoldsBallot(state) && choice < NumOptions(state)
  {
    Completed(state[CountKey(choice) := Le(Count(state, choice) + 1, 8)], Total(state) + 1, hash160, choice)
  }

  /** What must hold of an arbitrary machine's result for the ballot to count. */
  ghost predicate VmCounted(vm: Vm, state: StateMap, call: Call, hash160: Text, choice: Byte, gasLimit: nat)
    requires HoldsBallot(state)
  {
    var r := vm(state);
    && r.VmDone?
    && call.logicalKey in r.state && r.state[call.logicalKey] == call.value
    && WithinLimits(r.state) && WithinLimits(r.state[TOTAL_VOTES := Le(Total(state) + 1, 8)])
    && r.gasUsed + TALLY_GAS <= gasLimit
    && var after := Completed(r.state, Total(state) + 1, hash160, choice);
       WithinLimits(after) && VotingState(after)
       && NumOptions(after) == NumOptions(state) && EndTime(after) == EndTime(state)
  }

  lemma VotingFacts(state: StateMap)
    requires VotingState(state)
    ensures HoldsBallot(state) && 2 <= NumOptions(state) <= 10 && Total(state) <= U64_MAX
    ensures HoldsU64(state, TOTAL_VOTES)
    ensures forall i :: 0 <= i < NumOptions(state) ==> Count(state, i) <= Total(state) && HoldsU64(state, CountKey(i))
  {
    hide OptionKey, CountKey, Markers, MarkersFor, LeValue, KeyAllowed;
    U64Bound(state, TOTAL_VOTES);
    forall i | 0 <= i < NumOptions(state) ensures Count(state, i) <= Total(state) {
      CountWithinSum(state, NumOptions(state), i);
    }
  }

  lemma CallNamesOneChoice(key: Text, c: nat, d: nat)
    requires key == CountKey(c) && key == CountKey(d)
    ensures c == d
  {
    OptionKeyInjective(c, d);
  }

  /** ExecuteVotingV1Call. For any machine it accepts exactly the castable ballots whose
      completed state is again consistent; its last resource check never refuses, and
      with a machine that makes the one write the tally re-check never refuses either. */
  method ExecuteVotingV1Call(s: Snapshot, call: Call, hash160: Text, address: Text, blockTime: U32, gasLimit: U64,
                             vm: Vm)
    returns (r: Ballot)
    ensures r.Cast? ==>
              && Castable(s, call, hash160, address, blockTime, r.choice)
              && r.choice < 256 && VmCounted(vm, s.state, call, hash160, r.choice, gasLimit)
              && r.state == Completed(vm(s.state).state, Total(s.state) + 1, hash160, r.choice)
              && r.gasUsed == vm(s.state).gasUsed + TALLY_GAS && r.voterKey == VotedKey(hash160)
    ensures r.Cast? ==> r.gasUsed <= gasLimit
    ensures r.Rejected? ==> forall c: Byte ::
              !(Castable(s, call, hash160, address, blockTime, c) && VmCounted(vm, s.state, call, hash160, c, gasLimit))
    ensures r.Rejected? ==> r.error != PostLimits
    ensures IsOneStore(vm, call.logicalKey, call.value) ==> r != Rejected(PostInvariant)
  {
    hide VotingState, CountKey, VotedKey, LeValue, Le, IsLowerHash160, WithinLimits, VmCounted, IsOneStore, HoldsBallot;
    if s.family != VOTING_FAMILY {
      return Rejected(WrongFamily);
    }
    if !IsLowerHash160(hash160) || address == [] {
      return Rejected(BadVoter);
    }
    if call.callValue != 0 {
      return Rejected(Payable);
    }
    var valid := ValidateVotingV1State(s.state);
    if valid.None? {
      return Rejected(BadState);
    }
    var (numOptions, endTime) := valid.value;
    if blockTime > endTime {
      return Rejected(Closed);
    }
    VotingFacts(s.state);
    var parsed := ParseCanonicalVotingCountKey(call.logicalKey);
    if parsed.None? || parsed.value >= numOptions {
      forall c: nat | c < numOptions ensures call.logicalKey != CountKey(c) {
        if parsed.Some? && call.logicalKey == CountKey(c) {
          CallNamesOneChoice(call.logicalKey, c, parsed.value);
        }
      }
      return Rejected(WrongTarget);
    }
    var choice := parsed.value;
    forall c: nat | call.logicalKey == CountKey(c) ensures c == choice {
      CallNamesOneChoice(call.logicalKey, c, choice);
    }
    var oldCount, oldTotal := U64At(s.state, call.logicalKey), U64At(s.state, TOTAL_VOTES);
    if oldCount == U64_MAX || oldTotal == U64_MAX {
      return Rejected(Overflow);
    }
    var expectedCount := EncodeU64(oldCount + 1);
    if call.value != expectedCount {
      return Rejected(WrongCount);
    }
    var voterKey := VotedKey(hash160);
    if voterKey in s.state {
      return Rejected(AlreadyVoted);
    }
    assert Castable(s, call, hash160, address, blockTime, choice);
    r := CompleteBallot(s, call, hash160, address, blockTime, gasLimit, vm, choice, oldTotal, numOptions, endTime);
    if r.Cast? {
      CountedGas(vm, s.state, call, hash160, choice, gasLimit);
    }
  }

  lemma CountedGas(vm: Vm, state: StateMap, call: Call, hash160: Text, choice: Byte, gasLimit: nat)
    requires HoldsBallot(state) && VmCounted(vm, state, call, hash160, choice, gasLimit)
    ensures vm(state).VmDone? && vm(state).gasUsed + TALLY_GAS <= gasLimit
  {
    hide WithinLimits, VotingState;
  }

  /** A ballot leaves the anchor's amount as it is. */
  lemma BallotKeepsAmount(tx: Tx, inputIndex: nat, anchorHex: Text, locked: U64, sha: Bytes -> CallEnvelope.Hash32,
                          s: Snapshot, call: Call, hash160: Text, address: Text, blockTime: nat, choice: nat)
    requires IsCall(tx, inputIndex, anchorHex, locked, sha, call)
    requires Castable(s, call, hash160, address, blockTime, choice)
    ensures call.continuationVout < |tx.vout| && tx.vout[call.continuationVout].amount == locked
  {
    hide VotingState, CountKey, VotedKey, Le, IsLowerHash160, CallOutputs, CommitmentBinds, AnchorSpend;
  }

  lemma CastableFacts(s: Snapshot, call: Call, hash160: Text, address: Text, blockTime: nat, choice: Byte, vm: Vm)
    requires Castable(s, call, hash160, address, blockTime, choice)
    ensures HoldsBallot(s.state) && |VotedKey(hash160)| == 46
    ensures IsOneStore(vm, call.logicalKey, call.value) && vm(s.state).VmDone? ==>
              var after := Completed(vm(s.state).state, Total(s.state) + 1, hash160, choice);
              VotingState(after) && NumOptions(after) == NumOptions(s.state) && EndTime(after) == EndTime(s.state)
  {
    hide VotingState, CountKey, VotedKey, LeValue, Le, IsLowerHash160, WithinLimits, IsVotedKey, HoldsBallot, KnownKeys;
    VotingFacts(s.state);
    VotedKeysOfHashes(hash160, hash160);
    BallotKeepsTally(s.state, hash160, choice);
  }

  /** totalvotes, then the voter's marker, each within the limits and the gas. */
  method WriteTally(start: StateMap, gasUsed: nat, gasLimit: U64, nextTotal: Bytes, voterKey: Text, choice: Byte)
    returns (r: Ballot)
    requires |nextTotal| == 8 && |voterKey| == 46
    ensures r.Cast? <==> WithinLimits(start) && WithinLimits(start[TOTAL_VOTES := nextTotal])
                         && WithinLimits(start[TOTAL_VOTES := nextTotal][voterKey := [choice]])
                         && gasUsed + TALLY_GAS <= gasLimit
    ensures r.Cast? ==> r == Cast(start[TOTAL_VOTES := nextTotal][voterKey := [choice]], gasUsed + TALLY_GAS, choice, voterKey)
    ensures r.Rejected? ==> r.error in {TotalLimit, MarkerLimit, GasExceeded}
  {
    hide WithinLimits;
    var totalFits := CanApplyStateWrite(start, TOTAL_VOTES, nextTotal);
    var gasA := StoreGas(|TOTAL_VOTES|, |nextTotal|);
    if totalFits.None? || gasA.None? {
      return Rejected(TotalLimit);
    }
    var state := start[TOTAL_VOTES := nextTotal];
    var markerFits := CanApplyStateWrite(state, voterKey, [choice]);
    var gasB := StoreGas(|voterKey|, 1);
    if markerFits.None? || gasB.None? {
      return Rejected(MarkerLimit);
    }
    if gasUsed > gasLimit || gasA.value > gasLimit - gasUsed || gasB.value > gasLimit - gasUsed - gasA.value {
      return Rejected(GasExceeded);
    }
    return Cast(state[voterKey := [choice]], gasUsed + gasA.value + gasB.value, choice, voterKey);
  }

  /** The machine run, the two family writes, and the checks after them. */
  method CompleteBallot(s: Snapshot, call: Call, hash160: Text, address: Text, blockTime: U32, gasLimit: U64,
                        vm: Vm, choice: nat, oldTotal: nat, numOptions: nat, endTime: nat)
    returns (r: Ballot)
    requires choice < 256 && Castable(s, call, hash160, address, blockTime, choice)
    requires oldTotal == Total(s.state) && numOptions == NumOptions(s.state) && endTime == EndTime(s.state)
    ensures r.Cast? <==> VmCounted(vm, s.state, call, hash160, choice, gasLimit)
    ensures r.Cast? ==> r == Cast(Completed(vm(s.state).state, oldTotal + 1, hash160, choice),
                                  vm(s.state).gasUsed + TALLY_GAS, choice, VotedKey(hash160))
    ensures r.Rejected? ==> r.error != PostLimits
    ensures IsOneStore(vm, call.logicalKey, call.value) ==> r != Rejected(PostInvariant)
  {
    hide VotingState, CountKey, VotedKey, LeValue, Le, IsLowerHash160, WithinLimits, HoldsBallot, IsVotedKey;
    hide Castable, IsOneStore;
    CastableFacts(s, call, hash160, address, blockTime, choice, vm);
    var voterKey := VotedKey(hash160);
    var done := vm(s.state);
    if done.VmFailed? {
      return Rejected(VmRefused);
    }
    var state := done.state;
    if call.logicalKey !in state || state[call.logicalKey] != call.value {
      return Rejected(VmCountMissing);
    }
    var nextTotal := EncodeU64(oldTotal + 1);
    var written := WriteTally(state, done.gasUsed, gasLimit, nextTotal, voterKey, choice);
    if written.Rejected? {
      return written;
    }
    state := written.state;
    var post := ValidateVotingV1State(state);
    if post.None? || post.value != (numOptions, endTime) {
      return Rejected(PostInvariant);
    }
    var accounted := MeasureStateBytes(state);
    if accounted.None? {
      assert false;
      return Rejected(PostLimits);
    }
    return written;
  }

  // ---- a ballot keeps the tally ----

  lemma BallotReads(state: StateMap, hash160: Text, choice: Byte)
    requires VotingState(state) && IsLowerHash160(hash160)
    requires choice < NumOptions(state) && Total(state) < U64_MAX
    ensures var after := AfterBallot(state, hash160, choice);
            && HoldsBallot(after)
            && NumOptions(after) == NumOptions(state) && EndTime(after) == EndTime(state)
            && Total(after) == Total(state) + 1
            && (forall i :: 0 <= i < NumOptions(state) ==>
                  Count(after, i) == Count(state, i) + (if i == choice then 1 else 0)
                  && after[OptionKey(i)] == state[OptionKey(i)])
            && after[PROPOSAL] == state[PROPOSAL]
            && (forall k :: k in after ==> KeyAllowed(after, k))
  {
    hide CountKey, OptionKey, VotedKey, LeValue, Le, IsLowerHash160, IsVotedKey, CountSum, Markers, MarkersFor;
    hide VotingCoreKeys, OptionAndCountKeys;
    var n := NumOptions(state);
    var after := AfterBallot(state, hash160, choice);
    VotingFacts(state);
    CoreKeysApart();
    CoreIsKnown(n);
    VotedKeysOfHashes(hash160, hash160);
    U64RoundTrip(Total(state) + 1, []);
    U64RoundTrip(Count(state, choice) + 1, []);
    assert VotedKey(hash160) !in KnownKeys(n) by {
      if VotedKey(hash160) in KnownKeys(n) {
        KnownIsNotVoted(VotedKey(hash160), n);
      }
    }
    CountKeyIsKnown(choice, n);
    forall i: nat | i < n
      ensures OptionKey(i) in KnownKeys(n) && CountKey(i) in KnownKeys(n)
      ensures OptionKey(i) != CountKey(choice) && (CountKey(i) == CountKey(choice) <==> i == choice)
      ensures OptionKey(i) !in VotingCoreKeys() && CountKey(i) !in VotingCoreKeys()
    {
      CountKeyIsKnown(i, n);
      OptionKeyInjective(i, choice);
      OptionKeyInjective(i, choice);
    }
  }

  lemma CoreIsKnown(n: nat)
    ensures PROPOSAL in KnownKeys(n) && NUM_OPTIONS in KnownKeys(n) && END_TIME in KnownKeys(n) && TOTAL_VOTES in KnownKeys(n)
    ensures PROPOSAL in VotingCoreKeys() && NUM_OPTIONS in VotingCoreKeys() && END_TIME in VotingCoreKeys()
  {
  }

  lemma {:induction false} SumAfterBallot(state: StateMap, after: StateMap, n: nat, choice: nat)
    requires HoldsBallot(state) && HoldsBallot(after) && NumOptions(state) == NumOptions(after) && n <= NumOptions(state)
    requires forall i :: 0 <= i < n ==> Count(after, i) == Count(state, i) + (if i == choice then 1 else 0)
    ensures CountSum(after, n) == CountSum(state, n) + (if choice < n then 1 else 0)
  {
    if n > 0 {
      SumAfterBallot(state, after, n - 1, choice);
    }
  }

  lemma MarkersInsert(state: StateMap, a: Text, va: Bytes, b: Text, vb: Bytes, key: Text, c: Byte)
    requires !IsVotedKey(a) && !IsVotedKey(b) && IsVotedKey(key) && key !in state
    ensures var after := state[a := va][b := vb][key := [c]];
            && Markers(after) == Markers(state) + {key}
            && MarkersFor(after, c) == MarkersFor(state, c) + {key}
            && (forall d: nat :: d != c ==> MarkersFor(after, d) == MarkersFor(state, d))
            && key !in Markers(state) && key !in MarkersFor(state, c)
  {
    hide IsVotedKey;
  }

  lemma BallotMarkers(state: StateMap, hash160: Text, choice: Byte)
    requires VotingState(state) && IsLowerHash160(hash160) && VotedKey(hash160) !in state
    requires choice < NumOptions(state)
    ensures var after := AfterBallot(state, hash160, choice);
            && Markers(after) == Markers(state) + {VotedKey(hash160)}
            && MarkersFor(after, choice) == MarkersFor(state, choice) + {VotedKey(hash160)}
            && (forall c: nat :: c != choice ==> MarkersFor(after, c) == MarkersFor(state, c))
            && VotedKey(hash160) !in Markers(state) && VotedKey(hash160) !in MarkersFor(state, choice)
  {
    hide CountKey, OptionKey, VotedKey, LeValue, Le, IsLowerHash160, IsVotedKey, CountSum, Markers, MarkersFor, KnownKeys;
    hide VotingState;
    VotingFacts(state);
    var n := NumOptions(state);
    CountKeyIsKnown(choice, n);
    KnownIsNotVoted(CountKey(choice), n);
    CoreIsKnown(n);
    KnownIsNotVoted(TOTAL_VOTES, n);
    VotedKeysOfHashes(hash160, hash160);
    MarkersInsert(state, CountKey(choice), Le(Count(state, choice) + 1, 8), TOTAL_VOTES, Le(Total(state) + 1, 8),
                  VotedKey(hash160), choice);
  }

  /** The completed ballot is again consistent: the re-check after the call only ever
      refuses what the machine did, never what the ballot asked for. */
  lemma BallotKeepsTally(state: StateMap, hash160: Text, choice: Byte)
    requires VotingState(state) && IsLowerHash160(hash160) && VotedKey(hash160) !in state
    requires choice < NumOptions(state) && Total(state) < U64_MAX
    ensures var after := AfterBallot(state, hash160, choice);
            VotingState(after) && NumOptions(after) == NumOptions(state) && EndTime(after) == EndTime(state)
  {
    hide CountKey, OptionKey, VotedKey, LeValue, Le, IsLowerHash160, KeyAllowed, AfterBallot, Markers, MarkersFor;
    BallotReads(state, hash160, choice);
    BallotMarkers(state, hash160, choice);
    SumAfterBallot(state, AfterBallot(state, hash160, choice), NumOptions(state), choice);
  }
}
