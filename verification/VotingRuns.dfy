/** Voting V1 over whole runs: a creation followed by any sequence of accepted ballots,
    each run through a machine that makes its one write. */
module VotingRuns {
  import opened ByteCodec
  import opened StateLimits
  import opened InitEnvelope
  import opened CallShape
  import opened ContractVm
  import opened CreationShape
  import opened InitSchemas
  import opened StateDomain
  import opened Voting

  datatype Vote = Vote(call: Call, hash160: Text, address: Text, blockTime: nat, choice: Byte,
                       gasLimit: nat, vm: Vm, continuation: Text)

  ghost predicate Accepts(s: Snapshot, v: Vote) {
    && Castable(s, v.call, v.hash160, v.address, v.blockTime, v.choice)
    && IsOneStore(v.vm, v.call.logicalKey, v.call.value)
    && VmCounted(v.vm, s.state, v.call, v.hash160, v.choice, v.gasLimit)
  }

  ghost function Next(s: Snapshot, v: Vote): Snapshot
    requires Accepts(s, v)
  {
    var after := Completed(v.vm(s.state).state, Total(s.state) + 1, v.hash160, v.choice);
    Continued(s, after, v.continuation, TotalBytes(after))
  }

  ghost predicate Run(first: Snapshot, votes: seq<Vote>, last: Snapshot)
    decreases |votes|
  {
    if votes == [] then last == first
    else Accepts(first, votes[0]) && Run(Next(first, votes[0]), votes[1..], last)
  }

  /** Ballots for one choice. */
  function BallotsFor(votes: seq<Vote>, c: nat): nat {
    if votes == [] then 0 else (if votes[0].choice == c then 1 else 0) + BallotsFor(votes[1..], c)
  }

  lemma StepFacts(s: Snapshot, v: Vote)
    requires Accepts(s, v)
    ensures HoldsBallot(s.state) && v.choice < NumOptions(s.state)
    ensures Next(s, v).state == AfterBallot(s.state, v.hash160, v.choice)
    ensures VotingState(s.state) && VotingState(Next(s, v).state) && WithinLimits(Next(s, v).state)
    ensures IsLowerHash160(v.hash160) && VotedKey(v.hash160) !in s.state
    ensures v.blockTime <= EndTime(s.state) && Total(s.state) < U64_MAX
    ensures Next(s, v).root == s.root && Next(s, v).family == VOTING_FAMILY
  {
    hide VotingState, CountKey, VotedKey, LeValue, Le, IsLowerHash160, WithinLimits, HoldsBallot;
    VotingFacts(s.state);
  }

  /** What stays put across a ballot: options, proposal and deadline. */
  ghost predicate SamePoll(a: StateMap, b: StateMap) {
    && HoldsBallot(a) && HoldsBallot(b)
    && NumOptions(a) == NumOptions(b) && EndTime(a) == EndTime(b) && a[PROPOSAL] == b[PROPOSAL]
    && forall i :: 0 <= i < NumOptions(a) ==> a[OptionKey(i)] == b[OptionKey(i)]
  }

  lemma StepCounts(s: Snapshot, v: Vote)
    requires Accepts(s, v)
    ensures SamePoll(s.state, Next(s, v).state)
    ensures Total(Next(s, v).state) == Total(s.state) + 1
    ensures forall i :: 0 <= i < NumOptions(s.state) ==>
              Count(Next(s, v).state, i) == Count(s.state, i) + (if i == v.choice then 1 else 0)
  {
    StepFacts(s, v);
    hide Accepts, AfterBallot, VotingState, CountKey, OptionKey, VotedKey, IsLowerHash160, WithinLimits, Next, LeValue;
    BallotReads(s.state, v.hash160, v.choice);
  }

  lemma StepMarkers(s: Snapshot, v: Vote, key: Text)
    requires Accepts(s, v) && IsVotedKey(key)
    ensures key in Next(s, v).state <==> key in s.state || key == VotedKey(v.hash160)
    ensures key in s.state ==> Next(s, v).state[key] == s.state[key]
    ensures VotedKey(v.hash160) in Next(s, v).state && Next(s, v).state[VotedKey(v.hash160)] == [v.choice]
  {
    StepFacts(s, v);
    hide Accepts, VotingState, CountKey, VotedKey, IsLowerHash160, WithinLimits, Next, IsVotedKey, HoldsBallot, KnownKeys;
    var n := NumOptions(s.state);
    CountKeyIsKnown(v.choice, n);
    KnownIsNotVoted(CountKey(v.choice), n);
    CoreIsKnown(n);
    KnownIsNotVoted(TOTAL_VOTES, n);
  }

  lemma SamePollTransitive(a: StateMap, b: StateMap, c: StateMap)
    requires SamePoll(a, b) && SamePoll(b, c)
    ensures SamePoll(a, c)
  {
    hide OptionKey, HoldsBallot;
  }

  /** Counts over a run, from any consistent state. */
  lemma {:induction false} RunCounts(first: Snapshot, votes: seq<Vote>, last: Snapshot)
    requires VotingState(first.state) && Run(first, votes, last)
    ensures VotingState(last.state) && SamePoll(first.state, last.state)
    ensures Total(last.state) == Total(first.state) + |votes|
    ensures forall i :: 0 <= i < NumOptions(first.state) ==> Count(last.state, i) == Count(first.state, i) + BallotsFor(votes, i)
    ensures forall i :: 0 <= i < |votes| ==> votes[i].blockTime <= EndTime(first.state) && votes[i].choice < NumOptions(first.state)
    decreases |votes|
  {
    hide Accepts, VotingState, HoldsBallot, OptionKey, EndTime, Total, Count, Next;
    VotingFacts(first.state);
    if votes != [] {
      StepFacts(first, votes[0]);
      StepCounts(first, votes[0]);
      RunCounts(Next(first, votes[0]), votes[1..], last);
      SamePollTransitive(first.state, Next(first, votes[0]).state, last.state);
    }
  }

  /** Markers over a run: exactly the earlier ones and this run's voters, and no voter
      twice. */
  lemma {:induction false} RunMarkers(first: Snapshot, votes: seq<Vote>, last: Snapshot)
    requires Run(first, votes, last)
    ensures forall key :: IsVotedKey(key) && key in first.state ==> key in last.state && last.state[key] == first.state[key]
    ensures forall i :: 0 <= i < |votes| ==>
              IsLowerHash160(votes[i].hash160) && VotedKey(votes[i].hash160) !in first.state
              && VotedKey(votes[i].hash160) in last.state && last.state[VotedKey(votes[i].hash160)] == [votes[i].choice]
    ensures forall i, j :: 0 <= i < j < |votes| ==> votes[i].hash160 != votes[j].hash160
    decreases |votes|
  {
    hide Accepts, VotingState, HoldsBallot, VotedKey, IsVotedKey, IsLowerHash160, Next;
    if votes != [] {
      var v, next := votes[0], Next(first, votes[0]);
      StepFacts(first, v);
      VotedKeysOfHashes(v.hash160, v.hash160);
      StepMarkers(first, v, VotedKey(v.hash160));
      RunMarkers(next, votes[1..], last);
      forall key | IsVotedKey(key) && key in first.state ensures key in last.state && last.state[key] == first.state[key] {
        StepMarkers(first, v, key);
      }
      forall i | 0 <= i < |votes|
        ensures IsLowerHash160(votes[i].hash160) && VotedKey(votes[i].hash160) !in first.state
                && VotedKey(votes[i].hash160) in last.state && last.state[VotedKey(votes[i].hash160)] == [votes[i].choice]
      {
        if i > 0 {
          assert votes[i] == votes[1..][i - 1];
          VotedKeysOfHashes(votes[i].hash160, v.hash160);
          StepMarkers(first, v, VotedKey(votes[i].hash160));
        }
      }
      forall i, j | 0 <= i < j < |votes| ensures votes[i].hash160 != votes[j].hash160 {
        assert votes[j] == votes[1..][j - 1];
        if i > 0 {
          assert votes[i] == votes[1..][i - 1];
        }
      }
    }
  }

  /** A canonical creation is an empty, consistent ballot. */
  lemma InitIsVotingState(state: StateMap)
    requires IsVotingInit(state)
    ensures VotingState(state) && Total(state) == 0 && Markers(state) == {}
    ensures forall i :: 0 <= i < NumOptions(state) ==> Count(state, i) == 0
  {
    hide OptionKey, CountKey, LeValue, IsVotedKey, VotingCoreKeys, OptionAndCountKeys;
    var n := NumOptions(state);
    forall k | k in state ensures k in KnownKeys(n) && !IsVotedKey(k) {
      KnownIsNotVoted(k, n);
    }
    assert Markers(state) == {};
    forall i: nat ensures MarkersFor(state, i) == {} {
    }
    ZeroSum(state, n);
  }

  lemma {:induction false} ZeroSum(state: StateMap, n: nat)
    requires HoldsBallot(state) && n <= NumOptions(state)
    requires forall i :: 0 <= i < n ==> Count(state, i) == 0
    ensures CountSum(state, n) == 0
  {
    if n > 0 {
      ZeroSum(state, n - 1);
    }
  }

  ghost predicate CreatedPoll(tx: Tx, target: nat, initVout: nat, e: Envelope, accounted: nat, first: Snapshot) {
    && IsCreation(tx, CreationShape.VotingV1, target, initVout, e, accounted)
    && first.state == StateOf(e.entries) && first.family == VOTING_FAMILY
  }

  lemma CreatedIsPoll(tx: Tx, target: nat, initVout: nat, e: Envelope, accounted: nat, first: Snapshot)
    requires CreatedPoll(tx, target, initVout, e, accounted, first)
    ensures VotingState(first.state) && Total(first.state) == 0 && Markers(first.state) == {}
    ensures forall i :: 0 <= i < NumOptions(first.state) ==> Count(first.state, i) == 0
  {
    hide WithinLimits, IsTokenInit, IsVotingInit, Clean, KindOf, VotingState, Anchors, Inits, Calls;
    InitIsVotingState(first.state);
  }

  /** The tally of a poll from creation: every countN is the number of markers holding N
      and of accepted ballots for N, totalvotes is the number of ballots, nobody votes
      twice or after the deadline, and the poll itself never changes. */
  lemma TallyIsExact(tx: Tx, target: nat, initVout: nat, e: Envelope, accounted: nat,
                     first: Snapshot, votes: seq<Vote>, last: Snapshot)
    requires CreatedPoll(tx, target, initVout, e, accounted, first)
    requires Run(first, votes, last)
    ensures SamePoll(first.state, last.state)
    ensures Total(last.state) == |votes| == |Markers(last.state)| == CountSum(last.state, NumOptions(last.state))
    ensures forall i :: 0 <= i < NumOptions(last.state) ==>
              Count(last.state, i) == |MarkersFor(last.state, i)| == BallotsFor(votes, i)
    ensures forall i, j :: 0 <= i < j < |votes| ==> votes[i].hash160 != votes[j].hash160
    ensures forall i :: 0 <= i < |votes| ==>
              && votes[i].blockTime <= EndTime(first.state)
              && VotedKey(votes[i].hash160) in last.state
              && last.state[VotedKey(votes[i].hash160)] == [votes[i].choice]
  {
    hide CreatedPoll, Run, HoldsBallot, OptionKey, CountKey, VotedKey, LeValue, KeyAllowed, Markers, MarkersFor, CountSum;
    CreatedIsPoll(tx, target, initVout, e, accounted, first);
    RunCounts(first, votes, last);
    RunMarkers(first, votes, last);
  }

  /** The commit loop of applyBlock always finds exactly three changed keys. */
  lemma BallotChangesThreeKeys(s: Snapshot, v: Vote)
    requires Accepts(s, v)
    ensures ChangedKeys(s.state, Next(s, v).state) == {CountKey(v.choice), TOTAL_VOTES, VotedKey(v.hash160)}
    ensures |ChangedKeys(s.state, Next(s, v).state)| == 3
  {
    StepFacts(s, v);
    StepCounts(s, v);
    hide Accepts, VotingState, CountKey, VotedKey, IsLowerHash160, WithinLimits, Next, IsVotedKey, KnownKeys, HoldsBallot, LeValue, Le;
    VotingFacts(s.state);
    var n := NumOptions(s.state);
    CountKeyIsKnown(v.choice, n);
    CoreIsKnown(n);
    CoreKeysApart();
    var a, b, c := CountKey(v.choice), TOTAL_VOTES, VotedKey(v.hash160);
    VotedKeysOfHashes(v.hash160, v.hash160);
    KnownIsNotVoted(a, n);
    KnownIsNotVoted(b, n);
    ThreeChanges(s.state, Next(s, v).state, a, b, c, Le(Count(s.state, v.choice) + 1, 8), Le(Total(s.state) + 1, 8), [v.choice]);
  }

  lemma ThreeChanges(before: StateMap, after: StateMap, a: Text, b: Text, c: Text, x: Bytes, y: Bytes, z: Bytes)
    requires a != b && a != c && b != c
    requires after == before[a := x][b := y][c := z]
    requires a in before ==> before[a] != x
    requires b in before ==> before[b] != y
    requires c !in before
    ensures ChangedKeys(before, after) == {a, b, c}
    ensures |ChangedKeys(before, after)| == 3
  {
    assert ChangedKeys(before, after) == {a, b, c};
    assert |{a, b, c}| == 3;
  }
}
