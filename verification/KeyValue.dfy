/** src/contract_state_runtime.h, lines 235-312, with the owner check of applyBlock
    (src/blockchain.cpp, lines 18762-18767): the key/value family. */
module KeyValue {
  import opened ByteCodec
  import opened StateLimits
  import CallEnvelope
  import opened CallShape
  import opened ContractVm
  import opened PushGrammar
  import opened StateDomain

  datatype KvError =
    | BadParameters | NoContext | Payable | VmRefused | GasExceeded | NotCommitted | OverLimits | NotOwner

  datatype Written = Refused(error: KvError) | Wrote(state: StateMap, gasUsed: nat)

  /** The call's own conditions. */
  ghost predicate Writable(tx: Tx, call: Call, script: Bytes, s: Snapshot, address: Text) {
    && |tx.vin| == 2 && call.continuationVout < |tx.vout| && IsStateAnchorScript(script)
    && s.root != [] && s.current != [] && address != []
    && call.callValue == 0
  }

  /** ExecuteStatefulKvV1Call, exact for any machine; with a machine that makes the one
      write, the call changes that key, and neither check after it ever refuses. */
  method ExecuteStatefulKvV1Call(tx: Tx, call: Call, script: Bytes, s: Snapshot, address: Text, gasLimit: U64, vm: Vm)
    returns (r: Written)
    ensures r.Wrote? <==>
              && Writable(tx, call, script, s, address)
              && vm(s.state).VmDone? && vm(s.state).gasUsed <= gasLimit
              && call.logicalKey in vm(s.state).state && vm(s.state).state[call.logicalKey] == call.value
              && WithinLimits(vm(s.state).state)
    ensures r.Wrote? ==> r == Wrote(vm(s.state).state, vm(s.state).gasUsed)
    ensures IsOneStore(vm, call.logicalKey, call.value) ==>
              && (r.Wrote? ==> r.state == s.state[call.logicalKey := call.value])
              && (r.Refused? ==> r.error != NotCommitted && r.error != OverLimits)
  {
    hide WithinLimits;
    if |tx.vin| != 2 || call.continuationVout >= |tx.vout| || !IsStateAnchorScript(script) {
      return Refused(BadParameters);
    }
    if s.root == [] || s.current == [] || address == [] {
      return Refused(NoContext);
    }
    if call.callValue != 0 {
      return Refused(Payable);
    }
    var done := vm(s.state);
    if done.VmFailed? {
      return Refused(VmRefused);
    }
    if done.gasUsed > gasLimit {
      return Refused(GasExceeded);
    }
    if call.logicalKey !in done.state || done.state[call.logicalKey] != call.value {
      return Refused(NotCommitted);
    }
    var accounted := MeasureStateBytes(done.state);
    if accounted.None? {
      return Refused(OverLimits);
    }
    return Wrote(done.state, done.gasUsed);
  }

  /** What a write leaves locked in the anchor: as much as before. */
  lemma WriteKeepsAmount(tx: Tx, inputIndex: nat, anchorHex: Text, locked: U64, sha: Bytes -> CallEnvelope.Hash32,
                         call: Call, script: Bytes, s: Snapshot, address: Text)
    requires IsCall(tx, inputIndex, anchorHex, locked, sha, call) && Writable(tx, call, script, s, address)
    ensures call.continuationVout < |tx.vout| && tx.vout[call.continuationVout].amount == locked
  {
    hide DecodedUnlock, CallOutputs, CommitmentBinds, AnchorSpend, IsStateAnchorScript;
  }

  // ---- runs ----

  datatype Write = Write(tx: Tx, call: Call, script: Bytes, caller: Text, address: Text, vm: Vm, continuation: Text)

  /** The owner's confirmed call through a machine that makes the one write. */
  ghost predicate Accepts(s: Snapshot, w: Write) {
    && s.family == KV_FAMILY && w.caller == s.ownerHash160
    && Writable(w.tx, w.call, w.script, s, w.address)
    && IsOneStore(w.vm, w.call.logicalKey, w.call.value)
    && w.vm(s.state).VmDone?
    && w.continuation != []
  }

  ghost function Next(s: Snapshot, w: Write): Snapshot
    requires Accepts(s, w)
  {
    var after := w.vm(s.state).state;
    Continued(s, after, w.continuation, TotalBytes(after))
  }

  ghost predicate Run(first: Snapshot, writes: seq<Write>, last: Snapshot)
    decreases |writes|
  {
    if writes == [] then last == first
    else Accepts(first, writes[0]) && Run(Next(first, writes[0]), writes[1..], last)
  }

  /** The state that a plain list of assignments builds. */
  function Assigned(state: StateMap, writes: seq<Write>): StateMap
    decreases |writes|
  {
    if writes == [] then state
    else Assigned(state[writes[0].call.logicalKey := writes[0].call.value], writes[1..])
  }

  /** Every run is exactly its owner's assignments, in order, within the limits; no key
      is ever removed. */
  lemma {:induction false} RunIsAssignments(first: Snapshot, writes: seq<Write>, last: Snapshot)
    requires Run(first, writes, last) && WithinLimits(first.state)
    ensures last.state == Assigned(first.state, writes) && WithinLimits(last.state)
    ensures first.state.Keys <= last.state.Keys
    ensures last.root == first.root && last.ownerHash160 == first.ownerHash160
    ensures forall i :: 0 <= i < |writes| ==> writes[i].caller == first.ownerHash160
    decreases |writes|
  {
    hide WithinLimits, Writable;
    if writes != [] {
      RunIsAssignments(Next(first, writes[0]), writes[1..], last);
    }
  }

  /** A commit of an accepted write changes at most its one key. */
  lemma WriteChangesOneKey(s: Snapshot, w: Write)
    requires Accepts(s, w)
    ensures ChangedKeys(s.state, Next(s, w).state) <= {w.call.logicalKey}
    ensures w.call.logicalKey in Next(s, w).state && Next(s, w).state[w.call.logicalKey] == w.call.value
  {
    hide WithinLimits, Writable;
  }
}
