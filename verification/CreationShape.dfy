/** src/contract_call_policy.h, lines 1066-1247: which transactions create a state
    root, which may be calls, and which are refused. */
module CreationShape {
  import opened ByteCodec
  import opened StateLimits
  import opened InitEnvelope
  import opened CallEnvelope
  import opened PushGrammar
  import opened CallShape
  import opened InitSchemas

  datatype Family = KvV1 | VotingV1 | TokenIssuerV1

  datatype Reason =
    | MalformedScript | ManyInits | InitHasValue | ManyCalls | CallHasValue | MalformedLock | ManyAnchors
    | UnsupportedAnchor | EmptyAnchor | OrphanInit | OrphanCall | MixedEnvelopes | ManyInputs | NoInit
    | WrongTarget | UnknownSchema | ExceedsLimits

  datatype Shape =
    | Refused(reason: Reason)
    | Ordinary
    | CallCandidate
    | Creation(family: Family, targetVout: nat, initVout: nat, envelope: Envelope, accounted: nat)

  // ---- what each output is ----

  datatype Kind = Disallowed | Plain | AnchorOut | InitOut(envelope: Envelope) | CallOut

  predicate IsOpReturn(script: Bytes) {
    |script| > 0 && script[0] == OP_RETURN
  }

  /** One output on its own: envelopes carry no value, an anchor is exactly OP_STORE
      OP_1 and carries some, and every other lock scans without touching state. */
  ghost function KindOf(out: TxOut): Kind {
    var decoded := DecodedScript(out.scriptPubKey);
    if decoded.None? then Disallowed
    else
      var script := decoded.value;
      if IsOpReturn(script) then
        if ParsedScript(script).Some? then
          (if out.amount == 0 then InitOut(ParsedScript(script).value) else Disallowed)
        else if ParsedCallScript(script).Some? then (if out.amount == 0 then CallOut else Disallowed)
        else Plain
      else if !ScanOf(script).valid then Disallowed
      else if !ScanOf(script).usesStateDomain then Plain
      else if IsStateAnchorScript(script) && out.amount != 0 then AnchorOut
      else Disallowed
  }

  ghost function KindAt(tx: Tx, i: nat): Kind
    requires i < |tx.vout|
  {
    KindOf(tx.vout[i])
  }

  ghost function Anchors(tx: Tx, n: nat): set<nat>
    requires n <= |tx.vout|
  {
    set i: nat | i < n && KindAt(tx, i).AnchorOut?
  }

  ghost function Inits(tx: Tx, n: nat): set<nat>
    requires n <= |tx.vout|
  {
    set i: nat | i < n && KindAt(tx, i).InitOut?
  }

  ghost function Calls(tx: Tx, n: nat): set<nat>
    requires n <= |tx.vout|
  {
    set i: nat | i < n && KindAt(tx, i).CallOut?
  }

  ghost predicate Clean(tx: Tx, n: nat)
    requires n <= |tx.vout|
  {
    forall i :: 0 <= i < n ==> !KindAt(tx, i).Disallowed?
  }

  // ---- what a transaction is ----

  /** The family an initial state belongs to; a single entry is always key/value. */
  ghost function FamilyOf(state: StateMap): Option<Family> {
    if |state| == 1 then Some(KvV1)
    else if IsVotingInit(state) then Some(VotingV1)
    else if IsTokenInit(state) then Some(TokenIssuerV1)
    else None
  }

  ghost predicate IsOrdinary(tx: Tx) {
    var n := |tx.vout|;
    Clean(tx, n) && Anchors(tx, n) == {} && Inits(tx, n) == {} && Calls(tx, n) == {}
  }

  ghost predicate IsCallCandidate(tx: Tx) {
    var n := |tx.vout|;
    Clean(tx, n) && |Anchors(tx, n)| == 1 && Inits(tx, n) == {} && |Calls(tx, n)| == 1
  }

  /** One creator input, one anchor, one TRUSTATE naming it, no TRUCALL, and an initial
      state of a known family. */
  ghost predicate IsCreation(tx: Tx, family: Family, target: nat, initVout: nat, e: Envelope, accounted: nat) {
    var n := |tx.vout|;
    && Clean(tx, n) && |tx.vin| == 1
    && Anchors(tx, n) == {target} && Inits(tx, n) == {initVout} && Calls(tx, n) == {}
    && initVout < n && KindAt(tx, initVout) == InitOut(e)
    && e.targetVout == target
    && FamilyOf(StateOf(e.entries)) == Some(family)
    && accounted == TotalBytes(StateOf(e.entries))
  }

  lemma ParsedEntriesValid(script: Bytes)
    requires ParsedScript(script).Some?
    ensures ValidEntries(ParsedScript(script).value.entries)
  {
    hide WithinLimits, StrictlySorted, ReadEntries, SinglePush, LeValue;
  }

  lemma OneKind(tx: Tx, i: nat)
    requires i < |tx.vout|
    ensures Anchors(tx, i + 1) == if KindAt(tx, i).AnchorOut? then Anchors(tx, i) + {i} else Anchors(tx, i)
    ensures Inits(tx, i + 1) == if KindAt(tx, i).InitOut? then Inits(tx, i) + {i} else Inits(tx, i)
    ensures Calls(tx, i + 1) == if KindAt(tx, i).CallOut? then Calls(tx, i) + {i} else Calls(tx, i)
    ensures i !in Anchors(tx, i) && i !in Inits(tx, i) && i !in Calls(tx, i)
  {
    hide KindOf;
  }

  lemma Pair(s: set<nat>, a: nat, b: nat)
    requires a in s && b in s && a != b
    ensures |s| > 1 && forall x: nat :: s != {x}
  {
    assert |s - {a}| > 0 by {
      assert b in s - {a};
    }
  }

  /** Not a creation, a call candidate or an ordinary transaction. */
  ghost predicate Refusable(tx: Tx) {
    && !IsOrdinary(tx) && !IsCallCandidate(tx)
    && forall f, t, v, e, a :: !IsCreation(tx, f, t, v, e, a)
  }

  lemma DisallowedRefuses(tx: Tx, i: nat)
    requires i < |tx.vout| && KindAt(tx, i).Disallowed?
    ensures Refusable(tx)
  {
    hide KindOf;
  }

  lemma SecondRefuses(tx: Tx, i: nat, j: nat)
    requires i < j < |tx.vout|
    requires (KindAt(tx, i).AnchorOut? && KindAt(tx, j).AnchorOut?)
             || (KindAt(tx, i).InitOut? && KindAt(tx, j).InitOut?)
             || (KindAt(tx, i).CallOut? && KindAt(tx, j).CallOut?)
    ensures Refusable(tx)
  {
    hide KindOf;
    var n := |tx.vout|;
    if KindAt(tx, i).AnchorOut? {
      Pair(Anchors(tx, n), i, j);
    } else if KindAt(tx, i).InitOut? {
      Pair(Inits(tx, n), i, j);
    } else {
      Pair(Calls(tx, n), i, j);
    }
  }

  datatype Outputs = Bad(reason: Reason) | Tally(anchor: Option<nat>, init: Option<(nat, Envelope)>, call: Option<nat>)

  ghost predicate Tallied(tx: Tx, n: nat, t: Outputs)
    requires n <= |tx.vout|
  {
    && t.Tally? && Clean(tx, n)
    && Anchors(tx, n) == (if t.anchor.Some? then {t.anchor.value} else {})
    && Inits(tx, n) == (if t.init.Some? then {t.init.value.0} else {})
    && Calls(tx, n) == (if t.call.Some? then {t.call.value} else {})
    && (t.init.Some? ==> t.init.value.0 < n && KindAt(tx, t.init.value.0) == InitOut(t.init.value.1))
  }

  /** What an output that decoded to this script is, one check at a time. */
  lemma KindSteps(out: TxOut, script: Bytes)
    requires DecodedScript(out.scriptPubKey) == Some(script)
    ensures IsOpReturn(script) && ParsedScript(script).Some? ==>
              ParsedCallScript(script).None?
              && KindOf(out) == if out.amount == 0 then InitOut(ParsedScript(script).value) else Disallowed
    ensures IsOpReturn(script) && ParsedScript(script).None? && ParsedCallScript(script).Some? ==>
              KindOf(out) == if out.amount == 0 then CallOut else Disallowed
    ensures IsOpReturn(script) && ParsedScript(script).None? && ParsedCallScript(script).None? ==> KindOf(out) == Plain
    ensures !IsOpReturn(script) && !ScanOf(script).valid ==> KindOf(out) == Disallowed
    ensures !IsOpReturn(script) && ScanOf(script).valid && !ScanOf(script).usesStateDomain ==> KindOf(out) == Plain
    ensures !IsOpReturn(script) && ScanOf(script).valid && ScanOf(script).usesStateDomain ==>
              KindOf(out) == if IsStateAnchorScript(script) && out.amount != 0 then AnchorOut else Disallowed
  {
    hide ParsedScript, ParsedCallScript, ScanOf, IsStateAnchorScript, DecodedScript;
    EnvelopesAreDisjoint(script);
  }

  /** The output loop. */
  method TallyOutputs(tx: Tx) returns (r: Outputs)
    ensures r.Tally? ==> Tallied(tx, |tx.vout|, r)
    ensures r.Bad? ==> Refusable(tx) && r.reason != ExceedsLimits
  {
    hide KindOf, DecodedScript, ParsedScript, ParsedCallScript, ScanOf, IsStateAnchorScript, Refusable;
    r := Tally(None, None, None);
    for i := 0 to |tx.vout|
      invariant Tallied(tx, i, r)
    {
      OneKind(tx, i);
      var decoded := DecodeScriptHexStrict(tx.vout[i].scriptPubKey);
      if decoded.None? {
        UndecodableIsDisallowed(tx.vout[i]);
        DisallowedRefuses(tx, i);
        return Bad(MalformedScript);
      }
      var script := decoded.value;
      KindSteps(tx.vout[i], script);
      if IsOpReturn(script) {
        var init := ParseOpReturnScript(script);
        if init.Some? {
          if r.init.Some? {
            if tx.vout[i].amount == 0 {
              SecondRefuses(tx, r.init.value.0, i);
            } else {
              DisallowedRefuses(tx, i);
            }
            return Bad(ManyInits);
          }
          if tx.vout[i].amount != 0 {
            DisallowedRefuses(tx, i);
            return Bad(InitHasValue);
          }
          r := r.(init := Some((i, init.value)));
        }
        if ParsedCallScript(script).Some? {
          if r.call.Some? {
            if tx.vout[i].amount == 0 {
              SecondRefuses(tx, r.call.value, i);
            } else {
              DisallowedRefuses(tx, i);
            }
            return Bad(ManyCalls);
          }
          if tx.vout[i].amount != 0 {
            DisallowedRefuses(tx, i);
            return Bad(CallHasValue);
          }
          r := r.(call := Some(i));
        }
        continue;
      }
      var scan := ScanStatefulContractScript(script);
      if !scan.valid {
        DisallowedRefuses(tx, i);
        return Bad(MalformedLock);
      }
      if !scan.usesStateDomain {
        continue;
      }
      if r.anchor.Some? {
        if IsStateAnchorScript(script) && tx.vout[i].amount != 0 {
          SecondRefuses(tx, r.anchor.value, i);
        } else {
          DisallowedRefuses(tx, i);
        }
        return Bad(ManyAnchors);
      }
      if !IsStateAnchorScript(script) {
        DisallowedRefuses(tx, i);
        return Bad(UnsupportedAnchor);
      }
      if tx.vout[i].amount == 0 {
        DisallowedRefuses(tx, i);
        return Bad(EmptyAnchor);
      }
      r := r.(anchor := Some(i));
    }
  }

  lemma UndecodableIsDisallowed(out: TxOut)
    requires DecodedScript(out.scriptPubKey).None?
    ensures KindOf(out) == Disallowed
  {
  }

  lemma InitIsValid(tx: Tx, i: nat)
    requires i < |tx.vout| && KindAt(tx, i).InitOut?
    ensures ValidEntries(KindAt(tx, i).envelope.entries)
  {
    hide ParsedScript, ParsedCallScript, ScanOf, IsStateAnchorScript, DecodedScript, ValidEntries;
    ParsedEntriesValid(DecodedScript(tx.vout[i].scriptPubKey).value);
  }

  /** The map that emplacing the entries builds (the first entry of a key wins). */
  method InitialState(entries: seq<Entry>) returns (state: StateMap)
    requires StrictlySorted(entries)
    ensures state == StateOf(entries)
  {
    state := map[];
    for i := 0 to |entries|
      invariant state == StateOf(entries[..i])
    {
      PrefixStep(entries, i);
      FreshKey(entries, i);
      if entries[i].key !in state {
        state := state[entries[i].key := entries[i].value];
      }
    }
    assert entries[..|entries|] == entries;
  }

  /** ValidateStatefulCreationShape: an exact three-way classification. Its last
      check, the resource limits, never fails, because the envelope's own entries
      were already measured one write at a time. */
  method ValidateStatefulCreationShape(tx: Tx) returns (r: Shape)
    ensures r.Ordinary? <==> IsOrdinary(tx)
    ensures r.CallCandidate? <==> IsCallCandidate(tx)
    ensures r.Creation? ==> IsCreation(tx, r.family, r.targetVout, r.initVout, r.envelope, r.accounted)
    ensures r.Refused? ==> Refusable(tx)
    ensures r != Refused(ExceedsLimits)
  {
    hide KindOf;
    var outputs := TallyOutputs(tx);
    if outputs.Bad? {
      return Refused(outputs.reason);
    }
    if outputs.anchor.None? {
      if outputs.init.Some? {
        return Refused(OrphanInit);
      } else if outputs.call.Some? {
        return Refused(OrphanCall);
      }
      return Ordinary;
    }
    if outputs.call.Some? {
      if outputs.init.Some? {
        return Refused(MixedEnvelopes);
      }
      return CallCandidate;
    }
    if |tx.vin| != 1 {
      return Refused(ManyInputs);
    }
    if outputs.init.None? {
      return Refused(NoInit);
    }
    var (initVout, e) := outputs.init.value;
    if e.targetVout != outputs.anchor.value {
      return Refused(WrongTarget);
    }
    InitIsValid(tx, initVout);
    StateOfSize(e.entries);
    FirstIsState(e.entries);
    ghost var state := StateOf(e.entries);
    var family := KvV1;
    if |e.entries| != 1 {
      var voting := IsCanonicalVotingV1InitEnvelope(e);
      if voting {
        family := VotingV1;
      } else {
        var token := IsCanonicalTokenIssuerV1InitEnvelope(e);
        if !token {
          assert FamilyOf(state) == None;
          return Refused(UnknownSchema);
        }
        family := TokenIssuerV1;
      }
    }
    var initialState := InitialState(e.entries);
    var accounted := MeasureStateBytes(initialState);
    if accounted.None? {
      assert false;
      return Refused(ExceedsLimits);
    }
    return Creation(family, outputs.anchor.value, initVout, e, accounted.value);
  }

  /** The accepted creation state is within the limits and not empty. */
  lemma CreationStateValid(tx: Tx, family: Family, target: nat, initVout: nat, e: Envelope, accounted: nat)
    requires IsCreation(tx, family, target, initVout, e, accounted)
    ensures ValidEntries(e.entries) && e.entries != []
    ensures WithinLimits(StateOf(e.entries)) && StateOf(e.entries) != map[]
  {
    hide KindOf;
    InitIsValid(tx, initVout);
    assert StateOf([]) == map[] && |StateOf([])| == 0;
    assert FamilyOf(map[]) == None;
  }
}
