/** Token Issuer V1 over whole runs: a creation followed by any sequence of accepted
    purchases along the chain of anchors. */
module TokenRuns {
  import opened ByteCodec
  import opened MapSums
  import opened StateLimits
  import opened InitEnvelope
  import opened CallEnvelope
  import opened CallShape
  import opened ContractVm
  import opened CreationShape
  import opened InitSchemas
  import opened StateDomain
  import opened TokenIssuer

  /** A confirmed issuer and the amount locked in its live anchor. */
  datatype Issuer = Issuer(snapshot: Snapshot, amount: nat)

  datatype Buy = Buy(tx: Tx, call: Call, anchorHex: Text, hash160: Text, address: Text,
                     gasLimit: nat, vm: StateMap -> VmResult, continuation: Text)

  /** One confirmed purchase: the transaction has the call shape against the live
      anchor's amount, execution accepts it, and the block commits its state. */
  ghost predicate Accepts(a: Issuer, b: Buy, sha: Bytes -> Hash32) {
    && a.amount <= U64_MAX
    && IsCall(b.tx, 0, b.anchorHex, a.amount, sha, b.call)
    && Purchasable(a.snapshot, b.call, b.hash160, b.address)
    && VmKept(b.vm, a.snapshot.state, AfterPurchase(a.snapshot.state, b.hash160, Minted(a, b)),
              BalanceKey(b.hash160), b.gasLimit)
  }

  ghost function Minted(a: Issuer, b: Buy): nat
    requires HasTokenCore(a.snapshot.state)
  {
    b.call.callValue * Rate(a.snapshot.state)
  }

  ghost function Next(a: Issuer, b: Buy, sha: Bytes -> Hash32): Issuer
    requires Accepts(a, b, sha)
  {
    var after := AfterPurchase(a.snapshot.state, b.hash160, Minted(a, b));
    Issuer(Continued(a.snapshot, after, b.continuation, TotalBytes(after)), b.tx.vout[b.call.continuationVout].amount)
  }

  /** last follows from first by the purchases, in order. */
  ghost predicate Run(first: Issuer, buys: seq<Buy>, last: Issuer, sha: Bytes -> Hash32)
    decreases |buys|
  {
    if buys == [] then last == first
    else Accepts(first, buys[0], sha) && Run(Next(first, buys[0], sha), buys[1..], last, sha)
  }

  /** What all buyers, and one buyer, paid in: only anchor growth counts. */
  function Paid(buys: seq<Buy>): nat {
    if buys == [] then 0 else buys[0].call.callValue + Paid(buys[1..])
  }

  function PaidBy(buys: seq<Buy>, hash160: Text): nat {
    if buys == [] then 0
    else (if buys[0].hash160 == hash160 then buys[0].call.callValue else 0) + PaidBy(buys[1..], hash160)
  }

  lemma AcceptsFacts(a: Issuer, b: Buy, sha: Bytes -> Hash32)
    requires Accepts(a, b, sha)
    ensures TokenState(a.snapshot.state) && a.snapshot.family == TOKEN_FAMILY && IsLowerHash160(b.hash160)
    ensures b.call.callValue > 0
    ensures Issued(a.snapshot.state) + Minted(a, b) <= U64_MAX
    ensures MaxSupply(a.snapshot.state) != 0 ==> Issued(a.snapshot.state) + Minted(a, b) <= MaxSupply(a.snapshot.state)
    ensures WithinLimits(AfterPurchase(a.snapshot.state, b.hash160, Minted(a, b)))
  {
    hide IsCall, TokenState, LeValue, Balances, IsTokenName, WithinLimits, IsLowerHash160, BalanceKey;
  }

  lemma StepFacts(a: Issuer, b: Buy, sha: Bytes -> Hash32)
    requires Accepts(a, b, sha)
    ensures HasTokenCore(a.snapshot.state) && HasTokenCore(Next(a, b, sha).snapshot.state)
    ensures var n := Next(a, b, sha);
            && TokenState(n.snapshot.state)
            && n.snapshot.family == TOKEN_FAMILY
            && Issued(n.snapshot.state) == Issued(a.snapshot.state) + b.call.callValue * Rate(a.snapshot.state)
            && Rate(n.snapshot.state) == Rate(a.snapshot.state)
            && MaxSupply(n.snapshot.state) == MaxSupply(a.snapshot.state)
            && n.snapshot.state[TOKEN_NAME] == a.snapshot.state[TOKEN_NAME]
            && n.snapshot.root == a.snapshot.root
            && n.amount == a.amount + b.call.callValue
            && WithinLimits(n.snapshot.state)
  {
    AcceptsFacts(a, b, sha);
    ContinuationIsAnchor(b.tx, 0, b.anchorHex, a.amount, sha, b.call);
    StateHasCore(a.snapshot.state);
    hide IsCall, Purchasable, VmKept, TokenState, WithinLimits, AfterPurchase, IsLowerHash160, Rate, Issued, MaxSupply;
    PurchaseKeepsLedger(a.snapshot.state, b.hash160, Minted(a, b));
    StateHasCore(AfterPurchase(a.snapshot.state, b.hash160, Minted(a, b)));
  }

  lemma StepBalance(a: Issuer, b: Buy, sha: Bytes -> Hash32, hash160: Text)
    requires Accepts(a, b, sha) && IsLowerHash160(hash160)
    ensures HasTokenCore(a.snapshot.state)
    ensures BalanceOf(Next(a, b, sha).snapshot.state, hash160)
         == BalanceOf(a.snapshot.state, hash160)
            + (if b.hash160 == hash160 then b.call.callValue else 0) * Rate(a.snapshot.state)
  {
    AcceptsFacts(a, b, sha);
    StateHasCore(a.snapshot.state);
    hide IsCall, Purchasable, VmKept, TokenState, WithinLimits, AfterPurchase, IsLowerHash160, Rate, BalanceOf;
    if b.hash160 == hash160 {
      PurchaseKeepsLedger(a.snapshot.state, hash160, Minted(a, b));
    } else {
      PurchaseLeavesOthers(a.snapshot.state, b.hash160, Minted(a, b), hash160);
    }
  }

  /** Every run keeps the ledger and its immutable fields, and issues exactly the rate
      times what the anchor gained. */
  lemma {:induction false} RunConserves(first: Issuer, buys: seq<Buy>, last: Issuer, sha: Bytes -> Hash32)
    requires TokenState(first.snapshot.state) && WithinLimits(first.snapshot.state)
    requires Run(first, buys, last, sha)
    ensures TokenState(last.snapshot.state) && WithinLimits(last.snapshot.state)
    ensures HasTokenCore(first.snapshot.state) && HasTokenCore(last.snapshot.state)
    ensures Rate(last.snapshot.state) == Rate(first.snapshot.state)
    ensures MaxSupply(last.snapshot.state) == MaxSupply(first.snapshot.state)
    ensures last.snapshot.state[TOKEN_NAME] == first.snapshot.state[TOKEN_NAME]
    ensures last.amount == first.amount + Paid(buys)
    ensures Issued(last.snapshot.state) == Issued(first.snapshot.state) + Rate(first.snapshot.state) * Paid(buys)
    decreases |buys|
  {
    hide Accepts, TokenState, WithinLimits, Next, HasTokenCore, Rate, Issued, MaxSupply;
    StateHasCore(first.snapshot.state);
    if buys != [] {
      var next := Next(first, buys[0], sha);
      StepFacts(first, buys[0], sha);
      RunConserves(next, buys[1..], last, sha);
      var rate := Rate(first.snapshot.state);
      Distribute(rate, buys[0].call.callValue, Paid(buys[1..]));
    }
  }

  lemma StateHasCore(state: StateMap)
    requires TokenState(state)
    ensures HasTokenCore(state)
  {
  }

  lemma Distribute(r: nat, a: nat, b: nat)
    ensures r * (a + b) == a * r + r * b
  {
  }

  lemma {:induction false} RunBalances(first: Issuer, buys: seq<Buy>, last: Issuer, sha: Bytes -> Hash32, hash160: Text)
    requires TokenState(first.snapshot.state) && IsLowerHash160(hash160)
    requires Run(first, buys, last, sha)
    ensures HasTokenCore(first.snapshot.state)
    ensures BalanceOf(last.snapshot.state, hash160)
         == BalanceOf(first.snapshot.state, hash160) + Rate(first.snapshot.state) * PaidBy(buys, hash160)
    decreases |buys|
  {
    hide Accepts, TokenState, WithinLimits, Next, HasTokenCore, Rate, BalanceOf, IsLowerHash160;
    StateHasCore(first.snapshot.state);
    if buys != [] {
      var next := Next(first, buys[0], sha);
      StepFacts(first, buys[0], sha);
      StepBalance(first, buys[0], sha, hash160);
      RunBalances(next, buys[1..], last, sha, hash160);
      var rate := Rate(first.snapshot.state);
      var mine := if buys[0].hash160 == hash160 then buys[0].call.callValue else 0;
      Distribute(rate, mine, PaidBy(buys[1..], hash160));
    }
  }

  /** A canonical creation is an issuer with an empty ledger. */
  lemma InitIsTokenState(state: StateMap)
    requires IsTokenInit(state)
    ensures TokenState(state) && Issued(state) == 0
    ensures forall h: Text :: IsLowerHash160(h) ==> BalanceOf(state, h) == 0
  {
    hide LeValue, IsTokenName, IsLowerHash160;
    assert Balances(state) == map[];
    forall h: Text | IsLowerHash160(h) ensures BalanceOf(state, h) == 0 {
      BalanceKeysOfHashes(h, h);
    }
  }

  ghost predicate CreatedIssuer(tx: Tx, target: nat, initVout: nat, e: Envelope, accounted: nat, first: Issuer) {
    && IsCreation(tx, CreationShape.TokenIssuerV1, target, initVout, e, accounted)
    && first.snapshot.state == StateOf(e.entries) && first.snapshot.family == TOKEN_FAMILY
    && target < |tx.vout| && first.amount == tx.vout[target].amount
  }

  lemma CreatedIsLedger(tx: Tx, target: nat, initVout: nat, e: Envelope, accounted: nat, first: Issuer)
    requires CreatedIssuer(tx, target, initVout, e, accounted, first)
    ensures TokenState(first.snapshot.state) && WithinLimits(first.snapshot.state)
    ensures HasTokenCore(first.snapshot.state) && Issued(first.snapshot.state) == 0
    ensures forall h: Text :: IsLowerHash160(h) ==> BalanceOf(first.snapshot.state, h) == 0
  {
    hide WithinLimits, IsTokenInit, IsLowerHash160, BalanceOf, IsVotingInit, Clean, KindOf, TokenState, Anchors, Inits, Calls;
    CreationStateValid(tx, CreationShape.TokenIssuerV1, target, initVout, e, accounted);
    InitIsTokenState(first.snapshot.state);
    StateHasCore(first.snapshot.state);
  }

  lemma LedgerFacts(state: StateMap)
    requires TokenState(state)
    ensures HasTokenCore(state) && Issued(state) == Sum(Balances(state)) && Issued(state) <= U64_MAX
    ensures MaxSupply(state) != 0 ==> Issued(state) <= MaxSupply(state)
  {
    U64Bound(state, TOTAL_ISSUED);
  }

  /** Conservation from creation: whatever happens along the chain of anchors,
      total_issued = the sum of all balances = rate x (anchor amount - root amount),
      every buyer holds rate x what that buyer paid, and the cap holds. */
  lemma IssuanceIsConserved(tx: Tx, target: nat, initVout: nat, e: Envelope, accounted: nat,
                            first: Issuer, buys: seq<Buy>, last: Issuer, sha: Bytes -> Hash32)
    requires CreatedIssuer(tx, target, initVout, e, accounted, first)
    requires Run(first, buys, last, sha)
    ensures HasTokenCore(last.snapshot.state) && HasTokenCore(first.snapshot.state)
    ensures first.amount <= last.amount
    ensures Issued(last.snapshot.state) == Sum(Balances(last.snapshot.state))
         == Rate(first.snapshot.state) * (last.amount - first.amount)
    ensures Issued(last.snapshot.state) <= U64_MAX
    ensures forall h :: IsLowerHash160(h) ==>
              BalanceOf(last.snapshot.state, h) == Rate(first.snapshot.state) * PaidBy(buys, h)
    ensures MaxSupply(first.snapshot.state) != 0 ==> Issued(last.snapshot.state) <= MaxSupply(first.snapshot.state)
    ensures Rate(last.snapshot.state) == Rate(first.snapshot.state)
  {
    hide CreatedIssuer, WithinLimits, Run, HasTokenCore, Rate, MaxSupply, Issued, BalanceOf, IsLowerHash160, TokenState;
    hide Sum, Balances, Paid, PaidBy;
    CreatedIsLedger(tx, target, initVout, e, accounted, first);
    RunConserves(first, buys, last, sha);
    LedgerFacts(last.snapshot.state);
    assert last.amount - first.amount == Paid(buys);
    forall h | IsLowerHash160(h)
      ensures BalanceOf(last.snapshot.state, h) == Rate(first.snapshot.state) * PaidBy(buys, h)
    {
      RunBalances(first, buys, last, sha, h);
    }
  }

  /** The commit loop of applyBlock always finds exactly two changed keys. */
  lemma PurchaseChangesTwoKeys(a: Issuer, b: Buy, sha: Bytes -> Hash32)
    requires Accepts(a, b, sha)
    ensures var after := Next(a, b, sha).snapshot.state;
            && ChangedKeys(a.snapshot.state, after) == {TOTAL_ISSUED, BalanceKey(b.hash160)}
            && |ChangedKeys(a.snapshot.state, after)| == 2
  {
    hide IsCall, TokenState, LeValue, Balances, IsTokenName, VmKept, IsLowerHash160, Rate;
    TokenStateFacts(a.snapshot.state);
    MintedPositive(a, b, sha);
    var before, after := a.snapshot.state, Next(a, b, sha).snapshot.state;
    PurchaseIsDelta(before, b.hash160, Minted(a, b));
    BalanceKeysOfHashes(b.hash160, b.hash160);
    hide BalanceKey, IsBalanceKey, TokenCoreKeys;
    assert ChangedKeys(before, after) == {TOTAL_ISSUED, BalanceKey(b.hash160)};
  }

  lemma MintedPositive(a: Issuer, b: Buy, sha: Bytes -> Hash32)
    requires Accepts(a, b, sha)
    ensures Minted(a, b) > 0
  {
    hide IsCall, LeValue, Balances, IsTokenName, VmKept, IsLowerHash160;
    TokenStateFacts(a.snapshot.state);
    MulMono(1, b.call.callValue, Rate(a.snapshot.state));
  }
}
