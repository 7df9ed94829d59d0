/** The whole contract-state engine over one durable database: any interleaving of
    creations, purchases, ballots and key/value writes on any number of roots. */
module ConfirmedChain {
  import opened ByteCodec
  import opened StateLimits
  import opened InitEnvelope
  import opened CallEnvelope
  import opened CallShape
  import opened CreationShape
  import opened Lineage
  import opened StateDomain
  import opened TokenIssuer
  import opened Voting
  import T = TokenRuns
  import V = VotingRuns
  import K = KeyValue

  /** The database, the snapshot that each root loads, and the amounts locked in each
      root's first and live anchors. */
  datatype Chain = Chain(db: Db, ledger: Ledger, born: map<Text, nat>, amount: map<Text, nat>)

  datatype Event =
    | Birth(tx: Tx, family: Family, target: nat, initVout: nat, e: Envelope, root: Text, owner: Text)
    | Purchase(root: Text, buy: T.Buy)
    | Poll(root: Text, vote: V.Vote)
    | Assignment(root: Text, write: K.Write)

  const EMPTY: Chain := Chain(map[], map[], map[], map[])

  function FamilyName(f: Family): Text {
    match f
    case KvV1 => KV_FAMILY
    case VotingV1 => VOTING_FAMILY
    case TokenIssuerV1 => TOKEN_FAMILY
  }

  /** The database moves from snapshot s to its continuation n, and the books follow. */
  ghost predicate Rolled(c: Chain, d: Chain, s: Snapshot, n: Snapshot, amount: nat) {
    && (exists keys :: CommitSetting(c.db, d.db, s, n.state, n.current, keys))
    && d == Chain(d.db, c.ledger[s.root := n], c.born, c.amount[s.root := amount])
  }

  /** One confirmed event: execution accepted it on the snapshot that the live anchor
      loads, and the block committed its state. */
  ghost predicate Step(c: Chain, ev: Event, d: Chain, sha: Bytes -> Hash32) {
    match ev
    case Birth(tx, family, target, initVout, e, root, owner) =>
      var state := StateOf(e.entries);
      && target < |tx.vout|
      && IsCreation(tx, family, target, initVout, e, TotalBytes(state))
      && CreateSetting(c.db, d.db, root, owner, FamilyName(family), state)
      && var amount := tx.vout[target].amount;
         d == Chain(d.db, c.ledger[root := Born(root, owner, FamilyName(family), state, TotalBytes(state))],
                    c.born[root := amount], c.amount[root := amount])
    case Purchase(root, b) =>
      && root in c.ledger && root in c.amount
      && var a := T.Issuer(c.ledger[root], c.amount[root]);
         T.Accepts(a, b, sha) && Rolled(c, d, a.snapshot, T.Next(a, b, sha).snapshot, T.Next(a, b, sha).amount)
    case Poll(root, v) =>
      && root in c.ledger && root in c.amount
      && var s := c.ledger[root];
         V.Accepts(s, v) && Rolled(c, d, s, V.Next(s, v), c.amount[root])
    case Assignment(root, w) =>
      && root in c.ledger && root in c.amount
      && var s := c.ledger[root];
         K.Accepts(s, w) && Rolled(c, d, s, K.Next(s, w), c.amount[root])
  }

  ghost predicate Run(c: Chain, history: seq<Event>, d: Chain, sha: Bytes -> Hash32)
    decreases |history|
  {
    if history == [] then c == d
    else exists m :: Step(c, history[0], m, sha) && Run(m, history[1..], d, sha)
  }

  /** What one root's state always satisfies, whatever family it belongs to. */
  ghost predicate SoundRoot(s: Snapshot, born: nat, amount: nat) {
    && WithinLimits(s.state) && s.accounted == TotalBytes(s.state)
    && (s.family == VOTING_FAMILY ==> VotingState(s.state))
    && (s.family == TOKEN_FAMILY ==>
          && TokenState(s.state) && HasTokenCore(s.state) && born <= amount
          && Issued(s.state) == Rate(s.state) * (amount - born))
  }

  ghost predicate Sound(c: Chain) {
    && Represents(c.db, c.ledger)
    && c.ledger.Keys == c.born.Keys == c.amount.Keys
    && forall root :: root in c.ledger ==> SoundRoot(c.ledger[root], c.born[root], c.amount[root])
  }

  lemma EmptyIsSound()
    ensures Sound(EMPTY)
  {
    EmptyRepresents();
  }

  lemma BirthIsSound(c: Chain, d: Chain, tx: Tx, family: Family, target: nat, initVout: nat, e: Envelope, root: Text, owner: Text)
    requires Sound(c) && target < |tx.vout|
    requires IsCreation(tx, family, target, initVout, e, TotalBytes(StateOf(e.entries)))
    requires CreateSetting(c.db, d.db, root, owner, FamilyName(family), StateOf(e.entries))
    requires d.ledger == c.ledger[root := Born(root, owner, FamilyName(family), StateOf(e.entries), TotalBytes(StateOf(e.entries)))]
    requires d.born == c.born[root := tx.vout[target].amount] && d.amount == c.amount[root := tx.vout[target].amount]
    ensures Sound(d)
  {
    hide IsCreation, CreateSetting, Represents, SoundRoot, TotalBytes, StateOf, FamilyName, LoadedFrom, WithinLimits;
    NewRootIsSound(tx, family, target, initVout, e, d.ledger[root], tx.vout[target].amount);
    CreateRefines(c.db, d.db, c.ledger, root, owner, FamilyName(family), StateOf(e.entries));
  }

  lemma NewRootIsSound(tx: Tx, family: Family, target: nat, initVout: nat, e: Envelope, s: Snapshot, amount: nat)
    requires IsCreation(tx, family, target, initVout, e, TotalBytes(StateOf(e.entries)))
    requires s.state == StateOf(e.entries) && s.family == FamilyName(family) && s.accounted == TotalBytes(s.state)
    requires target < |tx.vout| && amount == tx.vout[target].amount
    ensures SoundRoot(s, amount, amount)
  {
    hide IsCreation, WithinLimits, TokenState, VotingState, StateOf, TotalBytes, HasTokenCore, Rate, Issued;
    CreationStateValid(tx, family, target, initVout, e, TotalBytes(s.state));
    match family {
      case KvV1 =>
      case VotingV1 =>
        V.CreatedIsPoll(tx, target, initVout, e, TotalBytes(s.state), s);
      case TokenIssuerV1 =>
        T.CreatedIsLedger(tx, target, initVout, e, TotalBytes(s.state), T.Issuer(s, amount));
    }
  }

  /** Rolling one root to a sound continuation keeps the whole chain sound. */
  lemma RolledIsSound(c: Chain, d: Chain, s: Snapshot, n: Snapshot, amount: nat)
    requires Sound(c) && s.root in c.ledger && c.ledger[s.root] == s
    requires Rolled(c, d, s, n, amount) && n == Continued(s, n.state, n.current, TotalBytes(n.state))
    requires SoundRoot(n, c.born[s.root], amount)
    ensures Sound(d)
  {
    hide CommitSetting, Represents, SoundRoot, TotalBytes;
    var keys :| CommitSetting(c.db, d.db, s, n.state, n.current, keys);
    CommitRefines(c.db, d.db, c.ledger, s, n.state, n.current, keys);
  }

  lemma LedgerRoot(c: Chain, root: Text)
    requires Sound(c) && root in c.ledger
    ensures c.ledger[root].root == root
  {
    hide SoundRoot, LoadedFrom, StateIsRegistered;
  }

  lemma PurchaseIsSound(c: Chain, d: Chain, root: Text, b: T.Buy, sha: Bytes -> Hash32)
    requires Sound(c) && root in c.ledger
    requires T.Accepts(T.Issuer(c.ledger[root], c.amount[root]), b, sha)
    requires var n := T.Next(T.Issuer(c.ledger[root], c.amount[root]), b, sha); Rolled(c, d, c.ledger[root], n.snapshot, n.amount)
    ensures Sound(d)
  {
    hide Represents, LoadedFrom, T.Accepts, T.Next, TokenState, WithinLimits, Rolled, Rate, Issued, MaxSupply, TotalBytes, HasTokenCore,
      VotingState, CommitSetting;
    var a := T.Issuer(c.ledger[root], c.amount[root]);
    LedgerRoot(c, root);
    T.StepFacts(a, b, sha);
    PurchaseContinues(a, b, sha);
    T.Distribute(Rate(a.snapshot.state), a.amount - c.born[root], b.call.callValue);
    RolledIsSound(c, d, a.snapshot, T.Next(a, b, sha).snapshot, T.Next(a, b, sha).amount);
  }

  lemma PurchaseContinues(a: T.Issuer, b: T.Buy, sha: Bytes -> Hash32)
    requires T.Accepts(a, b, sha)
    ensures a.snapshot.family == TOKEN_FAMILY
    ensures var n := T.Next(a, b, sha).snapshot; n == Continued(a.snapshot, n.state, n.current, TotalBytes(n.state))
  {
    hide WithinLimits, TokenState, IsCall, AfterPurchase, TotalBytes;
  }

  lemma PollIsSound(c: Chain, d: Chain, root: Text, v: V.Vote)
    requires Sound(c) && root in c.ledger && V.Accepts(c.ledger[root], v)
    requires Rolled(c, d, c.ledger[root], V.Next(c.ledger[root], v), c.amount[root])
    ensures Sound(d)
  {
    hide Represents, LoadedFrom, V.Accepts, V.Next, VotingState, WithinLimits, Rolled, TotalBytes, CommitSetting,
      TokenState, HasTokenCore, Rate, Issued, AfterBallot;
    var s := c.ledger[root];
    LedgerRoot(c, root);
    V.StepFacts(s, v);
    BallotContinues(s, v);
    RolledIsSound(c, d, s, V.Next(s, v), c.amount[root]);
  }

  lemma BallotContinues(s: Snapshot, v: V.Vote)
    requires V.Accepts(s, v)
    ensures var n := V.Next(s, v); n == Continued(s, n.state, n.current, TotalBytes(n.state))
  {
    hide WithinLimits, VotingState, TotalBytes;
  }

  lemma AssignmentIsSound(c: Chain, d: Chain, root: Text, w: K.Write)
    requires Sound(c) && root in c.ledger && K.Accepts(c.ledger[root], w)
    requires Rolled(c, d, c.ledger[root], K.Next(c.ledger[root], w), c.amount[root])
    ensures Sound(d)
  {
    hide Represents, LoadedFrom, K.Accepts, K.Next, WithinLimits, Rolled, TotalBytes, CommitSetting,
      TokenState, HasTokenCore, Rate, Issued, VotingState;
    var s := c.ledger[root];
    LedgerRoot(c, root);
    WriteContinues(s, w);
    RolledFits(c, d, s, K.Next(s, w), c.amount[root]);
    RolledIsSound(c, d, s, K.Next(s, w), c.amount[root]);
  }

  lemma WriteContinues(s: Snapshot, w: K.Write)
    requires K.Accepts(s, w)
    ensures s.family == KV_FAMILY
    ensures var n := K.Next(s, w); n == Continued(s, n.state, n.current, TotalBytes(n.state))
  {
    hide WithinLimits, TotalBytes;
  }

  lemma RolledFits(c: Chain, d: Chain, s: Snapshot, n: Snapshot, amount: nat)
    requires Rolled(c, d, s, n, amount)
    ensures WithinLimits(n.state)
  {
    hide WithinLimits, LoadedFrom, CallCommitted;
  }

  lemma StepIsSound(c: Chain, ev: Event, d: Chain, sha: Bytes -> Hash32)
    requires Sound(c) && Step(c, ev, d, sha)
    ensures Sound(d)
  {
    hide Sound, IsCreation, CreateSetting, Rolled, T.Accepts, T.Next, V.Accepts, V.Next, K.Accepts, K.Next, TotalBytes, StateOf, FamilyName;
    match ev {
      case Birth(tx, family, target, initVout, e, root, owner) =>
        BirthIsSound(c, d, tx, family, target, initVout, e, root, owner);
      case Purchase(root, b) => PurchaseIsSound(c, d, root, b, sha);
      case Poll(root, v) => PollIsSound(c, d, root, v);
      case Assignment(root, w) => AssignmentIsSound(c, d, root, w);
    }
  }

  lemma {:induction false} RunIsSound(c: Chain, history: seq<Event>, d: Chain, sha: Bytes -> Hash32)
    requires Sound(c) && Run(c, history, d, sha)
    ensures Sound(d)
    decreases |history|
  {
    hide Sound, Step;
    if history != [] {
      var m :| Step(c, history[0], m, sha) && Run(m, history[1..], d, sha);
      StepIsSound(c, history[0], m, sha);
      RunIsSound(m, history[1..], d, sha);
    }
  }

  /** From an empty database, after any history over any number of roots, whatever an
      anchor loads is sound: a poll whose counts are its ballots, or an issuer whose
      total is the sum of its balances and the rate times what its anchor gained. */
  lemma EveryLoadIsSound(history: seq<Event>, c: Chain, sha: Bytes -> Hash32, s: Snapshot)
    requires Run(EMPTY, history, c, sha) && LoadedFrom(c.db, s)
    ensures s.root in c.born && s.root in c.amount && SoundRoot(s, c.born[s.root], c.amount[s.root])
  {
    hide SoundRoot, LoadedFrom;
    EmptyIsSound();
    RunIsSound(EMPTY, history, c, sha);
    LoadedIsLive(c.db, s);
    LoadedIsCanonical(c.db, s);
    LoadedIsLedger(c.db, c.ledger, s);
  }

  /** What an anchor loads is what the ledger says of its root. */
  lemma LoadedIsLedger(db: Db, ledger: Ledger, s: Snapshot)
    requires Represents(db, ledger) && LoadedFrom(db, s)
    ensures s.root in ledger && ledger[s.root] == s
  {
    hide StoredState, WithinLimits, StateIsRegistered, IsStateKeyOf, HasPrefix, TotalBytes, IsLowerHash160,
      BuildContractLineageKey, BuildContractLiveKey, BuildContractOwnerKey, BuildContractFamilyKey;
    assert s.root in ledger;
    assert ledger[s.root].current == s.current;
    LoadIsUnique(db, s, ledger[s.root]);
  }
}
