/** Who voted and who paid, over a whole chain: however the events of different roots
    interleave, each poll counts its own ballots and each issuer its own purchases. */
module ChainTotals {
  import opened ByteCodec
  import opened StateLimits
  import opened InitEnvelope
  import opened CallEnvelope
  import opened CreationShape
  import opened InitSchemas
  import opened StateDomain
  import opened TokenIssuer
  import opened Voting
  import opened ConfirmedChain
  import T = TokenRuns
  import V = VotingRuns
  import K = KeyValue

  /** What one event, and a history, adds to one choice of one poll. */
  function BallotOn(ev: Event, root: Text, choice: nat): nat {
    if ev.Poll? && ev.root == root && ev.vote.choice == choice then 1 else 0
  }

  function BallotsOn(history: seq<Event>, root: Text, choice: nat): nat {
    if history == [] then 0 else BallotOn(history[0], root, choice) + BallotsOn(history[1..], root, choice)
  }

  /** What one event, and a history, has one buyer pay into one issuer. */
  function PaidOne(ev: Event, root: Text, hash160: Text): nat {
    if ev.Purchase? && ev.root == root && ev.buy.hash160 == hash160 then ev.buy.call.callValue else 0
  }

  function PaidOn(history: seq<Event>, root: Text, hash160: Text): nat {
    if history == [] then 0 else PaidOne(history[0], root, hash160) + PaidOn(history[1..], root, hash160)
  }

  ghost predicate Tallied(c: Chain, root: Text, choice: nat, n: nat) {
    && (root !in c.ledger ==> n == 0)
    && (root in c.ledger && c.ledger[root].family == VOTING_FAMILY ==>
          var state := c.ledger[root].state;
          HoldsBallot(state) && (choice < NumOptions(state) ==> Count(state, choice) == n))
  }

  ghost predicate Credited(c: Chain, root: Text, hash160: Text, paid: nat) {
    && (root !in c.ledger ==> paid == 0)
    && (root in c.ledger && c.ledger[root].family == TOKEN_FAMILY ==>
          var state := c.ledger[root].state;
          HasTokenCore(state) && BalanceOf(state, hash160) == Rate(state) * paid)
  }

  lemma OtherRootsStay(c: Chain, ev: Event, d: Chain, sha: Bytes -> Hash32, root: Text)
    requires Sound(c) && Step(c, ev, d, sha) && ev.root != root
    ensures root in d.ledger <==> root in c.ledger
    ensures root in c.ledger ==> d.ledger[root] == c.ledger[root]
  {
    hide SoundRoot, IsCreation, CreateSetting, LoadedFrom, StateIsRegistered, CommitSetting, T.Accepts, T.Next, V.Accepts, V.Next,
      K.Accepts, K.Next, StateOf, TotalBytes, FamilyName;
    if ev.root in c.ledger {
      LedgerRoot(c, ev.root);
    }
  }

  /** Before its creation a root is in no ledger. */
  lemma BornOnce(c: Chain, ev: Event, d: Chain, sha: Bytes -> Hash32)
    requires Sound(c) && ev.Birth? && Step(c, ev, d, sha)
    ensures ev.root !in c.ledger
  {
    hide SoundRoot, IsCreation, CreateSetting, Represents, StateOf, TotalBytes, FamilyName;
    CreateRefines(c.db, d.db, c.ledger, ev.root, ev.owner, FamilyName(ev.family), StateOf(ev.e.entries));
  }

  /** A call leaves its root rolled to the family's next snapshot. */
  lemma CallRolls(c: Chain, ev: Event, d: Chain, sha: Bytes -> Hash32)
    requires Sound(c) && !ev.Birth? && Step(c, ev, d, sha)
    ensures ev.root in c.ledger && ev.root in c.amount && ev.root in d.ledger
    ensures ev.Purchase? ==> var a := T.Issuer(c.ledger[ev.root], c.amount[ev.root]);
              T.Accepts(a, ev.buy, sha) && d.ledger[ev.root] == T.Next(a, ev.buy, sha).snapshot
    ensures ev.Poll? ==> V.Accepts(c.ledger[ev.root], ev.vote) && d.ledger[ev.root] == V.Next(c.ledger[ev.root], ev.vote)
    ensures ev.Assignment? ==> K.Accepts(c.ledger[ev.root], ev.write) && d.ledger[ev.root] == K.Next(c.ledger[ev.root], ev.write)
  {
    hide SoundRoot, LoadedFrom, StateIsRegistered, CommitSetting, T.Accepts, T.Next, V.Accepts, V.Next, K.Accepts, K.Next;
    LedgerRoot(c, ev.root);
  }

  lemma PollTallies(c: Chain, d: Chain, root: Text, v: V.Vote, choice: nat, n: nat)
    requires root in c.ledger && root in d.ledger && Tallied(c, root, choice, n)
    requires V.Accepts(c.ledger[root], v) && d.ledger[root] == V.Next(c.ledger[root], v)
    ensures Tallied(d, root, choice, n + if v.choice == choice then 1 else 0)
  {
    hide V.Accepts, V.Next, HoldsBallot, Count, NumOptions, VotingState, WithinLimits;
    V.StepFacts(c.ledger[root], v);
    V.StepCounts(c.ledger[root], v);
    PollFamily(c.ledger[root], v);
  }

  lemma PollFamily(s: Snapshot, v: V.Vote)
    requires V.Accepts(s, v)
    ensures s.family == VOTING_FAMILY
  {
    hide WithinLimits, VotingState;
  }

  lemma StepTallies(c: Chain, ev: Event, d: Chain, sha: Bytes -> Hash32, root: Text, choice: nat, n: nat)
    requires Sound(c) && Step(c, ev, d, sha) && Tallied(c, root, choice, n)
    ensures Tallied(d, root, choice, n + BallotOn(ev, root, choice))
  {
    hide Sound, Step, HoldsBallot, Count, NumOptions, T.Accepts, T.Next, V.Accepts, V.Next, K.Accepts, K.Next;
    if ev.root != root {
      OtherRootsStay(c, ev, d, sha, root);
    } else if ev.Birth? {
      BornOnce(c, ev, d, sha);
      BirthTallies(c, ev, d, sha, choice);
    } else {
      CallRolls(c, ev, d, sha);
      match ev {
        case Purchase(_, b) => T.StepFacts(T.Issuer(c.ledger[root], c.amount[root]), b, sha);
        case Assignment(_, w) => WriteContinues(c.ledger[root], w);
        case Poll(_, v) => PollTallies(c, d, root, v, choice, n);
      }
    }
  }

  lemma BirthTallies(c: Chain, ev: Event, d: Chain, sha: Bytes -> Hash32, choice: nat)
    requires ev.Birth? && Step(c, ev, d, sha)
    ensures Tallied(d, ev.root, choice, 0)
  {
    hide IsCreation, CreateSetting, HoldsBallot, Count, NumOptions, VotingState, StateOf, TotalBytes;
    var s := d.ledger[ev.root];
    if ev.family.VotingV1? {
      V.CreatedIsPoll(ev.tx, ev.target, ev.initVout, ev.e, TotalBytes(s.state), s);
      VotingFacts(s.state);
    }
  }

  lemma {:induction false} RunTallies(c: Chain, history: seq<Event>, d: Chain, sha: Bytes -> Hash32, root: Text, choice: nat, n: nat)
    requires Sound(c) && Run(c, history, d, sha) && Tallied(c, root, choice, n)
    ensures Tallied(d, root, choice, n + BallotsOn(history, root, choice))
    decreases |history|
  {
    hide Sound, Step, Tallied;
    if history != [] {
      var m :| Step(c, history[0], m, sha) && Run(m, history[1..], d, sha);
      StepIsSound(c, history[0], m, sha);
      StepTallies(c, history[0], m, sha, root, choice, n);
      RunTallies(m, history[1..], d, sha, root, choice, n + BallotOn(history[0], root, choice));
    }
  }

  lemma PurchaseCredits(c: Chain, d: Chain, root: Text, b: T.Buy, sha: Bytes -> Hash32, hash160: Text, paid: nat)
    requires root in c.ledger && root in c.amount && root in d.ledger
    requires Credited(c, root, hash160, paid) && IsLowerHash160(hash160)
    requires var a := T.Issuer(c.ledger[root], c.amount[root]);
             T.Accepts(a, b, sha) && d.ledger[root] == T.Next(a, b, sha).snapshot
    ensures Credited(d, root, hash160, paid + if b.hash160 == hash160 then b.call.callValue else 0)
  {
    hide T.Accepts, T.Next, TokenState, WithinLimits, Rate, BalanceOf, HasTokenCore, Issued, MaxSupply, IsLowerHash160;
    var a := T.Issuer(c.ledger[root], c.amount[root]);
    T.StepFacts(a, b, sha);
    T.StepBalance(a, b, sha, hash160);
    PurchaseContinues(a, b, sha);
    T.Distribute(Rate(a.snapshot.state), paid, if b.hash160 == hash160 then b.call.callValue else 0);
  }

  lemma BirthCredits(c: Chain, ev: Event, d: Chain, sha: Bytes -> Hash32, hash160: Text)
    requires ev.Birth? && Step(c, ev, d, sha) && IsLowerHash160(hash160)
    ensures Credited(d, ev.root, hash160, 0)
  {
    hide IsCreation, CreateSetting, HasTokenCore, BalanceOf, Rate, TokenState, StateOf, TotalBytes, WithinLimits, IsLowerHash160;
    var s := d.ledger[ev.root];
    if ev.family.TokenIssuerV1? {
      T.CreatedIsLedger(ev.tx, ev.target, ev.initVout, ev.e, TotalBytes(s.state), T.Issuer(s, d.amount[ev.root]));
    }
  }

  lemma StepCredits(c: Chain, ev: Event, d: Chain, sha: Bytes -> Hash32, root: Text, hash160: Text, paid: nat)
    requires Sound(c) && Step(c, ev, d, sha) && Credited(c, root, hash160, paid) && IsLowerHash160(hash160)
    ensures Credited(d, root, hash160, paid + PaidOne(ev, root, hash160))
  {
    hide Sound, Step, HasTokenCore, Rate, BalanceOf, T.Accepts, T.Next, V.Accepts, V.Next, K.Accepts, K.Next, IsLowerHash160;
    if ev.root != root {
      OtherRootsStay(c, ev, d, sha, root);
    } else if ev.Birth? {
      BornOnce(c, ev, d, sha);
      BirthCredits(c, ev, d, sha, hash160);
    } else {
      CallRolls(c, ev, d, sha);
      match ev {
        case Purchase(_, b) => PurchaseCredits(c, d, root, b, sha, hash160, paid);
        case Assignment(_, w) => WriteContinues(c.ledger[root], w);
        case Poll(_, v) => V.StepFacts(c.ledger[root], v);
      }
    }
  }

  lemma {:induction false} RunCredits(c: Chain, history: seq<Event>, d: Chain, sha: Bytes -> Hash32, root: Text, hash160: Text, paid: nat)
    requires Sound(c) && Run(c, history, d, sha) && Credited(c, root, hash160, paid) && IsLowerHash160(hash160)
    ensures Credited(d, root, hash160, paid + PaidOn(history, root, hash160))
    decreases |history|
  {
    hide Sound, Step, Credited, IsLowerHash160;
    if history != [] {
      var m :| Step(c, history[0], m, sha) && Run(m, history[1..], d, sha);
      StepIsSound(c, history[0], m, sha);
      StepCredits(c, history[0], m, sha, root, hash160, paid);
      RunCredits(m, history[1..], d, sha, root, hash160, paid + PaidOne(history[0], root, hash160));
    }
  }

  /** A poll that any anchor of the final database loads counts exactly the ballots that
      the history cast on its root, whatever happened on other roots. */
  lemma LoadedPollCounts(history: seq<Event>, c: Chain, sha: Bytes -> Hash32, s: Snapshot, choice: nat)
    requires Run(EMPTY, history, c, sha) && LoadedFrom(c.db, s) && s.family == VOTING_FAMILY
    ensures HoldsBallot(s.state)
    ensures choice < NumOptions(s.state) ==> Count(s.state, choice) == BallotsOn(history, s.root, choice)
  {
    hide SoundRoot, LoadedFrom, HoldsBallot, NumOptions, Count, Step, Represents;
    EmptyIsSound();
    RunIsSound(EMPTY, history, c, sha);
    RunTallies(EMPTY, history, c, sha, s.root, choice, 0);
    LoadedIsLedger(c.db, c.ledger, s);
  }

  /** An issuer that any anchor of the final database loads credits every buyer with
      exactly the rate times what the history had that buyer pay into its root. */
  lemma LoadedIssuerCredits(history: seq<Event>, c: Chain, sha: Bytes -> Hash32, s: Snapshot, hash160: Text)
    requires Run(EMPTY, history, c, sha) && LoadedFrom(c.db, s) && s.family == TOKEN_FAMILY && IsLowerHash160(hash160)
    ensures HasTokenCore(s.state)
    ensures BalanceOf(s.state, hash160) == Rate(s.state) * PaidOn(history, s.root, hash160)
  {
    hide SoundRoot, LoadedFrom, HasTokenCore, Rate, BalanceOf, Step, Represents, IsLowerHash160;
    EmptyIsSound();
    RunIsSound(EMPTY, history, c, sha);
    RunCredits(EMPTY, history, c, sha, s.root, hash160, 0);
    LoadedIsLedger(c.db, c.ledger, s);
  }
}
