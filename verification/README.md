# The TRU node's contract state, market relay and anchor queue: a model and its proofs

The node is a C++ UTXO blockchain with a Python market service beside it. This project models
four of its parts and proves properties that span their operations.

- **Contract state.** A creation transaction carries one canonical envelope whose entries become
  the initial state of a contract root. Each later call spends the root's live anchor, runs the
  script machine, applies the rules of one of three families (key/value, Voting V1, Token
  Issuer V1) under byte, key and gas limits, and is committed to a flat key/value database.
  The script machine is a parameter: for Token Issuer V1 it may do anything to the state, and
  the family's own checks must catch it; for the run theorems of the other two families it
  performs the single store that their script performs. `ConfirmedChain` and `ChainTotals` put
  the pieces together: one database, any number of roots, any interleaving of events.
- **Market relay.** Adverts and reservations live in two tables. About fifteen transactions post,
  reserve, exchange the encrypted handshake, finalize, bind and withdraw, and every one of them
  first expires what is due. A public quote and a rate limiter sit on top.
- **Anchor queue.** Token epochs wait in a durable queue to be anchored on chain in two phases:
  the exact transaction is stored first, then submitted, and only an observed transaction gets a
  receipt, in one batch with the queue and the watch list. The process may die, and a write may
  fail or be lost, at every durable write.
- **Codecs and searches.** Base58 by in-place long division, the text form of a block, the
  payload commitment in the coinbase, and the search for the last common block of two chains.

One module models one component. Code that updates things step by step is a method with loops or
a class, proved against a specification function or predicate; the theorems about runs, round
trips and conservation are lemmas about those. The bounded integers of the source are written
out: 64-bit overflow guards are branches, and wrap-around is spelled where it can happen.

## What turned out false, or unreachable

- Metadata of a block with transactions, below the activation height: the search for the
  ten-character mark starts past the pipe that opens the metadata. `LegacyDropsMetadata` shows
  the metadata lost whenever their own text does not hold the mark; `LegacyReadsInside` says
  what is read when it does, and `MetadataSurvivesIff` when a block survives and when it is
  unreadable, for every block with transactions. `InnerMarkThrows` is a family of unreadable
  ones.
- A block without transactions, at any height: the search starts at the front of the block, so a
  hash field can pose as the mark. `EmptyBlockMark` says where the search stops,
  `EmptyBlockSurvivesIff` when the block survives and when it is unreadable,
  `FalseMarkHidesMetadata` and `FalseMarkThrows` give the two failing families, and
  `PosingHashes` a previous-block hash of each.
- Base58: the alphabet search also finds the terminating NUL, so a text holding one decodes.
  `EncodeInvertsDecode` has encoding invert decoding exactly on texts over the alphabet;
  `NulDecodesElsewhere` is a text on which it does not.
- Comparing queue texts is not comparing items: the parser takes leading zeros. A text that
  spells an item is the rendered one exactly when its epoch has none (`RenderedUnlessZero`), so
  texts compare as items exactly among those (`TextsCompareItems`); `LeadingZeroSpells` is a
  text with one. Every text the service itself writes is a rendered one.
- An enqueue while a pass holds the queue it read: the pass's next commit overwrites it.
  `AcknowledgedKeptIff`, over every history of reads, commits and enqueues, has an acknowledged
  item kept exactly when no commit comes before the next read of the queue, and gone for good
  otherwise; `StaleCommitLoses` is the loss in one step and `MidPassLoss` a store and a history
  with it.
- An anchor without a receipt: compaction drops its item, under whatever text it is queued.
  `CompactionKeeps` has an item keep a text exactly when it is not anchored, and
  `EnqueueKeepsItem` has it still queued or receipted after an enqueue exactly when it is not
  anchored or has a receipt; `ReceiptlessAnchorDropsItem` is a store that loses one.
- The rate limiter after its clock ran backwards: `AnswersAgreeIff` has its answer agree with the
  full history exactly when the history admits, or refuses on the events that pruning left alone;
  where they differ it is the limiter that admits. `Allow` ties what is left to the cutoffs that
  each event's key was pruned with, and `ClockRunsBack` drives a limiter into the difference.
- Branches that no input reaches: the resource check at the end of a creation
  (`ValidateStatefulCreationShape`), the buyer-balance checks and the post-call invariant of a
  purchase (`ExecuteTokenIssuerV1Call`), the final resource check of a ballot
  (`ExecuteVotingV1Call`), the checks after a one-store key/value call
  (`ExecuteStatefulKvV1Call`), the byte bounds of the anchor queue and watch list
  (`BytesNeverBite`), and a two-sided quote without a spread (`BuildQuote`).

## Model

| member | source | states |
|---|---|---|
| `StateLimits.MeasureStateBytes` | src/contract_state_limits.h:57-71 | succeeds exactly on maps within the key, value, entry and total limits and returns the weighted total, whatever order the map is walked in |
| `StateLimits.CanApplyStateWrite` | src/contract_state_limits.h:73-103 | on a state within limits the incremental check succeeds exactly when measuring the updated map from scratch does, and reports that total |
| `StateLimits.StoreGas` | src/contract_state_limits.h:105-125 | gas is defined exactly for storable key and value sizes and lies between 1200 and 436200 |
| `StateLimits.GasCoversGrowth` | src/contract_state_limits.h:105-126 | a store's gas is the base plus one hundred per byte it accounts: exactly the growth for a new key, and never less than the growth |
| `StateLimits.GasBoundsGrowth` | src/contract_state_limits.h:27-31 | over any run of stores gas bounds growth: twenty million gas never grow the durable state by more than 200,000 accounted bytes |
| `InitEnvelope.ValidateEntries` | src/contract_state_init_envelope.h:98-116 | accepting entries write by write is the same as sortedness plus the limits of the finished map |
| `InitEnvelope.PrecedesIs` | src/contract_state_init_envelope.h:89-97 | key order, by the first byte in which two keys differ or else by length |
| `InitEnvelope.BuildPayload` | src/contract_state_init_envelope.h:118-151 | the appending loop produces the specified byte layout, or nothing exactly for invalid envelopes |
| `InitEnvelope.ParsePayload` | src/contract_state_init_envelope.h:153-211 | the cursor loop reads exactly the specified grammar, with nothing left over |
| `InitEnvelope.BuildOpReturnScript` | src/contract_state_init_envelope.h:213-244 | one OP_RETURN with the single minimal push of the payload |
| `InitEnvelope.SinglePushExact` | src/contract_state_init_envelope.h:246-282 | the push reader accepts exactly what the push writer emits, over all three push sizes |
| `InitEnvelope.ParseOpReturnScript` | src/contract_state_init_envelope.h:284-291 | reads a script to the envelope it denotes |
| `InitEnvelope.SingleEncoding` | src/contract_state_init_envelope.h:98-291 | every envelope has one encoding: a script parses to an envelope if and only if the builder emits that script for it |
| `CallEnvelope.CallSingleEncoding` | src/contract_call_envelope.h:69-144 | the same for call commitments: parsing and building are mutual inverses |
| `CallEnvelope.EnvelopesAreDisjoint` | src/contract_call_envelope.h:91-144 | no script reads both as a call commitment and as a creation envelope |
| `PushGrammar.IsCanonicalPushOnlyUnlockScript` | src/contract_call_policy.h:66-152 | the cursor loop accepts exactly the scripts of the push grammar |
| `PushGrammar.PushGrammarExact` | src/contract_call_policy.h:66-152 | a script reads to an item list if and only if it is the concatenation of the length-minimal pushes of those items |
| `PushGrammar.PushGrammarUnambiguous` | src/contract_call_policy.h:107-152 | two item lists with one script are one list |
| `PushGrammar.AppendCanonicalDataPush` | src/contract_call_policy.h:154-175 | appends the minimal push, refusing data past 65535 bytes |
| `PushGrammar.ReadCanonicalDataPush` | src/contract_call_policy.h:177-211 | reads one minimal push at the cursor and stops right after it |
| `PushGrammar.BuildStatefulKvV1UnlockScript` | src/contract_call_policy.h:213-228 | emits the two-push script exactly for storable keys and values |
| `PushGrammar.DecodeStatefulKvV1UnlockScript` | src/contract_call_policy.h:230-250 | reads the two pushes and nothing else |
| `PushGrammar.UnlockCodec` | src/contract_call_policy.h:213-250 | decoding and building a call's unlocking script are mutual inverses |
| `PushGrammar.ScanStatefulContractScript` | src/contract_call_policy.h:261-319 | the loop's flags are those of the executed opcodes, which the rows below pin to how a script was written |
| `PushGrammar.ScanIgnoresPushedData` | src/contract_call_policy.h:261-319 | altering any bytes inside pushed data changes no flag of the scan |
| `PushGrammar.ScanSkipsMinimalPush` | src/contract_call_policy.h:66-101 | a minimal push of any item in front of any script changes nothing the scan reports |
| `PushGrammar.ScanOfWritten` | src/contract_call_policy.h:261-319 | a script written as any sequence of plain opcodes and pushes, minimal or not, is valid and has exactly the flags of its plain opcodes |
| `PushGrammar.ValidIsWritten` | src/contract_call_policy.h:261-319 | every script that scans as valid was so written |
| `CallShape.DecodeScriptHexStrict` | src/contract_call_policy.h:331-352 | decodes exactly the non-empty even-length hex texts, to the bytes the rows below pin |
| `CallShape.DecodeInvertsHex` | src/contract_call_policy.h:331-352 | decoding gives back every non-empty byte string from its digits, high digit first, in lower and in upper case |
| `CallShape.HexBytesIsHex` | src/contract_call_policy.h:331-352 | every decodable text is, up to letter case, the writing of what it decodes to |
| `CallShape.NibbleIs` | src/contract_call_policy.h:341-346 | a character has a digit value exactly when it is that lower-case or upper-case digit |
| `CallShape.EqualHexSameBytes` | src/contract_call_policy.h:1257-1266 | scripts equal up to hex case decode to the same bytes |
| `CallShape.ValidateStatefulCallShape` | src/contract_call_policy.h:1321-1436 | one pass over the outputs finds the call exactly when the transaction has the call shape: one matching continuation, one zero-value commitment binding the unlocking script |
| `CallShape.CallIsUnique` | src/contract_call_policy.h:1321-1436 | a transaction has at most one reading as a call |
| `CallShape.ContinuationIsAnchor` | src/contract_call_policy.h:1399-1434 | the continuation is locked by the anchor's script and holds the anchor's amount plus the call value |
| `InitSchemas.IsCanonicalVotingV1InitEnvelope` | src/contract_call_policy.h:925-981 | of any entry list, sorted or not, lookups and an entry count accept exactly those in which no key repeats and whose map is a voting schema |
| `InitSchemas.NothingExtra` | src/contract_call_policy.h:925-981 | with the required keys present, the entry count alone excludes every other key |
| `InitSchemas.FourKeysInOrder` | src/contract_call_policy.h:992-1064 | strictly sorted entries under the four token keys stand in the one expected order |
| `InitSchemas.IsCanonicalTokenIssuerV1InitEnvelope` | src/contract_call_policy.h:992-1064 | of any entry list the positional check accepts exactly the sorted ones whose map is a token schema |
| `InitSchemas.FirstIsState` | src/contract_call_policy.h:904-912 | in sorted entries first-match lookup and the built map agree |
| `InitSchemas.SchemasAreDisjoint` | src/contract_call_policy.h:925-1064 | no state satisfies both schemas |
| `CreationShape.ValidateStatefulCreationShape` | src/contract_call_policy.h:1079-1247 | an exact three-way classification into ordinary, call candidate and creation; the resource-limit refusal at the end never happens |
| `CreationShape.CreationStateValid` | src/contract_call_policy.h:1230-1246 | an accepted creation state is non-empty and within all limits |
| `StandardTransactions.PaymentsAreOrdinary` | src/contract_call_policy.h:1079-1247 | a transaction of pay-to-hash outputs is ordinary whatever the hashes hold |
| `StandardTransactions.CreationIsAccepted` | src/contract_call_policy.h:1079-1247 | one input, a valued anchor, the built script of any envelope that names it and plain change make a creation of exactly that envelope's state |
| `StandardTransactions.CreationMeans` | src/contract_call_policy.h:1079-1247 | whatever is accepted as a creation has one valued output with the anchor script, one output without value with the built script of its envelope, and otherwise outputs that neither run state opcodes nor carry an envelope |
| `StandardTransactions.CallIsAccepted` | src/contract_call_policy.h:1321-1436 | the anchor spent with the built pushes of any key and value, its continuation, the built commitment and plain change make a call of exactly that key, value and added amount |
| `StandardTransactions.CallMeans` | src/contract_call_policy.h:1321-1436 | whatever is accepted as a call was unlocked by the built pushes of its key and value, pays the anchor on, and carries in one output without value, and in no other, the built commitment to that unlocking script |
| `Lineage.ParseCanonicalContractOutpoint` | src/contract_state_lineage.h:74-112 | parsing and rebuilding recognises exactly the canonical outpoints, with the digit loop's overflow guard |
| `Lineage.CanonicalOutpointParts` | src/contract_state_lineage.h:65-112 | every canonical outpoint is the built form of its transaction id and output number |
| `Lineage.OutpointIsCanonical` | src/contract_state_lineage.h:65-112 | every built outpoint is canonical and gives both parts back |
| `Lineage.HexEncodeInjective` | src/contract_state_lineage.h:145-159 | distinct logical keys have distinct hex forms |
| `Lineage.HexDigitsAre` | src/contract_state_lineage.h:145-159 | the hex form has the high and the low digit of each byte in their places |
| `Lineage.DecodeCanonicalLogicalKeyHex` | src/contract_state_runtime.h:50-80 | inverts the hex form on allowed keys and refuses every other text |
| `Lineage.DomainPrefixesApart` | src/contract_state_lineage.h:161-176 | no raw key lies under the prefixes of two roots, so output 1 never captures output 12 |
| `Lineage.FamiliesApart` | src/contract_state_lineage.h:114-176 | the five families of durable keys never meet |
| `StateDomain.StateKeyInjective` | src/contract_state_lineage.h:161-176 | a durable state key determines its root and its logical key |
| `StateDomain.LoadConfirmedStateDomain` | src/contract_state_runtime.h:82-233 | returns the one snapshot that the database holds for a live anchor, and fails exactly when there is none |
| `StateDomain.LoadIsUnique` | src/contract_state_runtime.h:82-233 | an anchor loads at most one snapshot |
| `StateDomain.ScanState` | src/contract_state_runtime.h:166-211 | the prefix scan rebuilds exactly the stored map and accepts only canonical keys and storable values |
| `StateDomain.CommitDelta` | src/blockchain.cpp:18872-18932 | the delta loop writes exactly the changed keys and counts them, and for an issuer refuses exactly when a key other than total_issued and the buyer's balance changed |
| `StateDomain.CommitCall` | src/blockchain.cpp:18654-18935 | commits exactly when the continuation is new, the family's expected number of keys changed and, for an issuer, no other key than its two |
| `StateDomain.CommitThenLoad` | src/blockchain.cpp:18654-18935 | loading the continuation after a commit gives back exactly the executed state under the same root, owner and family |
| `StateDomain.SpentAnchorIsStale` | src/blockchain.cpp:18654-18935 | a spent anchor loads nothing any more |
| `StateDomain.OtherRootsUnaffected` | src/blockchain.cpp:18654-18935 | a commit under one root changes nothing that any other root loads, in either direction |
| `StateDomain.PutEntries` | src/blockchain.cpp:18523-18652 | writes the envelope's entries exactly when all of their keys are absent |
| `StateDomain.CommitCreation` | src/blockchain.cpp:18523-18652 | creates a root exactly when its registry and initial keys are all absent |
| `StateDomain.CreateThenLoad` | src/blockchain.cpp:18523-18652 | a fresh root loads exactly its envelope's state |
| `StateDomain.CreateLeavesOthers` | src/blockchain.cpp:18523-18652 | a creation changes nothing that another root loads |
| `StateDomain.CommitRefines` | src/blockchain.cpp:18654-18935 | the flat database refines a ledger of snapshots: a commit is one ledger update |
| `StateDomain.CreateRefines` | src/blockchain.cpp:18523-18652 | a creation is one ledger insertion under a root the ledger does not have |
| `KeyValue.ExecuteStatefulKvV1Call` | src/contract_state_runtime.h:240-312 | acceptance is exact for any machine; with a one-store machine the call changes that key and the checks after it never refuse |
| `KeyValue.WriteKeepsAmount` | src/contract_state_runtime.h:267-271 | an accepted write leaves the anchor's amount as it is |
| `KeyValue.RunIsAssignments` | src/contract_state_runtime.h:240-312 | every run of accepted calls is exactly its owner's assignments in order, within the limits, and never removes a key |
| `KeyValue.WriteChangesOneKey` | src/blockchain.cpp:18654-18935 | committing an accepted write touches no other key |
| `Voting.ParseCanonicalVotingCountKey` | src/contract_state_runtime.h:337-357 | accepts exactly count0 to count9 |
| `Voting.ReadCounts` | src/contract_state_runtime.h:399-425 | reads every count and their sum, failing exactly on a malformed ballot or a 64-bit overflow |
| `Voting.TallyMarkers` | src/contract_state_runtime.h:426-487 | in any walk order, the markers for each choice and in total, with every unknown key refused |
| `Voting.ValidateVotingV1State` | src/contract_state_runtime.h:359-487 | accepts exactly the states in which each count is its number of markers and the total is both sums |
| `Voting.ExecuteVotingV1Call` | src/contract_state_runtime.h:489-641 | for any machine accepts exactly the castable ballots whose completed state is again consistent; the last limit check never refuses, nor does the tally re-check with a one-store machine |
| `Voting.BallotKeepsAmount` | src/contract_state_runtime.h:514-518 | an accepted ballot leaves the anchor's amount as it is |
| `Voting.BallotKeepsTally` | src/contract_state_runtime.h:489-641 | the three writes of an accepted ballot keep every count equal to its markers |
| `VotingRuns.InitIsVotingState` | src/contract_call_policy.h:925-981 | an accepted creation is a consistent poll with nothing counted |
| `VotingRuns.RunCounts` | src/contract_state_runtime.h:359-641 | over any run from a consistent poll, each count grows by the accepted ballots for it, the total by their number, and none comes after the deadline |
| `VotingRuns.RunMarkers` | src/contract_state_runtime.h:489-641 | earlier markers stay, each voter of the run has one marker holding the choice, and no voter is accepted twice |
| `VotingRuns.TallyIsExact` | src/contract_state_runtime.h:359-641 | from creation: countN = markers holding N = ballots accepted for N, totalvotes = both sums = ballots accepted, no voter twice, none after endtime |
| `VotingRuns.BallotChangesThreeKeys` | src/blockchain.cpp:18654-18935 | the three-changed-keys test of the commit never refuses an accepted ballot |
| `TokenIssuer.SumBalances` | src/contract_state_runtime.h:725-745 | the guarded sum is the sum over all balance keys in any order, and fails exactly on overflow or an unknown key |
| `TokenIssuer.ValidateTokenIssuerV1State` | src/contract_state_runtime.h:675-758 | accepts exactly the states whose issued total is the sum of the balances and respects the cap |
| `TokenIssuer.ValidateTokenIssuerV1CallDelta` | src/contract_state_runtime.h:760-814 | against any machine: accepts exactly when the state after is the state before with just total_issued and the buyer's key set to the expected bytes, both really changed |
| `TokenIssuer.ExecuteTokenIssuerV1Call` | src/contract_state_runtime.h:829-985 | accepts exactly the purchasable calls whose machine kept to its one write; four of the error branches never fire |
| `TokenIssuer.PurchaseKeepsLedger` | src/contract_state_runtime.h:829-985 | a purchase keeps the ledger invariant and the immutable fields and credits exactly the minted amount |
| `TokenIssuer.PurchaseLeavesOthers` | src/contract_state_runtime.h:829-985 | no other buyer's balance moves |
| `TokenIssuer.PurchaseIsDelta` | src/contract_state_runtime.h:760-814 | the honest state after a purchase passes the delta check |
| `TokenRuns.RunConserves` | src/contract_state_runtime.h:829-985 | over every run along the anchor chain the ledger invariant and the immutable fields hold and the issue is the rate times what the anchor gained |
| `TokenRuns.RunBalances` | src/contract_state_runtime.h:829-985 | over every run each buyer gains the rate times what that buyer paid |
| `TokenRuns.IssuanceIsConserved` | src/contract_call_policy.h:1399-1434 | from creation: total_issued = sum of all balances = rate x (anchor amount - root amount), each balance = rate x that buyer's payments, the cap holds and no 64-bit step wraps |
| `TokenRuns.PurchaseChangesTwoKeys` | src/blockchain.cpp:18654-18935 | the two-changed-keys test of the commit never refuses an accepted purchase |
| `ConfirmedChain.StepIsSound` | src/blockchain.cpp:18519-18935 | a creation, purchase, ballot or write committed on any root keeps every root of the database sound |
| `ConfirmedChain.EveryLoadIsSound` | src/blockchain.cpp:18519-18935 | from an empty database, after any interleaving over any number of roots, every poll that an anchor loads has counts equal to its markers and every issuer has total_issued = sum of balances = rate x (live anchor amount - first anchor amount) |
| `ConfirmedChain.LoadedIsLedger` | src/contract_state_runtime.h:82-233 | what any anchor loads is what the ledger says of its root |
| `ChainTotals.OtherRootsStay` | src/blockchain.cpp:18654-18935 | an event on one root leaves every other root's snapshot as it was |
| `ChainTotals.LoadedPollCounts` | src/contract_state_runtime.h:359-641 | a loaded poll counts exactly the ballots the whole history cast on its root |
| `ChainTotals.LoadedIssuerCredits` | src/contract_state_runtime.h:829-985 | a loaded issuer credits each buyer with exactly the rate times what the whole history had that buyer pay into its root |
| `MarketStore.MarketStore.ExpireLocked` | market/market_store_v1.py:292-313 | the two updates expire exactly the due holds before finalization and the due adverts without an open hold |
| `MarketStore.MarketStore.AllocateId` | market/market_store_v1.py:460-470 | the first unused of at most eight draws |
| `MarketStore.MarketStore.Post` | market/market_store_v1.py:411-500 | commits exactly what the specification of a post says or restores both tables |
| `MarketStore.MarketStore.ListActive` | market/market_store_v1.py:502-528 | the listing of the expired book |
| `MarketStore.MarketStore.GetPublic` | market/market_store_v1.py:530-543 | the advert after expiry |
| `MarketStore.MarketStore.Reserve` | market/market_store_v1.py:545-632 | commits one HELD row for a free, unexpired advert, replays an own token, or restores both tables |
| `MarketStore.MarketStore.ReservationHandoff` | market/market_store_v1.py:640-678 | only the open holder's view |
| `MarketStore.MarketStore.ReleaseReservation` | market/market_store_v1.py:680-725 | releases only a HELD reservation before finalization |
| `MarketStore.MarketStore.BindReservationToFreshSwap` | market/market_store_v1.py:727-781 | binds to a swap identifier no other row has |
| `MarketStore.MarketStore.OwnerReservation` | market/market_store_v1.py:783-818 | the owner's view of the open reservation |
| `MarketStore.MarketStore.ReservationStatus` | market/market_store_v1.py:820-850 | the taker's view |
| `MarketStore.MarketStore.SubmitMakerOffer` | market/market_store_v1.py:852-884 | sets the offer once, accepts the identical one again, refuses another |
| `MarketStore.MarketStore.SubmitTakerAccept` | market/market_store_v1.py:886-924 | sets the acceptance once, only after an offer |
| `MarketStore.MarketStore.MarkFinalizationStarted` | market/market_store_v1.py:926-954 | records finalization once, only after an acceptance and before the hold lapses |
| `MarketStore.MarketStore.SubmitMakerFinal` | market/market_store_v1.py:956-993 | sets the final blob and the maker's swap identifier once, only after finalization started |
| `MarketStore.MarketStore.AcknowledgeTakerAndBind` | market/market_store_v1.py:995-1038 | binds only when the taker names the maker's swap identifier |
| `MarketStore.MarketStore.Withdraw` | market/market_store_v1.py:1040-1079 | withdraws only the owner's active advert without an open reservation |
| `MarketSafety.CallOk` | market/market_store_v1.py:411-1079 | every call, committed or rolled back, keeps the invariant of both tables and changes rows only as the handshake order allows |
| `MarketSafety.RunOk` | market/market_store_v1.py:411-1079 | so does every sequence of calls under any clock: at most one open reservation per advert, its advert ACTIVE, handshake fields write-once and in order |
| `MarketSafety.RowOverRun` | market/market_store_v1.py:852-1038 | what one reservation keeps over any further calls |
| `MarketSafety.FinalizationIsForever` | market/market_store_v1.py:926-1038 | once finalization starts the reservation stays HELD or BOUND for ever, and its advert stays ACTIVE, is never listed, withdrawn or reserved by another token |
| `MarketSafety.TakerSwapAgrees` | market/market_store_v1.py:995-1038 | a set taker swap identifier implies BOUND and three equal identifiers |
| `MarketAuthority.Authority` | market/market_store_v1.py:411-1079 | of every request: beyond expiry an advert changes only when withdrawn with its owner token; a reservation changes only while held, named by the call, in the taker's columns with its own token or in the maker's with its advert's owner token; new rows belong to the caller; and a reservation is shown only to its taker or its advert's owner |
| `MarketAuthority.StrangersOnlyWait` | market/market_store_v1.py:411-1079 | over any run of calls without either token a reservation and its advert change only as expiry changes them |
| `MarketAuthority.HandshakeBinds` | market/market_store_v1.py:852-1038 | from a fresh hold in any good book, offer, acceptance, start, final and acknowledgement commit and leave the reservation bound with every field they brought; only the first three must come before it lapses |
| `MarketAuthority.ReserveGoes` | market/market_store_v1.py:545-638 | anybody with a new token holds a free active advert, for the time asked or until it expires |
| `MarketAuthority.PostGoes` | market/market_store_v1.py:411-500 | a new owner below the cap posts an intent that no active advert has |
| `MarketAuthority.ReleaseGoes` | market/market_store_v1.py:680-725 | the taker releases a hold whose finalization has not started |
| `MarketAuthority.WithdrawGoes` | market/market_store_v1.py:1041-1079 | the owner withdraws a free advert |
| `MarketExpiry.ExpireTwice` | market/market_store_v1.py:292-313 | expiring at t1 and then at t2 >= t1 is expiring at t2, up to updated_at |
| `MarketExpiry.CallAlike` | market/market_store_v1.py:292-1079 | books that agree from a time on give equal outcomes for every later call and go on agreeing |
| `MarketExpiry.ReadsChangeNothing` | market/market_store_v1.py:502-850 | under a clock that never runs backwards, reads inserted anywhere change no other call's outcome |
| `MarketExpiry.ListingIsExact` | market/market_store_v1.py:502-528 | the listing is exactly the adverts that are ACTIVE, unexpired, of the pair, and without a reservation that still blocks them |
| `RateLimiter.SlidingWindowLimiter.Allow` | market/market_http_api_v1.py:319-344 | on any clock the answer, the whole new table and its key order, with each accepted event's latest pruning recorded; the answer is the full history's while the clock has not run backwards, and never stricter |
| `RateLimiter.AnswersAgreeIff` | market/market_http_api_v1.py:324-333 | the answer agrees with the full history if and only if the history admits or the events left alone refuse; always in a window that no pruning reached into |
| `RateLimiter.SlidingWindowLimiter.Cleanup` | market/market_http_api_v1.py:336-343 | the sweep prunes exactly the first thousand keys in insertion order and drops exactly those with nothing left, the others and their order staying |
| `RateLimiter.ClockRunsBack` | market/market_http_api_v1.py:319-344 | three calls on a fresh limiter after which it allows what the history of accepted events refuses |
| `RateLimiter.LeftOfHistory` | market/market_http_api_v1.py:328-341 | pruning only takes events away from any window, and none from a window that no pruning reached into |
| `RateLimiter.PruningRaises` | market/market_http_api_v1.py:328-341 | filtering the stored list leaves exactly the accepted events later than every cutoff applied to them since |
| `RateLimiter.RemainingCounts` | market/market_http_api_v1.py:328-329 | the length of the filtered list is the number of accepted events of the window that are left |
| `RatioText.RatioDecimal` | market/market_http_api_v1.py:115-131 | fails exactly on an invalid ratio, and otherwise writes floor(n*10^p/d)/10^p without trailing zeros |
| `RatioText.RendersOnce` | market/market_http_api_v1.py:115-131 | a number has one such text |
| `MarketQuote.RatioIsPrice` | market/market_http_api_v1.py:94-106 | the exact integer ratio is the quotient of the two unit amounts |
| `MarketQuote.CrossMultiply` | market/market_http_api_v1.py:109-112 | cross multiplication orders the ratios as rationals |
| `MarketQuote.Choose` | market/market_http_api_v1.py:156-173 | the loop finds an advert that no other on its side beats by price, then time, then identifier, and fails exactly on an unpriced one |
| `MarketQuote.BestIsUnique` | market/market_http_api_v1.py:156-176 | with identifying ids there is one best advert, and only membership decides it |
| `MarketQuote.BestIsEarliest` | market/market_http_api_v1.py:156-173 | no advert has a better price than the chosen one, of those with its price none is older, and of those of the same second none has a smaller identifier; by crossed amounts and the first differing byte |
| `MarketQuote.QuoteShowsBest` | market/market_http_api_v1.py:147-176 | the quote shows a buyer who pays the most and a seller who asks the least |
| `MarketQuote.BuildQuote` | market/market_http_api_v1.py:150-237 | fails exactly when a bid or ask is unpriced; otherwise the best entries, spread, midpoint and crossing are those of the true prices, and a two-sided book always has a spread |
| `MarketQuote.QuoteIsOrderFree` | market/market_http_api_v1.py:150-237 | every permutation of the adverts gives the same quote, text included |
| `MarketQuote.MidpointLies` | market/market_http_api_v1.py:182-200 | crossed holds exactly when ask <= bid, and the stated midpoint lies between the two prices |
| `AnchorItem.ParseEvolutionAnchorQueueItem` | src/ai_oracle_service.cpp:388-434 | accepts exactly the item texts and returns the item spelled |
| `AnchorItem.SpellsOne` | src/ai_oracle_service.cpp:388-434 | a text spells at most one item |
| `AnchorItem.RenderIsSpelled` | src/token_evolution.cpp:1297-1298 | what enqueueing writes is what every pass reads back |
| `AnchorItem.RenderedApart` | src/token_evolution.cpp:1297-1298 | distinct items have distinct queue texts |
| `AnchorItem.RenderedUnlessZero` | src/ai_oracle_service.cpp:388-434 | a text that spells an item is the rendered one if and only if its epoch has no leading zero |
| `AnchorItem.TextsCompareItems` | src/token_evolution.cpp:1346-1365 | texts without leading zeros are equal if and only if their items are; a text with one differs from the rendered text of its item |
| `AnchorItem.LeadingZeroSpells` | src/ai_oracle_service.cpp:388-434 | a text with a leading zero that spells an item, the witness to the two rows above |
| `AnchorItem.BytesNeverBite` | src/ai_oracle_service.cpp:1042-1106 | with 256 canonical items the byte bound can never refuse |
| `AnchorQueue.AnchorService.Live` | src/ai_oracle_service.cpp:2110-2853 | over any history of enqueues, passes, reconciliations, failing writes and crashes: everything queued is in the queue or has an anchor and a receipt naming the same transaction, receipts never change, and only confirmed items are off the watch list |
| `AnchorQueue.AnchorService.QueuePass` | src/ai_oracle_service.cpp:2110-2853 | a pass keeps the invariant and removes only receipted items; of the first eight items each whose attempt goes well, with every earlier turn surviving, ends receipted for its transaction and off the queue; every new receipt and every item newly seen confirmed is of one of them whose attempt showed it |
| `AnchorQueue.NewIsDue` | src/ai_oracle_service.cpp:2426-2509 | what it takes for a new item: a transaction that fits and is stored, that the chain or the mempool has or takes, that shows, and whose receipt is written |
| `AnchorQueue.StoredIsDue` | src/ai_oracle_service.cpp:2320-2424 | the same for an item whose stored transaction is sent again |
| `AnchorQueue.AnchorService.Turn` | src/ai_oracle_service.cpp:2225-2848 | a turn ends in a receipt if and only if the attempt earns one, which takes exactly that item off the queue; otherwise the item is retained or the pass dies, and no other item's data change |
| `AnchorQueue.AnchorService.Obtain` | src/ai_oracle_service.cpp:2295-2681 | ends with a transaction if and only if the anchored one still shows, the stored one can be sent again and is known, or a new one is stored and known; it is durable for the item by then, and a stored one is replaced only when it is stale |
| `AnchorQueue.AnchorService.Persist` | src/ai_oracle_service.cpp:2426-2495 | the first phase: the exact transaction is stored with the hashes of its record if and only if it fits and the write lands |
| `AnchorQueue.AnchorService.CommitItem` | src/ai_oracle_service.cpp:2682-2845 | the second phase: a receipt is written, together with both lists, if and only if the transaction is seen with its payload, the batch lands and the watch list has room; it can only repeat an existing receipt |
| `AnchorQueue.AnchorService.WriteBatch` | src/ai_oracle_service.cpp:2763-2826 | receipt, queue and watch change together or not at all |
| `AnchorQueue.AnchorService.WatchPass` | src/ai_oracle_service.cpp:1459-1642 | of the first eight watched items exactly those confirmed with their payload are dropped once the write lands, and exactly the missing ones that decode are rebroadcast, always as the transaction the receipt names |
| `AnchorQueue.AnchorService.Reconcile` | src/ai_oracle_service.cpp:1296-1457 | a successful reconciliation leaves the watch list equal to exactly the unconfirmed receipts |
| `AnchorQueue.AnchorService.LoadWatch` | src/ai_oracle_service.cpp:1042-1106 | of any stored list: loads it unchanged, refusing exactly one that is too long, malformed or repeats an item |
| `AnchorQueue.SafeWatchLoads` | src/ai_oracle_service.cpp:1042-1106 | under the invariant the stored list always loads |
| `AnchorQueue.AnchorService.Enqueue` | src/token_evolution.cpp:1297-1453 | an acknowledged epoch is stored and queued; refusal is exactly the per-token or global bound, a known epoch or a lost write |
| `AnchorQueue.CompactQueue` | src/token_evolution.cpp:1331-1368 | of any stored queue: keeps in order the first occurrence of every text whose item is not anchored, and refuses exactly when some text does not parse |
| `AnchorQueue.AnchorService.Admit` | src/token_evolution.cpp:1331-1401 | of whatever is stored: the compacted queue with the new item, refused exactly on a malformed text or a reached bound |
| `AnchorQueue.CompactedIsPending` | src/token_evolution.cpp:1331-1368 | under the invariant only anchored items go |
| `AnchorRaces.AcknowledgedKeptIff` | src/ai_oracle_service.cpp:2141-2848 | over every history of reads, commits and enqueues from a safe store, an acknowledged item is still queued or receipted if and only if no commit came before the next read of the queue; otherwise it is gone for good |
| `AnchorRaces.StaleCommitLoses` | src/ai_oracle_service.cpp:2696-2793 | a commit of a pass that read the queue before an enqueue always loses the enqueued item |
| `AnchorRaces.RunSane` | src/ai_oracle_service.cpp:2141-2848 | every such history pairs anchors with receipts and queues only stored epochs |
| `AnchorRaces.MidPassLoss` | src/ai_oracle_service.cpp:2141-2848 | a safe store with a valid record and a matching prepared transaction, and a read, an enqueue and a permitted commit that lose the enqueued item |
| `AnchorRaces.CompactionKeeps` | src/token_evolution.cpp:1331-1368 | of any queue and any item spelled in it, some text of the item stays if and only if the item is not anchored |
| `AnchorRaces.EnqueueKeepsItem` | src/token_evolution.cpp:1331-1401 | over an enqueue of another item in any store, an item is still queued or receipted if and only if it is not anchored or has a receipt |
| `AnchorRaces.ReceiptlessAnchorDropsItem` | src/token_evolution.cpp:1331-1401 | an anchor without a receipt, of an item queued with a leading zero, whose item the next enqueue drops |
| `AnchorQueue.CommitKeepsSafe` | src/ai_oracle_service.cpp:2763-2793 | the batch keeps the whole invariant |
| `AnchorQueue.PreparedKeepsSafe` | src/ai_oracle_service.cpp:2426-2665 | storing a prepared transaction for an unreceipted item keeps the whole invariant |
| `AnchorQueue.WatchKeepsSafe` | src/ai_oracle_service.cpp:1296-1642 | any new watch list that drops only confirmed items keeps the whole invariant |
| `AnchorQueue.EnqueueKeepsSafe` | src/token_evolution.cpp:1331-1430 | a new epoch with its queue entry keeps the whole invariant, the eight-per-token bound included |
| `AnchorQueue.ReceiptsIdentify` | src/ai_oracle_service.cpp:1118-1211 | every receipt identifies its transaction, and the exact bytes are at hand for a retry |
| `Base58.DivideBy58` | src/address_helpers.h:84-105 | one in-place division step is exact and keeps every digit a byte |
| `Base58.DivideOut` | src/address_helpers.h:84-105 | the division loop ends because the number strictly falls, and emits the base-58 digits |
| `Base58.Base58Encode` | src/address_helpers.h:84-105 | one '1' per leading zero byte, then the base-58 digits of the rest |
| `Base58.TimesPlus` | src/address_helpers.h:111-171 | one in-place multiply-and-add is exact |
| `Base58.Base58Decode` | src/address_helpers.h:111-171 | one zero byte per leading '1', then the base-256 digits of the rest; fails exactly on a foreign character |
| `Base58.RebasedBack` | src/address_helpers.h:84-171 | changing base twice, leading zeros included, is the identity |
| `Base58.AlphabetIs` | src/address_helpers.h:20-20 | the symbols are the digits and letters without 0, I, O and l, in ascending order |
| `Base58.DecodeInvertsEncode` | src/address_helpers.h:84-171 | decoding an encoded byte string gives it back, for every byte string |
| `Base58.EncodeInvertsDecode` | src/address_helpers.h:84-171 | encoding what a text decoded to gives the text back if and only if it is over the alphabet |
| `Base58.DecodesWhen` | src/address_helpers.h:111-171 | the decoder fails exactly when some character is neither a symbol nor NUL |
| `Base58.NulDecodesElsewhere` | src/address_helpers.h:111-171 | a text holding NUL that decodes, and the other text that its bytes encode to |
| `BlockCodec.Serialize` | src/block.cpp:332-356 | the stream is the piped fields, the length-prefixed transactions and the metadata tail |
| `BlockCodec.ReadTransactions` | src/block.cpp:453-491 | the position loop reads length-prefixed records with the source's bounds and wrap-around |
| `BlockCodec.Deserialize` | src/block.cpp:358-521 | the position-advancing reader computes the specified decoding, errors included |
| `BlockCodec.RecordsReadBack` | src/block.cpp:453-491 | records read back whatever they contain |
| `BlockCodec.BlockRoundTrip` | src/block.cpp:332-521 | at or above the activation height a block with transactions survives whole, with the work field reset |
| `BlockMetadata.LegacyReadsInside` | src/block.cpp:493-516 | below the activation height a block with transactions is given exactly what the first mark inside its own metadata text reads to, the bounds check's wrap-around included |
| `BlockMetadata.LegacyDropsMetadata` | src/block.cpp:493-516 | so metadata whose text does not hold the mark are lost |
| `BlockMetadata.InnerTextIsShorter` | src/block.cpp:501-516 | what is read from inside the metadata text is at least eleven characters shorter than it |
| `BlockMetadata.MetadataSurvivesIff` | src/block.cpp:493-516 | every block with transactions survives exactly from the activation height on or when the inner mark restores its metadata, and is unreadable exactly below it with an inner length that does not parse; without an inner mark exactly from the activation height on or without metadata |
| `BlockMetadata.InnerMarkThrows` | src/block.cpp:501-509 | a metadata text with an unparsable inner length makes an older block unreadable |
| `BlockMetadata.EmptyBlockMark` | src/block.cpp:493-501 | the search in a block without transactions stops on the first field that poses as the mark, and on the metadata exactly when none does |
| `BlockMetadata.EmptyBlockSurvivesIff` | src/block.cpp:332-521 | a block without transactions survives exactly when no field poses as the mark or the first that does reads back to the same metadata, and is unreadable exactly when the first that does has a length that does not parse |
| `BlockMetadata.EmptyBlockRoundTrip` | src/block.cpp:332-521 | in particular it survives when no field poses |
| `BlockMetadata.FalseMarkHidesMetadata` | src/block.cpp:493-516 | any posing field that carries a length and that much text hides the real metadata |
| `BlockMetadata.FalseMarkThrows` | src/block.cpp:501-509 | any posing field whose length does not parse makes the whole block unreadable |
| `BlockMetadata.PosingHashes` | src/block.cpp:493-516 | a previous-block hash that hides the metadata and one that makes the block unreadable |
| `PayloadCommitment.ComputeDigest` | src/consensus09_commitment.h:16-33 | the appending loops hash exactly the specified preimage |
| `PayloadCommitment.PreimageInjective` | src/consensus09_commitment.h:16-33 | the preimage determines the height, every payload transaction and the printed metadata |
| `PayloadCommitment.CommitmentBindsPayload` | src/consensus09_commitment.h:56-75 | two accepted blocks with one commitment carry one payload and height, unless their preimages collide under the hash |
| `PayloadCommitment.Template.Prepare` | src/consensus09_commitment.h:36-55 | the in-place preparation ends in the prepared block or fails exactly without a coinbase or with foreign metadata |
| `PayloadCommitment.PayloadKept` | src/consensus09_commitment.h:41-44 | preparation keeps every payload transaction field by field and empties only its sender and the scripts of its inputs |
| `PayloadCommitment.CoinbaseKept` | src/consensus09_commitment.h:50-54 | the coinbase keeps inputs, sender and, in order and each once, exactly its outputs that are no commitments, followed by one zero-amount commitment to the prepared block |
| `PayloadCommitment.MetadataGathered` | src/consensus09_commitment.h:45-49 | the block's metadata are those of its payload transactions, the last that brings a key deciding |
| `PayloadCommitment.Check` | src/consensus09_commitment.h:56-75 | the loops accept exactly the specified blocks |
| `PayloadCommitment.PrepareEstablishesCheck` | src/consensus09_commitment.h:36-75 | the check accepts a prepared block if and only if payload metadata are objects and no coinbase output is a token or a lock |
| `PayloadCommitment.PrepareIsIdempotent` | src/consensus09_commitment.h:36-55 | preparing a prepared block changes nothing |
| `ForkRecovery.FindAncestor` | src/fork_recovery_policy.h:34-66 | with no assumption on the chains, Found means agreement at the height and a parting right above it or the shared top; probes are at most 2 + ceil(log2(width)) |
| `ForkRecovery.FindGreatestCommon` | src/fork_recovery_policy.h:34-66 | for chains with the common-prefix property Found is the greatest common height and BeyondWindow means there is none |
| `ForkRecovery.CeilLog2Covers` | src/fork_recovery_policy.h:55-65 | the logarithm used in the bound is the least power of two covering the width |
| `ForkRecovery.FourteenProbes` | src/fork_recovery_policy.h:8-24 | the production window of 4096 blocks never needs more than fourteen probes |

## Left out

- The script machine, signatures, SHA-256, RIPEMD-160 and the wallet: parameters or boolean
  inputs. A machine's result is a function of the state it starts from.
- VotingRuns.RunCounts: assumes a machine that performs the one store of the voting script, because the family's own checks bound another machine only up to its resulting state.
- KeyValue.RunIsAssignments: the same assumption for the key/value script.
- ConfirmedChain.EveryLoadIsSound: the events of a block are taken one at a time in block order, and an anchor's amount is the one its creating or continuing transaction states.
- Undo journals, reorganisation, mempool and peer-to-peer code: a commit is the next database.
- CreationShape.ValidateStatefulCreationShape: a refusal states that some refusing condition holds, not which of several it reports first.
- MarketStore.MarketStore.ListActive: returns the set of listed adverts; row order and the outward row views are not modelled.
- MarketStore.MarketStore.Post: the client intent and the handshake blobs enter as the result of their schema validation, bearer tokens as their hashes, and random identifiers as a sequence of draws.
- MarketStore.MarketStore.BindReservationToFreshSwap: is a step of every run, but nothing is claimed about maker and taker identifiers of rows bound only through it.
- The aggregate `counts` of the market store and its connection handling: they add only easy members.
- MarketExpiry.ReadsChangeNothing: compares outcomes up to updated_at, which records when an expiry was noticed.
- MarketQuote.BuildQuote: takes a resolved active pair; the fixed explanatory texts of the answer are omitted.
- MarketQuote.QuoteIsOrderFree: assumes that an identifier names one advert, as the table's primary key ensures.
- RateLimiter.SlidingWindowLimiter.Allow: one window length per limiter, and times as real numbers.
- AnchorQueue.AnchorService.Live: its histories enqueue between passes and start from a store in which every anchor has its receipt; outside of these the promise fails, exactly as AcknowledgedKeptIff and EnqueueKeepsItem state.
- AnchorQueue.AnchorService.Enqueue: the latest-epoch pointer, the usage counter and the lineage checks before persistence are not modelled.
- PayloadCommitment.Template.Prepare: what a failing preparation leaves of the block is not stated; the error abandons the block.
- JSON text, the wallet's funding choice, the retry timer and the decoding of a stored transaction in the anchor service: abstract values and per-attempt inputs.
- BlockCodec.BlockRoundTrip: the transaction and metadata codecs are parameters that read back what they wrote, and data stay below 2^64 characters.
- PayloadCommitment.PreimageInjective: assumes that the binary form of a transaction fixes its number of inputs and that lengths fit their fixed-width fields; CommitmentBindsPayload excludes a collision of the two preimages at hand.
- PayloadCommitment.PrepareIsIdempotent: assumes that a transaction identifier does not depend on the stored identifier.
- The fixed-layout lock parsers (time, hash, oracle, HTLC, multisig, magic) and the 80-byte header: byte-offset checks that would add only easy members.
- AI providers, prompts, desktop interface, explorer, command line and configuration.
