# Guardian: a verified model

Guardian is a policy and signing service for Bitcoin vaults. It keeps journals of what it
has authorized, signs only what a journal allows, and resumes from its journals after a
crash. This project models the parts of it whose safety rests on an argument over whole
runs, over all inputs of an algorithm, or over an encoding, and proves those arguments.
`dafny verify dfyconfig.toml` checks everything.

## What is modelled

| file | component |
|---|---|
| `DelegationJournal.dfy`, `DelegationSlots.dfy`, `DelegationSigning.dfy`, `DelegationStream.dfy`, `DelegationReplay.dfy`, `DelegationStops.dfy` | delegated renewal: the phase journal and its stream slots, MuSig2 signing from a sealed seed (BIP 327), the event stream, its replay, when the replay ends and what stops it for good |
| `VtxoLifecycle.dfy`, `CoinSelection.dfy`, `SpendVerify.dfy` | spends: operations under concurrent clients, coin selection, verification of the transaction |
| `PolicySequence.dfy`, `SavingsJournal.dfy`, `SavingsRecovery.dfy`, `SchemaRetirement.dfy` | the ledger: external sequence, recovery journal and its callers, migration from schema 11 to 12 |
| `TreeGraph.dfy`, `OutputMatching.dfy`, `FinalDigest.dfy`, `WalletPolicyId.dfy` | batch trees, required outputs, canonical digests, the Ledger wallet policy id |
| `RecoveryArchive.dfy`, `PasskeyTickets.dfy` | archive sessions and one-use tickets |
| `BoardDispatch.dfy`, `PaymentDispatch.dfy` | at-most-once Operator calls for boarding and Bitcoin payments |
| `Basics.dfy`, `Runs.dfy`, `Ordering.dfy`, `ByteCodec.dfy` | shared types and hex text, induction over runs, sorting, order-free and largest sums, byte encodings |

A concurrent component is a state machine whose steps are the atomic store calls, with
everything a caller holds between two of them as state; a run is any sequence of steps, so
every interleaving, stale read, crash and restart is covered. Objects that are changed in
place are classes whose methods are proved against the functions the run theorems use.
Where such a method is straight-line code its contract only says that it is that function, and
it has no row below: `Journal.AdvancePhase`, `BatchAccumulators.Take`,
`VtxoStore.TransitionVtxoOperation` and `CommitSignedVtxoOperation`,
`BoardJournal.AppendVaultBoardDispatch` and `AppendVaultBoardAuthorizationAndDispatch`,
`PaymentJournal.AppendSpendingRenewalEvent`, `TicketService.Issue`, and
`ArchiveService.PutRecoveryBackup`, `ReadRecoveryArchive` and `WriteRecoveryArchive`. The
lemmas called `StepsExactly` say, step by step, that a run is made of these calls.

## Assumptions

- Rows are authentic: a MAC that verifies was made by the service for that row, so journals
  are read as written. Store calls are atomic (one mutex, one connection); a commit may fail,
  succeed, or take effect without the caller learning it.
- Hashes named as bindings or identities are injective where `DelegationSigning`,
  `RecoveryArchive`, `PasskeyTickets` say so; `WalletPolicyId` assumes injectivity only on the
  strings actually hashed. A sealed seed opens only under its own key and binding.
- The Operator, the indexer, the fee estimator, the signer, clocks, randomness and all
  signature, PSBT and chain checks are arbitrary values or verdicts supplied to a step; where the
  same inputs are checked again after a restart, they are arbitrary but fixed functions.
- A renamed counter file stays renamed; the counter file is not restored with the database.

## Model

| member | source | states |
|---|---|---|
| `DelegationJournal.AdvanceKeepsSound` | internal/policy/spending_delegation.go:432-557 | no accepted call rewrites a phase; every written phase has its predecessor; a final authorization excludes cleanup and expiry; at most one terminal phase, after which nothing is written |
| `DelegationJournal.ReachableJournal` | internal/policy/spending_delegation.go:432-557 | in every reachable journal a signed tree has its committed nonces, prepared tree, batch, registration and claim; a final authorization was never rejected, expired or under cleanup; what was written once is there unchanged for good |
| `DelegationJournal.AdvancesExactly` | internal/policy/spending_delegation.go:432-557 | the whole answer of the journal, phase by phase: a journal that has ended acknowledges only the phase that ended it, one under cleanup takes nothing but cleanup and expiry, a phase that is there is acknowledged for the same evidence only, a new one is written exactly when due |
| `DelegationJournal.StreamEventWrittenIff` | internal/policy/spending_delegation.go:432-557 | a stream event enters its slot if and only if the journal is open and the slot holds the very same event, or is empty with room left in the transcript and the phase it needs written |
| `DelegationSigning.PrepareSpendingDelegationTree` | internal/application/spending_delegation_keys.go:256-297 | the capsule has a nonce for exactly the nodes that list our key, each the public half of the secret derived from key, seed, binding and txid, and is sealed under the plan-and-tree binding |
| `DelegationSigning.SignSpendingDelegationTree` | internal/application/spending_delegation_keys.go:349-439 | signatures exactly for the nodes that list our key, if the call equals the journal, the capsule opens and every nonce is there, and nothing otherwise; each signature commits to the node's cosigners in order with the nonce each of them sent, to this node of this tree, and to the sweep path of network and expiry, and is made with the secret nonce of this capsule |
| `DelegationSigning.ChallengesAgreeIff` | internal/application/spending_delegation_keys.go:400-427 | two calls on one tree and network have one challenge for a node if and only if every cosigner of the node sent the same nonce in both |
| `DelegationSigning.PreparedSignsIff` | internal/application/spending_delegation_keys.go:349-439 | round trip: a prepared capsule opens exactly for its plan, tree and key, and everything is then signed exactly when each node that lists our key has one nonce per cosigner, ours the prepared one, and its parent |
| `DelegationSigning.TranscriptIff` | internal/application/spending_delegation_keys.go:314-347 | the comparison with the journal passes exactly while contract, plan, tree and nonces are the recorded ones and no phase after the signed tree was written |
| `DelegationSigning.NonceMeetsOneChallenge` | internal/application/spending_delegation_keys.go:314-439 | in every run, with any interleaving of journal writes, comparisons, signatures and restarts, two signatures with one secret nonce have one challenge |
| `DelegationSigning.OneCapsuleOneTree` | internal/application/spending_delegation_keys.go:314-439 | in every run all partial signatures made from one sealed seed are over one tree and one peer-nonce map |
| `DelegationSlots.NamesAreInjective` | internal/application/spending_delegation_stream.go:13-44 | the journal name of a stream event determines its kind, batch index and txid |
| `DelegationSlots.EarlierIsTotalOrder` | internal/application/spending_delegation_stream.go:56-77 | rank then name is a strict total order on everything a journal can hold |
| `DelegationStream.SortForReplay` | internal/application/spending_delegation_stream.go:49-86 | whatever order the map yields, the replay list holds every persisted slot once, in (rank, name) order |
| `DelegationStream.ReplayOrderIsUnique` | internal/application/spending_delegation_stream.go:56-77 | there is only one such list |
| `DelegationStream.KeptExactly` | internal/application/spending_delegation_stream.go:13-44 | an event is kept exactly when it names this batch and has a slot of its kind, index and txid; it is an error exactly when it names this batch and has none; all else is ignored |
| `DelegationStream.PersistedIsOurs` | internal/application/spending_delegation_attempts.go:364-405 | in every run every persisted event names the batch of the system, which never changes, and lies in its own slot |
| `DelegationStream.OtherBatchIgnored` | internal/application/spending_delegation_attempts.go:404-407 | an event of another batch changes nothing at all |
| `DelegationStream.OwnBatchPersisted` | internal/application/spending_delegation_attempts.go:364-373 | an event of this batch is persisted in its slot exactly when the journal takes it, whatever is refused afterwards; otherwise the life ends and nothing changes |
| `DelegationStream.NodeTaken` | internal/application/spending_delegation_attempts.go:404-423 | a tree event is taken exactly when its tree has room or has the txid with the same node |
| `DelegationStream.SigningTaken` | internal/application/spending_delegation_attempts.go:424-458 | a signing event is taken exactly when it lists us and the canonical tree passes; the first fixes tree, commitment and capsule after the checks before signing, a later one has to bring the same |
| `DelegationStream.NoncesTaken` | internal/application/spending_delegation_attempts.go:459-498 | nonces are taken exactly for a node we sign and unchanged; the last are committed before the signer is asked, and signed with only if they serve |
| `DelegationStream.ReadyForExactlyTheCosigners` | internal/application/spending_delegation_keys.go:387-406 | a node can be signed exactly when its event brought 66-byte nonces of exactly its cosigners, ours as in the capsule |
| `DelegationStream.SignatureTaken` | internal/application/spending_delegation_attempts.go:499-525 | a signature of 64 bytes is taken exactly for a node that is there and has none or the same one |
| `DelegationStream.FinalTaken` | internal/application/spending_delegation_attempts.go:526-545 | a finalization is taken exactly when it is authorized, or the tree is signed and its checks pass, which authorizes it |
| `DelegationStream.PersistsAsJournalAdvances` | internal/application/spending_delegation_attempts.go:364-373 | the event loop persists an event exactly when the phase journal takes its encoding, and afterwards stream and phase journal still agree slot by slot |
| `DelegationStream.MapsAreCanonical` | internal/application/spending_delegation_attempts.go:327-525 | in every run of lives, crashes, live events and replays, once a life has replayed its journal its maps are a fixed function of the set of persisted events |
| `DelegationStream.ContentsOfMaps` | internal/application/spending_delegation_attempts.go:404-525 | and field by field: a node has the core and children of its persisted event and the persisted signature in lower case once there is one; connectors and nonces are as persisted |
| `DelegationStream.SameEventsSameMaps` | internal/application/spending_delegation_attempts.go:327-525 | two histories that persisted the same events have the same node, connector and nonce maps, whatever their arrival orders and restarts |
| `DelegationStream.CommittedIsCanonical` | internal/application/spending_delegation_attempts.go:457-497 | in every run the nonces committed for signing are the persisted ones for exactly the nodes of the capsule, and no later life prepares another tree or commits other nonces |
| `DelegationReplay.ApplyKeepsSizes` | internal/application/spending_delegation_attempts.go:413-422 | no event takes a tree past 512 nodes |
| `DelegationReplay.ReplayEndsIff` | internal/application/spending_delegation_attempts.go:327-548 | from every reachable journal that is not yet authorized, with the journal open, keys and Operator at hand and the clock allowing, a restarted life replays to the end if and only if the journal is coherent: trees within bounds, every batch node of the prepared tree sent with a child map, no batch node beyond that tree, our key among the cosigners, the tree check and, before preparing, the signing checks passed, nonces only for nodes we sign and serving for a signature once complete, signatures of 64 bytes only for persisted nodes and agreeing with them, and a finalization passing its checks on the persisted trees |
| `DelegationReplay.ReplayExists` | internal/application/spending_delegation_stream.go:49-86 | every journal has a replay, so the condition is about something in every state |
| `DelegationStops.LateNodeStopsReplay` | internal/application/spending_delegation_attempts.go:437-453 | a batch node persisted after the signing tree was prepared makes every later replay stop |
| `DelegationStops.LateNodeRun` | internal/application/spending_delegation_attempts.go:404-453 | such a run: boot, node, signing event, another node, crash; the replay that follows does not end |
| `DelegationStops.ChildlessNodeStopsReplay` | internal/application/spending_delegation_attempts.go:345-421 | a node of the prepared tree whose event had no child map makes every later replay stop, since the prepared tree stores an empty one |
| `DelegationStops.ChildlessRun` | internal/application/spending_delegation_operator.go:30-46 | such a run: boot, a node without a child map, signing event, crash; the replay that follows does not end |
| `DelegationStops.IncoherentForGood` | internal/application/spending_delegation_stream.go:49-100 | a journal that is incoherent when a life ends never changes again, whatever the outside verdicts of later lives: no restart gets to a live event, so what is missing can never be persisted |
| `DelegationStops.UnsignedFinalStopsReplay` | internal/application/spending_renewal_final.go:185-187 | a finalization persisted before a batch node had its signature stops every replay |
| `DelegationStops.UnsignedFinalRun` | internal/application/spending_delegation_attempts.go:526-542 | such a run: boot, node, signing event, nonces, finalization; the tree is signed by us, the finalization refused, and the replay that follows does not end |
| `DelegationStops.MissingNonceStopsReplay` | internal/application/spending_delegation_keys.go:387-406 | nonces for all of our nodes of which one set lacks our own stop every replay |
| `DelegationStops.MissingNonceRun` | internal/application/spending_delegation_attempts.go:457-491 | such a run: boot, node, signing event, nonces without ours; they are committed, the signer refuses, and the replay that follows does not end |
| `DelegationStops.RefusedSigningRun` | internal/application/spending_delegation_keys.go:256-262 | a run whose tree the checks before signing refuse: the signing event is persisted, nothing is prepared, and the replay that follows does not end |
| `VtxoLifecycle.VtxoStore.ReserveVtxoOperation` | internal/policy/vtxo_ledger.go:103-219 | expired reservations of the vault are aborted and the new row inserted in one transaction, or nothing changes; the full new row set is given |
| `VtxoLifecycle.ReserveIff` | internal/policy/vtxo_ledger.go:103-259 | an operation is let in exactly when it reserves 1 to 50 inputs under a fresh id, everything else admits it, and among the operations other than expired reservations of its vault none holds one of its inputs and none of its vault is unfinished or unresolved; the expired are then aborted and nothing else changes |
| `VtxoLifecycle.TransitionExactly` | internal/policy/vtxo_ledger.go:265-298 | the five edges of the state graph, and what a compare-and-swap answers |
| `VtxoLifecycle.CommitExactly` | internal/policy/vtxo_ledger.go:303-351 | signing commits with the counter or not at all; a late caller is shown the stored row, a signed one only with an accepted counter |
| `VtxoLifecycle.AuthorizeEffect` | internal/application/vtxo.go:900-1045 | authorizing a reserved row stores request, proof and signed transaction, field by field, and returns that transaction; with a refused counter nothing |
| `VtxoLifecycle.LateAuthorizeEffect` | internal/application/vtxo.go:900-1045 | a request that lost the race gets the stored transaction exactly if it is the very request that was signed |
| `VtxoLifecycle.CheckpointsEffect` | internal/application/vtxo.go:1047-1146 | cosigning stores bundle and request and moves to submitted; a late request gets the stored bundle exactly if it is the same request |
| `VtxoLifecycle.MoveEffect` | internal/application/vtxo.go:748-899 | promote gives submitted, expire and abort give aborted, settle gives finalized for our own spend and unresolved for another's, only from the state that was read, and nothing else in the row changes |
| `VtxoLifecycle.SwapAdvances` | internal/policy/vtxo_ledger.go:377-409 | a compare-and-swap with a row derived from any stale read moves the stored row only to a later version of itself |
| `VtxoLifecycle.ReachesIsPath` | internal/policy/vtxo_ledger.go:398-409 | the closed form of reachability used in the invariant is exactly the existence of a path of valid transitions |
| `VtxoLifecycle.OperationsFollowGraph` | internal/application/vtxo.go:748-1146 | in every interleaving each operation keeps its reserved facts, follows a path of the state graph and never changes again once finalized, aborted or unresolved |
| `VtxoLifecycle.TerminalHasItsVerdict` | internal/application/vtxo.go:871-888 | in every run an operation is finalized only after a settle step that found its inputs spent by itself, and unresolved only after one that found them spent by another |
| `VtxoLifecycle.ReturnedIsTheDurableOne` | internal/application/vtxo.go:900-1045 | every authorised transaction ever returned for an operation is the single one in its durable row from then on, and the operation can never be aborted |
| `VtxoLifecycle.CosignedIsTheDurableOne` | internal/application/vtxo.go:1047-1146 | the same for the cosigned checkpoint bundle |
| `VtxoLifecycle.AnswersMatchTheirRequest` | internal/application/vtxo.go:900-1146 | in every run an authorize request is answered only with the transaction signed for this very request, a checkpoint request only with the bundle cosigned for it, and the durable row still holds both |
| `VtxoLifecycle.AbortedReturnsNothing` | internal/application/vtxo_abort.go:30-87 | an aborted operation never had and never will have a transaction returned, before or after the abort |
| `VtxoLifecycle.ReservationsExclude` | internal/policy/vtxo_ledger.go:226-259 | in every reachable state no outpoint is locked by two operations, no vault has two unfinished ones, and a reserved row has no signing artifact |
| `CoinSelection.SumCoins` | internal/application/vtxo.go:525-533 | the checked sum succeeds exactly when the exact total fits 64 bits, and then equals it |
| `CoinSelection.ScanFees` | internal/application/vtxo.go:552-585 | the scan finds the smallest fee that is its own estimate with change not below dust, or shows there is none |
| `CoinSelection.Solve` | internal/application/vtxo.go:521-586 | a solution is the exact no-change fee when there is one and otherwise the smallest fixed point; a negative answer means none exists |
| `CoinSelection.ListCoins` | internal/application/vtxo.go:420-448 | the listed coins are exactly those worth more than their own input fee, in order; a failure has its cause: a malformed coin, an unusable estimate, or the budget |
| `CoinSelection.ListableExactly` | internal/application/vtxo.go:420-440 | a list is accepted exactly when every coin has a txid, the vault's script, a value below 2^63 and a usable estimate |
| `CoinSelection.CheckOutpoints` | internal/policy/vtxo.go:147-183 | accepts exactly when no outpoint occurs twice |
| `CoinSelection.OrderIsUnique` | internal/application/vtxo.go:385-393 | two listings of the same coins in any two orders give the same ordered economic coins |
| `CoinSelection.LargestFirst` | internal/application/vtxo.go:385-393 | what a coin is worth after its own input fee never increases along the order, and equal ones go by txid and then index |
| `CoinSelection.HeadIsWorthMost` | internal/application/vtxo.go:385-393 | no n distinct listed coins are worth more together, after their input fees, than the first n |
| `CoinSelection.PickedAreWorthMost` | internal/application/vtxo.go:385-416 | every picked coin is a listed one and worth at least as much as every coin left out |
| `CoinSelection.InsufficientIsAboutTheBest` | internal/application/vtxo.go:394-416 | an insufficient answer means that for every number of inputs up to 50 the coins worth most together admit no fee |
| `CoinSelection.SelectSpendVtxos` | internal/application/vtxo.go:363-416 | the shortest prefix of the ordered coins that has a solution, with its best solution; an insufficient answer means no allowed prefix has one; a failure has its cause; at most 20,000 estimator evaluations |
| `CoinSelection.SelectionIsOrderFree` | internal/application/vtxo.go:363-416 | whatever order the indexer lists the coins in, two searches that end without a failure give the same answer: same coins in the same order, same fee and change, or both insufficient |
| `CoinSelection.TotalIsOrderFree` | internal/application/vtxo.go:406-413 | sorting the picked coins for the bundle does not change their total |
| `CoinSelection.SelectionBalances` | internal/application/vtxo.go:363-416 | what the picked coins hold is exactly amount plus fee plus change and fits 64 bits, the fee is within the cap, and change is absent or at least dust |
| `SpendVerify.SumInputs` | internal/application/vtxo_verify.go:300-327 | the loop succeeds exactly when every input spends its own checkpoint with the reserved value and the exact sum fits 64 bits |
| `SpendVerify.CheckOutputs` | internal/application/vtxo_verify.go:328-367 | the wrapping arithmetic accepts exactly the outputs destination, change if any, zero anchor, with exact conservation |
| `SpendVerify.VerifySpendPsbt` | internal/application/vtxo_verify.go:280-370 | accepted if and only if the transaction spends exactly the checkpoints in order, pays exactly the operation's outputs and balances in exact integers |
| `SpendVerify.AcceptedConserves` | internal/application/vtxo_verify.go:328-370 | for every accepted transaction the reserved inputs equal outputs plus fee as unbounded integers, and no output exceeds them |
| `SpendVerify.StoredOperationBalances` | internal/application/vtxo.go:203-258 | whatever coin selection chose and the table checks let in lost nothing in the casts to signed 64 bits: inputs equal amount plus change plus fee |
| `SpendVerify.SelectionIsStorableIff` | internal/application/vtxo.go:203-258 | a selection within the vault's caps fits the tables exactly when its change fits 63 bits and has a script, and the row says what was selected |
| `SpendVerify.StoredOperationAcceptedByShape` | internal/application/vtxo.go:203-258 | for a stored operation the verifier accepts a transaction if and only if it spends the checkpoints in order and pays the operation's outputs: every amount check then holds |
| `PolicySequence.Monotonic.ObserveCount` | internal/policy/monotonic.go:37-60 | the counter file never goes back, a count below it is refused without a write, and success means the file holds the count |
| `PolicySequence.Sequence` | internal/policy/sequence_base.go:58-74 | the sum is exact, never leaves 64 bits, and cannot overflow when base and count are signed 64-bit values |
| `PolicySequence.ObservedExactly` | internal/policy/monotonic.go:37-60 | exactly which counts are accepted and what the file holds afterwards, for every fate of the file write |
| `PolicySequence.EconomicExactly` | internal/policy/vtxo_ledger.go:209-219 | an observe-first write reports success exactly when its count was accepted and its commit acknowledged, and leaves its rows exactly when the commit took effect |
| `PolicySequence.RecoveryExactly` | internal/policy/ledger_savings.go:131-231 | the same for a recovery write, with both observations, crash and unacknowledged commit |
| `PolicySequence.ReportedIsNeverLost` | internal/policy/ledger.go:277-318 | in every run of writes, crashes, failed commits, lost file writes and restores, whenever the service is up its rows still begin with everything held at any earlier reported success |
| `PolicySequence.SuccessMeansEqual` | internal/policy/ledger_savings.go:131-231 | whenever a write reports success the counter equals the sequence of the database |
| `PolicySequence.RestoreDecidedByCounter` | internal/policy/monotonic.go:37-60 | attaching to a restored database succeeds exactly when its sequence is not below the counter; a restore that would lose a reported event is refused whatever the file write does |
| `PolicySequence.ReplacementDecidedByCounter` | internal/policy/monotonic.go:37-60 | any database at all put in place while the service is down is accepted by its length alone; an accepted one is no shorter than what was reported, and loses a reported event if and only if it differs from the history within what was reported |
| `PolicySequence.AbandonedBackupIsAccepted` | internal/policy/monotonic.go:50-59 | the input for it: a backup of a line abandoned by an earlier accepted restore is accepted although it loses a reported event |
| `PolicySequence.AheadExactlyByOvershoot` | internal/policy/vtxo_ledger.go:209-219 | a step puts the counter ahead of its database if and only if it is an observe-first write with rows whose count reached the file while its commit did not happen, or a restore to before the counter; never a recovery write |
| `PolicySequence.OvershootRun` | internal/policy/vtxo_ledger.go:209-219 | a run of two steps that ends so: attach, then a write whose commit is refused after its count was observed |
| `PolicySequence.CounterStaysOnHistory` | internal/policy/ledger_savings.go:131-231 | in every run without such an overshoot the counter never exceeds the sequence of the current history, nor that of the database while up |
| `SavingsJournal.NormalIsIdentity` | internal/policy/ledger_savings_replay.go:55-56 | trimming and lower-casing change nothing in a validated record |
| `SavingsJournal.SavingsLedger.ApplyLedgerSavingsRecovery` | internal/policy/ledger_savings.go:124-232 | the row scan and its checks compute the journal function: at most one event is appended, and a log whose ids do not increase is refused |
| `SavingsJournal.AnswerToFirst` | internal/policy/ledger_savings.go:187-226 | the first request of a key is recorded as a reservation stamped now; a completion without one is refused |
| `SavingsJournal.AnswerAfterReservation` | internal/policy/ledger_savings_replay.go:66-74 | after a reservation only its own sighash and destination go on: the request again is answered with the stored reservation, a completion with its candidate and proof is recorded, all else is refused |
| `SavingsJournal.AnswerAfterCompletion` | internal/policy/ledger_savings_replay.go:75-85 | after a completion the same sighash is answered with it and nothing is written, another sighash is a new reservation, another completion is refused |
| `SavingsJournal.ReachableRecordsAreValid` | internal/policy/ledger_savings.go:124-131 | every record of a reachable log is well shaped, field by field |
| `SavingsJournal.AppendFollows` | internal/policy/ledger_savings.go:187-226 | what is appended follows the newest record of its key: a completion with its reservation's sighash, candidate and proof, or a reservation with another sighash; same destination and creation time |
| `SavingsJournal.ApplyKeepsWellFormed` | internal/policy/ledger_savings.go:124-232 | every request keeps ids increasing and every key's records alternating, and only extends the log |
| `SavingsJournal.ReachableLogAlternates` | internal/policy/ledger_savings_replay.go:51-85 | in every reachable log the records of one vault, outpoint and purpose strictly alternate reservation, completion; each completion has its reservation's sighash, candidate and proof, each later reservation a sighash other than the completion before it; one destination |
| `SavingsJournal.ReachableLogGrows` | internal/policy/ledger_savings.go:124-232 | ids strictly increase and no event is ever rewritten or removed |
| `SavingsRecovery.SignLedgerSavingsRecovery` | internal/application/ledger_savings_recovery.go:64-113 | one request with its completion leaves the log and returns the signature that the journal's two answers determine, and keeps the log well formed |
| `SavingsRecovery.UndisturbedIsDurable` | internal/application/ledger_savings_recovery.go:75-113 | what one request returns is the signature of a completion event of its own key and sighash; one other than the signer's answer was completed before the request |
| `SavingsRecovery.RetryReturnsTheStored` | internal/application/ledger_savings_recovery.go:82-95 | the exact retry of a completed recovery returns the stored signature, if its shape is good, and writes nothing |
| `SavingsRecovery.ReservableIsSigned` | internal/application/ledger_savings_recovery.go:97-113 | a request whose key is new, pending with its sighash or completed with another is completed with the signer's answer, which is returned |
| `SavingsRecovery.CompletionRecordedIff` | internal/policy/ledger_savings.go:187-226 | a completion is recorded if and only if the newest record of its key is a reservation with the same sighash, candidate, proof and destination (and the record is valid, the sequence in order and an id left) |
| `SavingsRecovery.ReturnedIsDurable` | internal/application/ledger_savings_recovery.go:75-113 | in every interleaving of requests and restarts, with a signer that answers differently each time, everything returned is for good the signature of a durable completion event |
| `SavingsRecovery.LateCompletionIsNotRecorded` | internal/application/ledger_savings_recovery.go:97-113 | in every run a completion step changes the journal only by completing the reservation that is newest for its key; any other late completion leaves it unchanged |
| `SchemaRetirement.CleanThroughout` | internal/policy/schema_retirement.go:163-195 | no foreign key dangles after any single delete, for every database and account |
| `SchemaRetirement.StatementsOrdered` | internal/policy/schema_retirement.go:165-188 | for every foreign key of the schema the child's statement comes first and selects the children of everything the parent's statement selects; subqueries read tables not yet deleted from |
| `SchemaRetirement.ReferencesSpelledOut` | internal/policy/tenant_schema.go:68-100 | what every foreign key of the schema asks for, column by column |
| `SchemaRetirement.CountedRows` | internal/policy/ledger.go:292-298 | a row of exactly ten tables raises the economic count by one, no other row changes it |
| `SchemaRetirement.RetireSpares` | internal/policy/schema_retirement.go:135-139 | retiring any list of accounts, in any order, leaves exactly the rows that no statement read against the original database selects |
| `SchemaRetirement.RetireIsTheCascade` | internal/policy/schema_retirement.go:161-195 | the ordered statements delete exactly the rows that reach a retired vault through foreign keys, and the pending enrollments that name one |
| `SchemaRetirement.RetainedRowsStay` | internal/policy/schema_retirement.go:161-195 | every row of a retained vault is left unchanged, a pending enrollment if and only if no retired vault consumed its invite |
| `SchemaRetirement.PendingStaysIff` | internal/policy/schema_retirement.go:185-186 | a pending enrollment stays if and only if it names no retired vault and none consumed its invite |
| `SchemaRetirement.FreePendingsStay` | internal/policy/schema_retirement.go:185-186 | where no pending enrollment holds a consumed invite, a pending enrollment stays if and only if its own vault is retained |
| `SchemaRetirement.RetainedPendingGoes` | internal/policy/schema_retirement.go:185-186 | a database the schema admits in which a retained vault loses its pending enrollment |
| `SchemaRetirement.LedgerDatabase.DeleteRetiredAccount` | internal/policy/schema_retirement.go:163-195 | runs the statements one by one, foreign keys clean after each |
| `SchemaRetirement.LedgerDatabase.CollectRetired` | internal/policy/schema_retirement.go:74-116 | exactly the vaults with one of the four retired templates |
| `SchemaRetirement.LedgerDatabase.RetireSchemaEleven` | internal/policy/schema_retirement.go:74-159 | new base plus remaining rows equals all economic rows and connector operations before; deleted is exactly the cascade; refused only for an inauthentic row, a wrong version or a 64-bit overflow, and then nothing changes |
| `SchemaRetirement.LedgerDatabase.InitializeIntegrityState` | internal/policy/schema_retirement.go:12-64 | whichever way a database is opened its economic sequence is what it was; a base is invented only for an empty database |
| `TreeGraph.CheckOutputs` | internal/application/spending_renewal_final.go:57-63 | accepts exactly bounded outputs whose exact total is within the money supply |
| `TreeGraph.CheckShape` | internal/application/spending_renewal_final.go:53-76 | accepts exactly the nodes of the required shape |
| `TreeGraph.CountParents` | internal/application/spending_renewal_final.go:68-82 | succeeds exactly when no child is named twice, and then the map is the set of named nodes |
| `TreeGraph.Search` | internal/application/spending_renewal_final.go:92-112 | the stack search terminates, accepts exactly when every node is reachable from the root and every internal node has a supplied child, and never takes its cycle branch |
| `TreeGraph.CheckRenewalTree` | internal/application/spending_renewal_final.go:45-117 | accepts if and only if every node has the required shape, no child is named twice, supplied or not, and the nodes form one rooted tree whose every internal node has a supplied child; never answers cycle |
| `TreeGraph.PathsAgree` | internal/application/spending_renewal_final.go:77-91 | when no node is named twice, every node is reached from the root by at most one path |
| `TreeGraph.TreeHasOneRoot` | internal/application/spending_renewal_final.go:83-91 | a tree has exactly one unnamed node, the root |
| `TreeGraph.AcceptableLeadsToLeaf` | internal/application/spending_renewal_final.go:101-112 | from every node of an accepted tree a path leads to a supplied leaf |
| `OutputMatching.FirstMatch` | internal/application/spending_renewal_final.go:152-158 | the inner scan finds an unused equal output from index 2 on exactly when one is left |
| `OutputMatching.MatchOutputs` | internal/application/spending_renewal_final.go:149-163 | the greedy scan succeeds if and only if every requirement is present and the multiset of required pairs is contained in the multiset of outputs from index 2 on |
| `FinalDigest.CanonicalTreeNodes` | internal/application/vault_board_finalize.go:241-275 | accepts exactly the well-formed, duplicate-free, bounded lists and returns them as the sorted permutation |
| `FinalDigest.CanonicalIsOrderFree` | internal/application/vault_board_finalize.go:241-275 | permuting the supplied nodes changes neither acceptance nor the canonical list |
| `FinalDigest.WriteFinalRequest` | internal/application/vault_board_finalize.go:303-339 | the writer's loops emit exactly the specified bytes, children in ascending index order, or refuse other than one receiver and one input |
| `FinalDigest.DecodeEncode` | internal/application/vault_board_finalize.go:303-339 | a decoder recovers the whole request from its preimage, nodes and child maps included |
| `FinalDigest.PreimageIsOrderFree` | internal/application/vault_board_finalize.go:241-339 | permuting the supplied nodes never changes the preimage |
| `FinalDigest.AcceptedRequestsAgree` | internal/application/vault_board_finalize.go:303-339 | two accepted requests with equal preimages agree on batch, both PSBTs, expiry, input index, receiver, amount and the whole set of nodes |
| `ByteCodec.ReadsField` | internal/application/vault_board_verify.go:233-238 | a length-prefixed field reads back whatever follows it |
| `WalletPolicyId.Split` | internal/application/ledger_savings_backup.go:63-66 | the doubling loop ends with the largest power of two below n |
| `WalletPolicyId.Root` | internal/application/ledger_savings_backup.go:55-71 | terminates and equals the Merkle Tree Hash of section 2.1 of RFC 6962 for every non-empty list; 32 zero bytes for the empty one |
| `WalletPolicyId.ReadsVarInt` | internal/application/ledger_savings_backup.go:79-85 | the variable-length integers read back whatever follows them |
| `WalletPolicyId.ComputeId` | internal/application/ledger_savings_backup.go:54-88 | the id is the hash of the specified serialization |
| `WalletPolicyId.RootDeterminesList` | internal/application/ledger_savings_backup.go:54-77 | equal roots of lists of equal length are roots of equal lists, unless two of the strings hashed collide |
| `WalletPolicyId.IdDeterminesPolicy` | internal/application/ledger_savings_backup.go:54-88 | equal ids mean equal name, template and ordered key list, unless two of the strings hashed for them collide |
| `RecoveryArchive.ArchiveService.OpenRecoveryArchive` | internal/application/backup_session.go:88-127 | expired sessions go, at most 256 stay, and the new session is pinned to the header it saw |
| `RecoveryArchive.RevisionsAndHeaders` | internal/application/recovery_archive.go:141-195 | in every run from many sessions the revision counts the writes, write i named revision i, nothing stored is taken back, every stored payload has the header of the first, and no more than 256 sessions exist |
| `RecoveryArchive.ReadAnsweredExactly` | internal/application/recovery_archive.go:141-168 | in every reachable state a read is answered with the stored row, or its absence, exactly for a live session of the current enrollment whose row is proper |
| `RecoveryArchive.WriteAnsweredExactly` | internal/application/recovery_archive.go:169-195 | in every reachable state a write is answered exactly for a live session, a proper payload with the stored header, and either the exact retry, which changes nothing, or the current revision, which becomes the next |
| `RecoveryArchive.OpenedExactly` | internal/application/backup_session.go:88-127 | opening drops the expired sessions, refuses a 257th and a foreign backup, and else adds a session of eight hours pinned to what was seen |
| `RecoveryArchive.PinNeverDecides` | internal/application/recovery_archive.go:141-195 | in every reachable state a read or write of any session is answered, and changes the rows, as if the session were not pinned: the stored header is still the one it saw |
| `RecoveryArchive.RetryIsAnswered` | internal/policy/recovery_backup.go:85-88 | in every reachable state, also after an unacknowledged commit, the exact retry of the last write by any live session of the vault is answered with the stored row and changes nothing stored |
| `PasskeyTickets.TicketService.PruneAndCount` | internal/application/session_challenge.go:122-130 | the loop removes exactly the expired entries and counts the owner's live ones |
| `PasskeyTickets.TicketService.Consume` | internal/application/session_challenge.go:108-139 | decides and remembers as specified, pruning even when it answers busy |
| `PasskeyTickets.DecidedExactly` | internal/application/session_challenge.go:64-139 | a ticket is consumed exactly when it verifies under the live key for this purpose and owner, is unexpired and unspent, and neither limit is reached; busy is for the limits only |
| `PasskeyTickets.ConsumedWasIssued` | internal/application/session_challenge.go:30-139 | in every run a consumed ticket was issued by this process less than 120 seconds before, for this purpose and owner, and yields the challenge it was issued with |
| `PasskeyTickets.PrunedDecidesLikeFull` | internal/application/session_challenge.go:64-139 | with a clock that does not go back the pruned replay set decides every request exactly as the full history would |
| `PasskeyTickets.TicketsAreOneUse` | internal/application/session_challenge.go:108-139 | in every run no ticket is consumed twice while its key lives |
| `PasskeyTickets.ReplaySetIsExactAndBounded` | internal/application/session.go:195-249 | in every reachable state the decision is that of the full history, a consumed ticket is rejected for every owner and purpose, and the set holds at most 4096 entries and 256 per owner |
| `BoardDispatch.BoardJournal.BeginVaultBoardAttempt` | internal/policy/vault_board.go:538-657 | the exact latest request again, or a fresh request on a fresh attempt after the last one may rotate, or a refusal that changes nothing |
| `BoardDispatch.BegunExactly` | internal/policy/vault_board.go:538-657 | a request that names no registration starts the next attempt exactly when the last may rotate; one that names the latest is answered with it exactly when it is the same request and the attempt goes on; anything else is refused |
| `BoardDispatch.RotatesExactly` | internal/policy/vault_board.go:827-910 | the five ways in which an attempt may be followed by another, and no other |
| `BoardDispatch.DispatchedExactly` | internal/policy/vault_board.go:1003-1093 | when a dispatch row is created, acknowledged or refused |
| `BoardDispatch.AuthorizedExactly` | internal/policy/vault_board.go:663-775 | when a delete or final submission is authorized and dispatched together, acknowledged or refused |
| `BoardDispatch.SubmittedExactly` | internal/policy/vault_board.go:1104-1180 | when a result is recorded, acknowledged or refused; never for an invalidated final submission |
| `BoardDispatch.AttemptsAreApart` | internal/policy/vault_board.go:538-657 | in every reachable state no two attempts of an operation share a digest or a tree session, and of an attempt that was followed every dispatched call has its result, except an invalidated final submission |
| `BoardDispatch.RotationLeavesNoPermit` | internal/policy/vault_board.go:827-910 | when an attempt may rotate no call of it is still to be made, except a final submission invalidated by a confirmed conflict |
| `BoardDispatch.CallsAtMostOnce` | internal/application/vault_board_phases.go:121-148 | in every interleaving with crashes and unacknowledged commits each Operator call of an attempt's phase is made at most once, has its durable dispatch row, and no attempt sees both a delete and a final submission |
| `BoardDispatch.CallsFollowDispatch` | internal/application/vault_board_phases.go:373-388 | a call is made only after its dispatch row is durable and only for the latest attempt, or as a final submission already invalidated by a conflict |
| `BoardDispatch.FinalsSeparatedByConflict` | internal/policy/vault_board.go:827-910 | in every reachable state, once a later attempt is authorized to submit its final, that of every earlier attempt is invalidated by a confirmed conflict and has no recorded result |
| `BoardDispatch.OneFinalResult` | internal/policy/vault_board.go:1104-1180 | an operation has at most one recorded final result, whatever its attempts did |
| `PaymentDispatch.AppendKeepsSound` | internal/policy/spending_renewal.go:348-446 | a final dispatch excludes a deletion, a cancelled payment was never dispatched, digests agree along the chain, and a terminal journal is closed |
| `PaymentDispatch.AppendsExactly` | internal/policy/spending_renewal.go:348-446 | the transitions as a table of required and excluded phases, digests and time windows: a new phase is written exactly when the table allows it in a journal that has not ended |
| `PaymentDispatch.CallsAtMostOnce` | internal/application/spending_bitcoin_phases.go:90-111 | in every interleaving the register call and the final submission of a payment are each made at most once, each with its durable phase; a submitted final is never deleted, a dispatched registration never cancelled |
| `PaymentDispatch.CallsFollowDispatch` | internal/application/spending_bitcoin_phases.go:202-220 | a call is made only after its dispatch phase is durable |

## Where the code and an expectation differ

- The external counter can exceed the database sequence: reservations, renewals and boarding
  writes observe the new count before they commit. `PolicySequence.OvershootRun` is a run in which
  it does, `PolicySequence.AheadExactlyByOvershoot` gives the exact condition, and
  `PolicySequence.AheadFailsClosed` its effect. For recovery writes, which commit first, the counter
  never exceeds the sequence of the history.
- Stream events are persisted before they are applied, and the replay takes all tree events before
  the signing event and everything persisted before anything live. A journal can therefore hold what
  no replay gets past. `DelegationReplay.ReplayEndsIff` gives the exact condition, and
  `DelegationStops.IncoherentForGood` shows that such a journal stays as it is. Runs that get there:
  a batch node that arrived after the tree was prepared (`DelegationStops.LateNodeRun`); a node of the
  prepared tree whose event came without a child map, since canonicalising stores an empty map and the
  replayed event is compared with it as JSON (`DelegationStops.ChildlessRun`); a tree that the checks
  before signing refuse (`DelegationStops.RefusedSigningRun`); nonces without our own
  (`DelegationStops.MissingNonceRun`); and a finalization ahead of a tree signature
  (`DelegationStops.UnsignedFinalRun`). Maps are claimed equal for replays that end.
- For an empty key list the wallet policy root is 32 zero bytes, where RFC 6962 takes the hash
  of the empty string; `WalletPolicyId.Root` states both cases.
- A pending enrollment of a retained vault is deleted when its invite was consumed by a retired
  vault: `SchemaRetirement.RetainedPendingGoes` is such a database, and
  `SchemaRetirement.RetainedRowsStay` has the exact condition. The schema admits that database, but
  the service does not write it: a pending enrollment is reserved for an unconsumed invite only, and
  the service creates a vault together with the pending enrollment it completes
  (`SchemaRetirement.ReserveKeepsFree` and `CreateKeepsFree`, vault_create.go:52-101), so that there every pending enrollment of
  a retained vault stays (`FreePendingsStay`). The store itself would also create a vault without one.

## Left out

- HTTP routing, CORS, JSON decoding, logging, configuration and process assembly: no deep property.
- The Operator, Esplora and indexer clients: only their verdicts appear, as arbitrary values.
- Schnorr, P-256, WebAuthn, HKDF, AEAD, Taproot and PSBT library calls: abstract verdicts and free constructors.
- Truthfulness of "definitely not submitted" answers and at-most-once registration of delegated renewals: they depend on the Operator and on concurrent listings.
- Allowance totals and fee-rounding in floating point: the estimator returns a natural number or an error, and the allowance check is one verdict of reserve.
- Enrollment descriptors, status building, deployment pins, contract packs, and schema text comparison: long equality checks that would add only easy members.
- Times are integers; RFC 3339 formatting is not modelled.
- A stream event carries one message here; the wire format would allow several in one.
- The size limit of a stream event and the capacity of the transcript are among the journal's verdicts on a new event.
- The checks that the stream model needs of trees, commitments and signatures (`DelegationStream.Checks`) are functions of them, not computed; `TreeGraph` proves what the tree check accepts, on decoded transactions. That the check of a finalization refuses an unsigned batch node is a hypothesis of `DelegationStops.UnsignedFinalRun`, since the signature check is a library call.
- A contract and a plan do not change while their renewal runs.
- Error messages: a refusal is one value, except in the tree checker, where the cycle error is told apart.
- The Operator's delete call for Bitcoin payments is not fenced by a created row in the code, and no claim is made about it.
- Session purposes other than the recovery archive's do not occur, and are not modelled.
- SchemaRetirement.LedgerDatabase.CollectRetired: the order of vault ids is not modelled, since the result does not depend on it; connector_enrollment and recovery_session are dropped tables whose definitions the code knows only by digest, so their rows do not appear.
- PolicySequence.RestoreDecidedByCounter: restores are taken from the current history; `PolicySequence.ReplacementDecidedByCounter` says what holds for any other database.
- CoinSelection.SelectSpendVtxos: the in-place sorts are modelled as sorting of sequences.
- FinalDigest.CanonicalTreeNodes: the sort in place is modelled on sequences, and the parse of each node's PSBT is a function parameter.
- PasskeyTickets.TicketService.Consume: base64 and JSON canonicality of a ticket are folded into its being one value.
- DelegationSigning.SignSpendingDelegationTree: the checks of the signing tree against the contract are one verdict.
