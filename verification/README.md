# Contour off-chain coordination: a Dafny model

This project models the off-chain protocols of the Contour name repository and proves what they keep: the
permit issuer's leases, the x402 keeper's orders, and the evidence, log, timing and envelope algorithms
around them. It needs Dafny 4.11 and nothing else; `dafny verify dfyconfig.toml` checks all of it.

## How the files fit

- **Permit issuer.** `Leases` is the lease store as values, `LeaseAnswers` what each of its operations answers
  and writes, `LeaseStore` the same store as a class whose two indexes share mutable lease objects, `LeaseSweeps`
  its cleanup loops, `RateLimits` its limiter and `RequesterLock` its promise-chain lock. `IssuerProtocol` is the
  service as a step system: a call is a task that moves from one `await` to the next, and a run is any
  interleaving. `IssuerSafety` has the invariant, `IssuerTheorems` and `IssuerOrderedTimes` what holds over whole
  runs, `IssuerOutcomes` what permits say and what each answer leads to, `IssuerRuns` runs that show why the
  theorems have their conditions. `Permits` is the window contract.
- **x402 keeper.** `Orders` holds the state table and both stores as values, `OrderAnswers` what their calls answer
  and write, `OrderStore` the in-memory store as a class, `KeeperWorkflow` the workflow as a step system, `KeeperSafety` its invariant,
  `KeeperTheorems` the results over runs, `KeeperUniqueness` those across orders and `KeeperOutcomes` what its
  checks accept and its steps do, field by field.
- **Evidence and logs.** `Bytecode`, `LogScan`, `ControllerHistory`, `ManifestPreparer`, `SemanticJson` and
  `PromotionDigests`.
- **Timing and envelope.** `RpcSchedule` and `Challenge`.

Every algorithm that works in place is a method proved against a specification function or predicate; the
results about those specifications are lemmas.

## What is assumed

- Hashes and addresses are numbers, so the letter case of hex text does not appear (except in
  `ManifestPreparer`, where text form matters). Permit ids and order ids are fresh random values.
- The clock never goes back. Signers, chain reads, inspections, receipts and gateways answer arbitrarily, and
  any awaited call may reject.
- The issuer's reconcile loop is a set of independent locked sections, one for each listed lease, which admits
  more schedules than the loop. Its lock is a plain lock per requester; `RequesterLock.ChainIsPlainLock` shows
  that the promise chain is one. `LeaseSweeps.AnyOrderIsCleanup` shows that the order in which cleanup meets
  map entries does not matter.
- `ChainRead` stands for chain reads that passed the checks of `issue`; one that fails them is an `Abort`. The
  permit fields that `issue` copies from the request or the manifest without looking at them again are left out.
- The keeper's request digest is injective; payer, executor, normalization profile and settlement asset are
  fixed by its policy. A malformed decimal in a receipt proof counts as a mismatch. `paused` and the x402
  switch only decide whether a call starts. A step of the keeper uses the in-memory store; by
  `Orders.StoresAgree` an SQL call does the same or fails, and failing calls are among the steps.
- A sleep never ends early, and the two clock reads of a slot that does not sleep agree.
- JSON object keys are not array indexes, which JavaScript would order on its own.

## What turned out not to hold

- Not every run keeps competing windows 25 seconds apart: `issuanceNow` is taken before the chain reads, and
  meanwhile another requester's lease may run out and be given up. The gap is there exactly when the earlier
  reservation ends no later than the second of the later call's `issuanceNow`
  (`IssuerTheorems.GapIsDecidedAtIssuance`). That holds of unconfirmed leases when no lease is acquired with an
  `issuanceNow` behind that of an earlier acquisition, the cutoff of an earlier cleanup, or the expiry of a lease
  that reconcile has marked expired (`IssuerOrderedTimes.OrderedWindowsApart`). All three are needed: in
  `IssuerRuns.SlowReadsOverlap` (cleanup), `ExpiryProofOverlaps` (reconcile) and `TakeoverOverlaps` (acquisition)
  a slow reader is given the very same window for the same name. For every run
  `IssuerTheorems.LivePermitsNeverCompete` has the gap less the delay.
- A returned permit need not meet the window contract at the second it is returned: `issue` compares the
  permit's end with `issuanceNow`, and nothing looks at the clock after the chain reads and the signer. It meets
  the contract then exactly when it has not ended by then (`IssuerTheorems.ReturnedInWindow`), and always at
  `issuanceNow`; `IssuerRuns.LateReturn` is a run with a late signer.
- A lease that no index holds can still change: `markFailed`, `markManualReview` and `markExpired` wait between
  lookup and assignment, and a cleanup may run there (`IssuerRuns.MarkedBehindCleanup`). Nothing else changes one
  (`IssuerTheorems.LeaseHistory`).
- The idempotent answer out of the label index in `acquireLease` is never given (`Leases.AcquireDecides`), and
  the defensive second cleanup loop removes nothing (`IssuerTheorems.SecondCleanupLoopIsIdle`).
- The order stores differ on exactly the calls of `Orders.Diverges`. The workflow reaches one: on the in-memory
  store a run settles one payment for two orders (`KeeperUniqueness.OnePaymentSettledTwice`), which the unique
  indexes of the SQL store rule out (`KeeperUniqueness.PaymentsServeOneOrder`).
- Paging repeats the latest page instead of block zero exactly when the deployment block is zero and the first
  latest block is a positive multiple of 200,000 (`LogScan.PagingIsExact`): a requested block `0n` is falsy.
  Configured deployment blocks are positive, so this stays latent.
- A deferral does not hold back a slot that is already asleep. Such a slot is sure to honour `defer(m)`, made at
  time `d`, exactly when `d + m` is no later than the end of its sleep or than `d`
  (`RpcSchedule.SleeperHonoursExactly`, with an example in `SleeperIgnoresDeferral`).
- Preparing a draft manifest is idempotent exactly when the evidence holds the checksummed governance account
  (`ManifestPreparer.PrepareIsIdempotent`). This stays latent: prepared evidence takes its addresses from
  `address()`, which checksums them (packages/config/src/deployment-evidence.ts:238-243).

## Model

| member | source | states |
|---|---|---|
| Leases.FirstBlockingFinds | apps/permit-issuer/src/domain.ts:189-192 | the scan of the label index finds no lease exactly when no indexed lease of the requester blocks now, and otherwise names one that does |
| Leases.AcquireDecides | apps/permit-issuer/src/domain.ts:181-209 | a new request acquires exactly when no indexed lease of its requester or its label blocks; a conflict names the expiry of such a lease; an idempotent answer only ever comes from the request index |
| Leases.AcquireDisplaces | apps/permit-issuer/src/domain.ts:181-209 | the lease displaced from the label index does not block and is left expired unless confirmed or released; nothing else changes, and a call that does not acquire changes nothing |
| Leases.AcquireKeepsCoherent | apps/permit-issuer/src/domain.ts:206-208 | after any acquisition a label entry is still the object its request entry holds |
| Leases.SecondLoopRemovesNothing | apps/permit-issuer/src/domain.ts:148-155 | on such indexes the first cleanup loop keeps the property and the defensive second loop removes nothing |
| Leases.CleanupIsOneSweep | apps/permit-issuer/src/domain.ts:130-155 | cleanup is its first loop |
| LeaseAnswers.AcquireAnswers | apps/permit-issuer/src/domain.ts:181-209 | the four answers as a partition: a known request is idempotent or in conflict by its fingerprint alone; a new one conflicts exactly when an indexed lease of its requester or label keeps it out, submitted and reviewed ones for good, leased and failed ones until they expire |
| LeaseAnswers.ConflictNames | apps/permit-issuer/src/domain.ts:188-199 | the expiry in a conflict is that of the requester's first blocking lease in insertion order, else that of the label's lease |
| LeaseAnswers.AcquireWrites | apps/permit-issuer/src/domain.ts:201-208 | both indexes, the label order and every lease after an acquisition: only a leased or failed lease of the label changes, to expired |
| LeaseAnswers.SubmittedMarks | apps/permit-issuer/src/domain.ts:229-235 | succeeds exactly on a lease of the label index that is leased, or submitted with this transaction, and sets state and transaction only |
| LeaseAnswers.ConfirmedMarks | apps/permit-issuer/src/domain.ts:237-246 | succeeds exactly on one submitted with this transaction, or confirmed with it and this token |
| LeaseAnswers.ClosedMarks | apps/permit-issuer/src/domain.ts:248-270 | succeeds exactly on one with this transaction that is submitted or closed so already |
| LeaseAnswers.ReleaseMarks | apps/permit-issuer/src/domain.ts:272-277 | succeeds exactly on a leased one of this requester |
| LeaseAnswers.SignatureIsImmutable | apps/permit-issuer/src/domain.ts:211-219 | a stored signature is accepted again and never replaced |
| LeaseAnswers.SubmittedInOrder | apps/permit-issuer/src/domain.ts:225-227 | lists exactly the submitted leases of the label index, in insertion order |
| LeaseAnswers.CleanupDrops | apps/permit-issuer/src/domain.ts:139-155 | cleanup drops exactly the requests whose lease has expired by the cutoff, with their label entries and signatures |
| LeaseAnswers.CleanupKeepsOrder | apps/permit-issuer/src/domain.ts:148-155 | the labels that stay keep their insertion order |
| LeaseSweeps.AnyOrderIsCleanup | apps/permit-issuer/src/domain.ts:139-155 | whatever order the maps are iterated in, cleanup gives one store |
| LeaseStore.MemoryLeaseStore.GetLease | apps/permit-issuer/src/domain.ts:221-223 | finds the lease exactly when the label index holds it, and returns the stored object itself |
| LeaseStore.MemoryLeaseStore.FindBlocking | apps/permit-issuer/src/domain.ts:188-192 | the scan over shared objects returns the lease of the specification |
| LeaseStore.MemoryLeaseStore.AcquireLease | apps/permit-issuer/src/domain.ts:181-209 | on shared mutable lease objects does to both indexes what the store value does, and returns the stored or the new object |
| LeaseStore.MemoryLeaseStore.SaveSignedPermit | apps/permit-issuer/src/domain.ts:211-215 | a stored signature is never replaced by another |
| LeaseStore.MemoryLeaseStore.ListSubmitted | apps/permit-issuer/src/domain.ts:225-227 | the first submitted leases in label order, as the stored objects |
| LeaseStore.MemoryLeaseStore.MarkSubmitted | apps/permit-issuer/src/domain.ts:229-235 | assigning the shared object changes the store value as specified, through both indexes |
| LeaseStore.MemoryLeaseStore.MarkConfirmed | apps/permit-issuer/src/domain.ts:237-246 | the same for confirmation, which answers a repeat by its transaction and token |
| LeaseStore.MemoryLeaseStore.MarkClosed | apps/permit-issuer/src/domain.ts:248-270 | the same for failed, manual review and expired, on the object that was looked up before the await, also when a cleanup has dropped it since |
| LeaseStore.MemoryLeaseStore.Release | apps/permit-issuer/src/domain.ts:272-277 | the same for release |
| LeaseStore.MemoryLeaseStore.ConsumeRateLimit | apps/permit-issuer/src/domain.ts:109-116 | updates one bucket as the limiter specifies and no lease |
| LeaseStore.MemoryLeaseStore.CleanupExpiredState | apps/permit-issuer/src/domain.ts:130-164 | throws exactly on a negative retention; else both loops over snapshots in some order, and the rate limits |
| RateLimits.TableHolds | apps/permit-issuer/src/domain.ts:109-162 | a key is in the table from its last call until the first cleanup at or after the end of that window |
| RateLimits.AnswerIsCount | apps/permit-issuer/src/domain.ts:109-116 | a call is granted exactly when it is among the first `limit` of its bucket, cleanups or not |
| RateLimits.CleanupsChangeNothing | apps/permit-issuer/src/domain.ts:157-162 | removing every cleanup from a history changes no grant |
| RateLimits.BucketGrants | apps/permit-issuer/src/domain.ts:109-116 | a bucket grants the smaller of its hits and the limit |
| RateLimits.WindowGrants | apps/permit-issuer/src/domain.ts:109-116 | any interval of one window length grants at most twice the limit |
| RequesterLock.FirstComeFirstServed | apps/permit-issuer/src/domain.ts:166-179 | per requester, a call runs only after every earlier one has finished, also when calls throw |
| RequesterLock.TailsNameTheBusy | apps/permit-issuer/src/domain.ts:172-177 | a requester is in requesterTails exactly when some call of it has not finished |
| RequesterLock.NoDeadlock | apps/permit-issuer/src/domain.ts:166-179 | a requester with unfinished calls always has one that runs or may start |
| RequesterLock.ChainIsPlainLock | apps/permit-issuer/src/domain.ts:166-179 | the chain behaves as one plain lock per requester |
| Permits.WindowIsExact | packages/sdk/src/permit.ts:63-76 | a permit meets the window contract exactly on chain 5042, inside its window, issued inside it, at most 5 s after its start, for at most 300 s |
| Permits.FaultsAreOrdered | packages/sdk/src/permit.ts:63-76 | the fault reported is the first in the order of the checks |
| IssuerSafety.BuiltPermitMeetsWindow | apps/permit-issuer/src/service.ts:312-337 | a permit built by issue meets the window contract at every second from issuance to its end, for every TTL in 15..295 |
| IssuerSafety.AcquiredApart | apps/permit-issuer/src/domain.ts:188-208 | an acquisition leaves no competing lease that is neither confirmed nor over |
| IssuerSafety.StepKeeps | apps/permit-issuer/src/service.ts:377-472 | each step moves each lease along its lifecycle, by its own requester's calls only save for expiry; leases leave the label index only when they exclude nobody; confirmation comes only with proof |
| IssuerSafety.StepKeepsInv | apps/permit-issuer/src/service.ts:277-472 | every step of every call keeps the whole invariant |
| IssuerTheorems.RunStays | apps/permit-issuer/src/service.ts:277-472 | the invariant holds throughout every run |
| IssuerTheorems.LivePermitsNeverCompete | apps/permit-issuer/src/service.ts:290-353 | in every interleaving, of two leases of one label or requester the earlier was confirmed, or its permit was dead for 30 s when the later was acquired, with windows 25 s apart less the later call's delay |
| IssuerTheorems.GapIsDecidedAtIssuance | apps/permit-issuer/src/service.ts:290-337 | of any two leases in acquisition order, the windows are 25 s apart exactly when the earlier reservation ends by the second of the later call's issuanceNow |
| IssuerTheorems.EveryLeaseWasAcquired | apps/permit-issuer/src/service.ts:351 | every lease is among the recorded acquisitions |
| IssuerOrderedTimes.OrderedWindowsApart | apps/permit-issuer/src/service.ts:290-351 | when no lease is acquired with an issuanceNow behind an earlier acquisition's, an earlier cleanup's cutoff or the expiry of a lease marked expired before, the windows of competing permits are at least 25 s apart unless the earlier lease was confirmed |
| IssuerTheorems.StepFollows | apps/permit-issuer/src/domain.ts:229-277 | one step: the state follows the lifecycle, the transaction is bound once, a lease out of the label index moves only by a mark that had found it |
| IssuerTheorems.LeaseHistory | apps/permit-issuer/src/domain.ts:181-277 | the same between any two points of a run; out of the label index is out for good, and frozen unless the lease is submitted and a mark had found it before it went |
| IssuerTheorems.DisplacedIsOver | apps/permit-issuer/src/domain.ts:194-208 | a lease whose request is retained leaves the label index only confirmed or expired |
| IssuerTheorems.LeasesStayBound | apps/permit-issuer/src/service.ts:377-472 | fields follow the state; confirmed means a matching successful inspection with the token of the label, failed a matching reverted one; the missing-binding error is never thrown |
| IssuerTheorems.SecondCleanupLoopIsIdle | apps/permit-issuer/src/domain.ts:148-155 | in every reachable state label entries are the leases of the request index, so the second cleanup loop is idle at any cutoff |
| IssuerTheorems.ReturnsAgree | apps/permit-issuer/src/service.ts:355-365 | while a request is retained, all its returns are one stored permit and one signature |
| IssuerTheorems.ReturnedInWindow | apps/permit-issuer/src/service.ts:355-365 | a returned permit meets the window contract at issuanceNow, and at the second it is returned exactly when it has not ended by then |
| IssuerOutcomes.PermitsNameTheirLease | apps/permit-issuer/src/service.ts:314-337 | the permit of every reachable lease names that lease's label, requester and executor, the policy's controller, chain 5042 and its own permit id |
| IssuerOutcomes.LeasesAreBuilt | apps/permit-issuer/src/service.ts:290-351 | every lease goes back to one chain read: its amount, nonce and permit id are those read, its label, requester, request and fingerprint those of the call's intent, its times those of the call's issuanceNow |
| IssuerOutcomes.ReturnsAreForTheirCall | apps/permit-issuer/src/service.ts:353-365 | what a call returns is the stored permit of its own request, requester and fingerprint |
| IssuerOutcomes.ReturnsAreForTheirLabel | apps/permit-issuer/src/service.ts:190-216 | and for the label it asked for, when equal fingerprints mean equal labels |
| IssuerOutcomes.OneCallPerRequester | apps/permit-issuer/src/service.ts:288-430 | of one requester's issues, submissions and reconciles at most one is past its lock, and whoever reconciles or closes a lease holds the lock of that lease's requester |
| IssuerOutcomes.EnterDecides | apps/permit-issuer/src/domain.ts:166-179 | a waiting call gets in exactly when no call of its requester is inside |
| IssuerOutcomes.EntryGoesOn | apps/permit-issuer/src/service.ts:288-430 | it goes on with what it was called for |
| IssuerOutcomes.CallsBegin | apps/permit-issuer/src/service.ts:277-280 | issue starts exactly for a TTL in 15..295, reconcile exactly on submitted leases of the label index |
| IssuerOutcomes.AbortDecides | apps/permit-issuer/src/service.ts:277-472 | a call that throws changes nothing but that it is over |
| IssuerOutcomes.PolicyDecides | apps/permit-issuer/src/service.ts:289-290 | issuanceNow is the time after the live policy check |
| IssuerOutcomes.ReadsDecide | apps/permit-issuer/src/service.ts:290-353 | after the chain reads a known request goes on with its lease or fails by its fingerprint, a new one fails or gets a lease with exactly these fields |
| IssuerOutcomes.RepeatIsReturned | apps/permit-issuer/src/service.ts:355-361 | a retry of a retained, signed request that is not over returns the stored permit and signature and changes nothing |
| IssuerOutcomes.NewIsReturned | apps/permit-issuer/src/service.ts:290-365 | a new request with nobody in the way returns a permit for its own label and requester, with the signature stored |
| IssuerOutcomes.AgeDecides | apps/permit-issuer/src/service.ts:355-358 | a lease whose permit or reservation is over by issuanceNow fails the call |
| IssuerOutcomes.SignerDecides | apps/permit-issuer/src/service.ts:362-365 | the signer's answer is stored and returned unless another one is stored |
| IssuerOutcomes.StatesRestOnAnswers | apps/permit-issuer/src/service.ts:377-472 | each state of a lease with the chain answers it rests on, field by field: submitted, confirmed, failed, reviewed, and expired out of submitted only when a block after the permit's end showed it unused |
| IssuerOutcomes.ExpiryRestsOnProof | apps/permit-issuer/src/service.ts:434-446 | a step that expires a submitted lease has such an answer |
| IssuerOutcomes.ProofsWereAnswers | apps/permit-issuer/src/service.ts:436 | each recorded expiry answer was given to a call that asked about that permit |
| IssuerOutcomes.InspectionsWereAnswers | apps/permit-issuer/src/service.ts:398-433 | each recorded inspection was an answer about the transaction the call asked about |
| IssuerOutcomes.ProofDecides | apps/permit-issuer/src/service.ts:436-446 | an expiry answer at or before the permit's end changes nothing; a later one goes to review when used and to expired when not |
| IssuerOutcomes.ExpiryIsMarked | apps/permit-issuer/src/service.ts:436-446 | the lease state after such an answer, for a lease that is found and still submitted |
| IssuerOutcomes.ReconcileIsChecked | apps/permit-issuer/src/service.ts:431-432 | only a lease that is found and still submitted is inspected again |
| IssuerOutcomes.ReconcileWaits | apps/permit-issuer/src/service.ts:433-435 | an unknown or pending transaction is left alone exactly until its lease has expired |
| IssuerOutcomes.ReconcileIsAnswered | apps/permit-issuer/src/service.ts:447-464 | confirmed on a matching success with the label's token, failed on a matching revert, review otherwise |
| IssuerOutcomes.SubmissionIsChecked | apps/permit-issuer/src/service.ts:380-397 | which submissions reach the chain and which are answered or refused by the lease |
| IssuerOutcomes.InspectedIsOpen | apps/permit-issuer/src/service.ts:398-404 | while a submission is inspected its lease is leased or expired, so the missing-binding branch is never reached |
| IssuerOutcomes.SubmissionIsInspected | apps/permit-issuer/src/service.ts:398-405 | a submission is recorded exactly when the transaction is about this permit, label, requester and controller and the lease is leased |
| IssuerOutcomes.SubmissionIsClosed | apps/permit-issuer/src/service.ts:406-416 | a recorded submission that is pending stays, one that reverted or does not show the label's token is closed |
| IssuerOutcomes.SubmissionIsConfirmed | apps/permit-issuer/src/service.ts:417-420 | any other is confirmed |
| IssuerOutcomes.MarkDecides | apps/permit-issuer/src/domain.ts:248-270 | a mark closes the lease it found exactly when that is still submitted with its transaction |
| IssuerOutcomes.CleanupDecides | apps/permit-issuer/src/domain.ts:130-155 | a cleanup during a run drops exactly what has expired by its cutoff, never an unexpired lease, and touches no call |
| IssuerRuns.LateReturn | apps/permit-issuer/src/service.ts:363-365 | a run that returns a permit whose window has ended |
| IssuerRuns.MarkedBehindCleanup | apps/permit-issuer/src/domain.ts:264-270 | a run in which a cleanup drops a submitted lease between a mark's lookup and its assignment, and the mark still changes it |
| IssuerRuns.SlowReadsOverlap | apps/permit-issuer/src/service.ts:290-351 | a run in which slow chain reads give two requesters the same window for one name, after a cleanup |
| IssuerRuns.ExpiryProofOverlaps | apps/permit-issuer/src/service.ts:435-446 | the same without any cleanup, after reconcile marked the first lease expired |
| IssuerRuns.TakeoverOverlaps | apps/permit-issuer/src/domain.ts:194-208 | the same with neither, after a third requester displaced the first lease and registered the name |
| Orders.StoresAgree | apps/x402-keeper/src/store.ts:29-125 | one call: both stores give the same answer exactly when the call does not diverge, and a diverging SQL call has no effect |
| Orders.RunsAgree | apps/x402-keeper/src/store.ts:25-125 | both stores give the same answers on every run in which orders are created without progress and no id, permit id or payment identifier is shared |
| OrderAnswers.MemoryTransitionAnswers | apps/x402-keeper/src/store.ts:41-47 | succeeds exactly on an allowed move of a stored order in that state; each of the ten columns is what the patch sets or what was there |
| OrderAnswers.SqlTransitionAnswers | apps/x402-keeper/src/store.ts:101-117 | the same, save that a permit id or payment identifier of another row is refused |
| OrderAnswers.MemoryCreateAnswers | apps/x402-keeper/src/store.ts:29-39 | a known key is answered by its order or refused by its fingerprint, a new one is stored |
| OrderAnswers.SqlCreateAnswers | apps/x402-keeper/src/store.ts:83-96 | the same for rows with distinct keys, save that progress is blank and a used id is refused |
| OrderAnswers.OneTransitionWins | apps/x402-keeper/src/store.ts:41-47 | of two transitions of one order from one state at most one succeeds |
| OrderStore.MemoryOrderStore.Create | apps/x402-keeper/src/store.ts:29-39 | the key decides; neither the argument nor the answer is a stored object |
| OrderStore.MemoryOrderStore.Get | apps/x402-keeper/src/store.ts:40 | the answer is a fresh copy of the stored order |
| OrderStore.MemoryOrderStore.Transition | apps/x402-keeper/src/store.ts:41-47 | the compare-and-swap with Object.assign on the stored object, answered by a copy |
| KeeperSafety.NoReturn | apps/x402-keeper/src/store.ts:41-47 | a compare-and-swap succeeds only on exactly the order that was read, so an order is never changed behind it |
| KeeperSafety.ProofMove | apps/x402-keeper/src/workflow.ts:178-188 | a receipt leads to confirmed with the token of the label exactly on a full proof, else to review |
| KeeperSafety.SettledMove | apps/x402-keeper/src/workflow.ts:189-195 | settlement keeps the proof and leads to settled or to review |
| KeeperSafety.CreateKeeps | apps/x402-keeper/src/workflow.ts:100-128 | an existing key is matched by digest, so the permit is asked for the stored order's own terms |
| KeeperSafety.StepKeepsInv | apps/x402-keeper/src/workflow.ts:100-217 | every step of create, authorize and reconcile keeps the invariant and moves orders forward only |
| KeeperTheorems.FieldsFollowState | apps/x402-keeper/src/workflow.ts:173-217 | every order is within the spend policy and has exactly the fields of its state, so the missing-permit error and both non-null assertions never fire |
| KeeperTheorems.OrdersMoveForward | apps/x402-keeper/src/workflow.ts:100-217 | no field is cleared or written twice, and no state comes back, over every run |
| KeeperTheorems.TerminalStatesStay | apps/x402-keeper/src/state.ts:16-26 | settled, refunded and reviewed orders never change, though the table would let them |
| KeeperTheorems.SettledOrRefunded | apps/x402-keeper/src/workflow.ts:173-199 | no order is settled at one time and refunded or refund-pending at another |
| KeeperTheorems.MoneyMovesOneWay | apps/x402-keeper/src/workflow.ts:188-217 | however often repeated, the external calls for one order never include a settlement and a refund, two payments or two permits |
| KeeperTheorems.OnePaymentIsAuthorized | apps/x402-keeper/src/workflow.ts:153-171 | two payments that authorize does not turn away for one order have one identifier, the recorded one |
| KeeperTheorems.SettlementsRestOnProof | apps/x402-keeper/src/workflow.ts:69-87 | a settlement is asked only for the bound payment, after a receipt for the recorded transaction proved this very registration |
| KeeperTheorems.RefundsRestOnRevert | apps/x402-keeper/src/workflow.ts:178-199 | a refund is asked only after the chain reported the recorded transaction reverted |
| KeeperOutcomes.ReceiptProofIsExact | apps/x402-keeper/src/workflow.ts:69-87 | a receipt is accepted exactly when its eighteen facts are the order's one by one, owner and recipient among them, and its token is the label |
| KeeperOutcomes.PermitCheckIsExact | apps/x402-keeper/src/workflow.ts:219-231 | a permit is accepted exactly when each field is the order's, the keeper's or the policy's |
| KeeperOutcomes.TableIsExact | apps/x402-keeper/src/state.ts:16-26 | the table allows exactly the next state of the way to settlement, a refund from the authorized payment on, its completion, and review from every state that is not final |
| KeeperOutcomes.SettlementsRestOnRegistration | apps/x402-keeper/src/workflow.ts:178-190 | a settlement is asked only after a receipt showed this label registered to this recipient |
| KeeperOutcomes.SubmissionsArePermitted | apps/x402-keeper/src/workflow.ts:207-216 | a registration is submitted only with a permit for this very order |
| KeeperOutcomes.CreateDecides | apps/x402-keeper/src/workflow.ts:100-121 | the columns of a new order, and what a known key gets |
| KeeperOutcomes.CallsMayStart | apps/x402-keeper/src/workflow.ts:100-121 | create runs exactly for 1 to 10 years and a positive amount within the policy |
| KeeperOutcomes.PermitDecides | apps/x402-keeper/src/workflow.ts:137-141 | a permit for this order is stored with its signature, any other ends the call |
| KeeperOutcomes.SentDecides | apps/x402-keeper/src/workflow.ts:216 | the transaction is recorded |
| KeeperOutcomes.AuthorizeDecides | apps/x402-keeper/src/workflow.ts:153-171 | what authorize does in each state |
| KeeperOutcomes.VerifiedDecides | apps/x402-keeper/src/workflow.ts:168-171 | a verified payment is bound and the registration submitted, unless the order has moved on |
| KeeperOutcomes.ReconcileDecides | apps/x402-keeper/src/workflow.ts:173-199 | what reconcile asks for in each state |
| KeeperOutcomes.ReceiptDecides | apps/x402-keeper/src/workflow.ts:176-186 | reverted leads to a refund, a proof of this registration confirms, anything else goes to review, with the columns written |
| KeeperOutcomes.ReceiptIsRecorded | apps/x402-keeper/src/workflow.ts:177-185 | a receipt counts as an answer about the order's own transaction |
| KeeperOutcomes.SettleDecides | apps/x402-keeper/src/workflow.ts:187-192 | the state and columns after a settlement |
| KeeperOutcomes.RefundDecides | apps/x402-keeper/src/workflow.ts:193-197 | the state and columns after a refund |
| KeeperUniqueness.StepIsStoreCall | apps/x402-keeper/src/workflow.ts:100-217 | a step writes to the store by one create or transition call and by nothing else |
| KeeperUniqueness.OrdersShareNothing | apps/x402-keeper/src/store.ts:155-156 | on every run in which clashing transitions are refused, as the unique indexes do, no two orders share a permit id or a payment identifier |
| KeeperUniqueness.PaymentsServeOneOrder | apps/x402-keeper/src/store.ts:155-156 | on such runs settlements of one payment, and submissions of one permit, are for one order |
| KeeperUniqueness.PaymentsAreBoundOnce | apps/x402-keeper/src/workflow.ts:153-171 | on such runs authorize accepts one payment for one order only |
| KeeperUniqueness.OnePaymentSettledTwice | apps/x402-keeper/src/store.ts:41-47 | a run on the in-memory store that asks for the settlement of one payment for two orders |
| KeeperTheorems.ReceiptsWereRead | apps/x402-keeper/src/workflow.ts:178-182 | each receipt these rest on was an answer of the chain about that transaction |
| Bytecode.ReconstructRuntimeBytecode | packages/config/src/deployment-evidence.ts:366-407 | succeeds exactly when counts and values fit, groups are nonempty and the slots are in range, zero and disjoint; then each reference of the g-th group holds the g-th value, an address behind twelve zero bytes, and every other byte is the template's |
| Bytecode.SortedKeys | packages/config/src/deployment-evidence.ts:376 | group ids in strictly ascending order, each once |
| Bytecode.ZeroingRestores | packages/config/src/deployment-evidence.ts:366-407 | zeroing the slots of the result gives the template back |
| Bytecode.FilledIsUnique | packages/config/src/deployment-evidence.ts:366-407 | template and slots determine the result |
| Bytecode.ReferenceOrderIrrelevant | packages/config/src/deployment-evidence.ts:366-407 | the order of references inside a group changes neither acceptance nor result |
| LogScan.FailureIsInside | apps/web/src/lib/admin-protocol.ts:900-926 | a failure names a range or block inside the one that was asked for, with what the node said of it |
| LogScan.DepthLimits | apps/web/src/lib/admin-protocol.ts:919-925 | a range that is too large is given up from depth 20 on, and before that is read when its halves are served |
| LogScan.ReadIsExact | apps/web/src/lib/admin-protocol.ts:900-926 | however it bisects, a successful read is exactly the logs of the range in order |
| LogScan.DepthSuffices | apps/web/src/lib/admin-protocol.ts:919-925 | while the range fits the depth left, a failure is a rejected single block or a broken request, never the depth limit |
| LogScan.OuterRead | apps/web/src/lib/admin-protocol.ts:900-926 | both hold for every outer range of at most 9,500 blocks |
| LogScan.LoadAdminActivity | apps/web/src/lib/admin-protocol.ts:976-1053 | a page holds exactly the logs of its window, or names the block or range that could not be read |
| LogScan.PagesDescend | apps/web/src/components/admin-workspace.tsx:326-328 | page k ends 200,000 k blocks below the first latest block |
| LogScan.PagingIsExact | apps/web/src/components/admin-workspace.tsx:326-328 | every block from deployment to the first latest block is on exactly one page, exactly when block zero is never asked for |
| LogScan.PagingStops | apps/web/src/components/admin-workspace.tsx:326-328 | there is a page k exactly up to the one that reaches the deployment block |
| LogScan.AllPagesAreTheHistory | apps/web/src/lib/admin-protocol.ts:991-1053 | all pages, oldest first, are the whole log history once and in order |
| ControllerHistory.DiscoverHistory | packages/config/src/promotion.ts:895-941 | accepts exactly when full pages end in a short one within 50, strictly ordered and without duplicate keys, and returns their rows |
| ControllerHistory.WholeListOrNothing | packages/config/src/promotion.ts:895-941 | over an index of fixed slices: accepted rows are the whole list, exactly when it is short of 5,000, ordered and without duplicates |
| ControllerHistory.SliceIsPage | packages/config/src/promotion.ts:899-919 | such an index: page p holds at most a hundred rows, from the 100 (p - 1)th on |
| ControllerHistory.OrderAndKeys | packages/config/src/promotion.ts:795-799 | the order of rows is by block, transaction and log; the keys are transaction and log, block and log |
| ControllerHistory.OneMoreRow | packages/config/src/promotion.ts:795-799 | comparing with the last row and the key sets decides order and uniqueness of the whole |
| ControllerHistory.AssertExclusiveControllerHistory | packages/config/src/promotion.ts:973-991 | accepts exactly when only the canonical controller is ever enabled and it alone is enabled after the replay |
| ControllerHistory.LastChangeDecides | packages/config/src/promotion.ts:983-986 | after a replay a controller is enabled exactly when its last change enabled it |
| ControllerHistory.NeverAnother | packages/config/src/promotion.ts:973-991 | at no prefix is another controller enabled |
| ControllerHistory.VerifyIndexedControllerHistory | packages/config/src/promotion.ts:874-971 | accepts exactly the rows that pagination finds and every check admits |
| ControllerHistory.AcceptedHistoryIsExclusive | packages/config/src/promotion.ts:874-971 | an accepted slice-served history is the whole list with the canonical controller alone enabled throughout and at the end |
| ControllerHistory.AcceptedExactly | packages/config/src/promotion.ts:874-991 | a served list is accepted exactly when it is short of 5,000, ordered, without duplicates, proven, starts by enabling the canonical controller, enables no other, and last enables it |
| RpcSchedule.DelaysAreLeast | apps/web/src/lib/arc-rpc.ts:25-35 | wait, next start and deferral are each the least that will do |
| RpcSchedule.StepKeepsInv | apps/web/src/lib/arc-rpc.ts:10-37 | every mix of calls, deferrals and sleeps keeps spacing and honoured deferrals |
| RpcSchedule.SlotsAreSpaced | apps/web/src/lib/arc-rpc.ts:10-37 | slots i and j resolve at least j - i intervals apart |
| RpcSchedule.DeferralsAreHonoured | apps/web/src/lib/arc-rpc.ts:33-35 | a slot whose turn begins after defer(m) at d resolves no earlier than d + m |
| RpcSchedule.SleeperHonoursExactly | apps/web/src/lib/arc-rpc.ts:23-35 | a slot asleep at time d respects defer(m) in every continuation exactly when d + m is no later than its sleep's end or than d |
| RpcSchedule.RequestScheduler.BeginSlot | apps/web/src/lib/arc-rpc.ts:25-28 | a turn up to its sleep moves the closure variables as the step system does |
| RpcSchedule.RequestScheduler.WakeSlot | apps/web/src/lib/arc-rpc.ts:26-28 | the same for a turn after its sleep |
| RpcSchedule.RequestScheduler.Defer | apps/web/src/lib/arc-rpc.ts:33-35 | the same for a deferral |
| RpcSchedule.RequestScheduler.AwaitSlot | apps/web/src/lib/arc-rpc.ts:23-31 | with no other call about, one slot resolves, no sooner than an interval after the last |
| RpcSchedule.RequestWithArcRpcRetry | apps/web/src/lib/arc-rpc.ts:95-126 | stops at the first answer that is no rate limit or at the last attempt; each attempt has its slot, and each retry is deferred by 2,100 ms times the attempt and starts no sooner than that after the answer and an interval after the last slot |
| Challenge.ClockRoundTrip | apps/web/src/lib/permit-issuer.ts:339-406 | the parser reads a printed message exactly when no field breaks a line, the nonce is bytes32 and both times have ten digits, and then recovers all three |
| Challenge.MessageLines | apps/web/src/lib/permit-issuer.ts:349-373 | a printed message splits into its 21 lines exactly when no field breaks a line |
| Challenge.ReadableMessageIsInjective | apps/web/src/lib/permit-issuer.ts:339-406 | a message whose clock the parser reads stands for one set of terms, whatever the fields |
| Challenge.MessageBindsTerms | apps/web/src/lib/permit-issuer.ts:309-374 | with an injective digest in the fingerprint line, the message determines all terms, newlines or not |
| Challenge.MessageIsLines | apps/web/src/lib/permit-issuer.ts:349-373 | the message is its three groups of lines joined by newlines |
| Challenge.SiteLines | apps/web/src/lib/permit-issuer.ts:350-356 | the first seven lines, word by word |
| Challenge.PartyLines | apps/web/src/lib/permit-issuer.ts:357-363 | the next seven: name, parties, duration and amount each on its own line |
| Challenge.ProofLines | apps/web/src/lib/permit-issuer.ts:364-372 | the last seven |
| Challenge.NonceIsExact | apps/web/src/lib/permit-issuer.ts:391-406 | a nonce is read exactly when it is 0x and 64 hexadecimal digits |
| Challenge.DigestCovers | apps/web/src/lib/permit-issuer.ts:309-338 | the fields that the fingerprint's digest covers |
| Challenge.IssuedExactly | apps/web/src/lib/permit-issuer.ts:886-922 | exactly when a permit is issued, and every field of it |
| Challenge.TtlBoundsAreTight | apps/web/src/lib/permit-issuer.ts:184-192 | 30 s left and the 300 s window hold for every valid envelope exactly for TTLs 149..295 |
| Challenge.IssuedPermitMeetsWindow | apps/web/src/lib/permit-issuer.ts:886-922 | for accepted TTLs the too-close branch is unreachable, and every issued permit meets the window contract with more than 30 s left at the second the envelope was checked |
| Challenge.IssuedTermsWereSigned | apps/web/src/lib/permit-issuer.ts:849-865 | the current terms of an issued permit are those of the message the wallet signed |
| SemanticJson.SortDecidesSame | packages/config/src/manifest.ts:851-859 | two values have one canonical form exactly when they differ in object key order only, at any depth |
| SemanticJson.SortIsIdempotent | packages/config/src/manifest.ts:851-859 | sorting twice is sorting once |
| SemanticJson.SortKeepsValue | packages/config/src/manifest.ts:851-859 | the canonical form is a well-formed value that differs in key order only |
| PromotionDigests.TargetsAgree | packages/config/src/manifest.ts:872-880 | the execution projection erases productLive, the verification block, artifact contents and key order, and nothing else |
| PromotionDigests.ExecutionDigestIdentifies | packages/config/src/manifest.ts:872-880 | equal execution digests mean manifests alike but for their stage, and conversely |
| PromotionDigests.SubjectBindsStage | packages/config/src/manifest.ts:843-849 | equal subjects have equal execution digests, while a candidate and its live target share the execution digest but never the subject |
| ManifestPreparer.PrepareIsIdempotent | packages/config/src/deployment-evidence.ts:976-1111 | fed its own output the builder returns it unchanged, exactly when the template was configured or the evidence holds the checksummed account |
| ManifestPreparer.PublicationIsIgnored | packages/config/src/deployment-evidence.ts:942-967 | published ABI and source fields and the x402 activation never reach the result |
| ManifestPreparer.PreparedFollowsReceipt | packages/config/src/deployment-evidence.ts:988-1109 | an accepted result is a paused, unverified candidate with exactly the receipt's contracts |
| ManifestPreparer.AcceptedExactly | packages/config/src/deployment-evidence.ts:976-1111 | exactly which templates are accepted: parsed, of the receipt's release, and unconfigured or matching the receipt |
| ManifestPreparer.ResultIsExact | packages/config/src/deployment-evidence.ts:988-1109 | every field of an accepted result: from the receipt, fixed, or the template's |
| ManifestPreparer.ContractsAreDeployed | packages/config/src/deployment-evidence.ts:988-1109 | each contract of the result, field by field |
| ManifestPreparer.ComparisonIsExact | packages/config/src/deployment-evidence.ts:864-923 | a configured template matches exactly when each listed field is the receipt's or as fixed |
| ManifestPreparer.ReleaseIsExact | packages/config/src/deployment-evidence.ts:925-940 | the release of a parsed template fits exactly when version and metadata URI are the receipt's |
| ManifestPreparer.StripIsExact | packages/config/src/deployment-evidence.ts:942-967 | what stripping clears, and that it keeps the rest |

## Left out

- Cryptography, name normalization, ABI and EIP-712 encoding: opaque values; the chain, gateways, timers and HTTP are events or parameters.
- The issuer's challenge records and the counts that cleanup returns: easy maps beside the leases.
- The batching of `reconcileSubmitted` and its `reconciliationInFlight` field: it only drops concurrent passes.
- `release` is modelled in the store but is not a step, because the service never calls it.
- LeaseStore.MemoryLeaseStore.CleanupExpiredState: does not model the challenge loop and the returned counts.
- LogScan.LoadAdminActivity: does not model decoding, display order and the 1,000-event cut; the logs are what these work on.
- ControllerHistory.VerifyIndexedControllerHistory: takes the receipt check of a row as an arbitrary predicate and leaves out the digest.
- Order timestamps, and `listReconcilable`: the two order stores list in different orders, insertion and last update.
- Hex parsing of bytecode and record shapes: the template is bytes, group ids are canonical decimals, and an unreadable immutable value is one case.
- The wallet checks before the log scan.
- Parsing of controller history rows, host and URL checks.
- RpcSchedule.RequestWithArcRpcRetry: does not model other callers between its attempts; theirs and its slots and deferrals are steps of the schedule.
- `coalesceArcRpcRead` and the classification of rate-limit errors: a request's outcome is given.
- The proof HMAC, UUID and length checks of the challenge envelope, and signing of the issued permit.
- ManifestPreparer.Prepare: fields copied one by one are one opaque value, and validation rules that do not bear on idempotence are one arbitrary predicate.
- Contracts, the subgraph indexer, React pages, metadata rendering, `readControllerHistoryInChunks`: not part of this model.
