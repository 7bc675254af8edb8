# Protected broker, capture adoption and owner signer: a Dafny model

This project models three parts of the repository and proves what they promise.

**The protected-action broker** (`broker/`).  One daemon accepts signed-off packets, charges budgets, makes at
most a few external calls on GitHub, reconciles charged attempts with live state after a crash, trips circuit
breakers and writes one signed receipt per packet.

- `Packets`, `Actions`, `Receipts` are the pure layers: packets and configuration, live-state evaluation, receipt rules.
- `ActionLaws` says what evaluation and execution mean, read off the snapshot and the answers alone.
- `StoreState` gives, for every store transaction, the function it computes on the tables; `Counting` and
  `StoreAdmission` say when each transaction does its work and what it leaves, in terms of ledger positions and
  table rows; `BrokerStore.Database` is the store as an object that updates its tables in place, each method proved
  equal to that function and leaving the tables alone on an error.
- `Lifecycle` is the service as a machine whose steps are single reads, transactions and calls, with a crash
  possible between any two; all choices of the environment (packets, clock readings, snapshots, responses,
  attempt ids, crashes, operator actions) are inputs, so a statement about all runs quantifies over input sequences.
- `BrokerService.Service` is the service as the sequential program it is.  A ghost history ties it to the machine
  after every durable or external step, so the guarantees about runs hold of the program.
- `StoreInvariants`, `StoreEvolution`, `BrokerInvariant`, `BrokerSafety` carry the inductive invariant;
  `LoggedPackets`, `BrokerGuarantees`, `CallPolicy`, `Budgets`, `ReceiptChain`, `ReceiptValidity`, `Recovery` state what
  follows from it.
- `SignedOutcomes` gives every receipt the service can sign, field by field, with the whole step that stores it;
  `Reasons` gives for every cause what the service answers, so together they fix what each run signs.

**Capture adoption** (`qualification_attestor/`).  A recursive ownership transform of a file tree, the
counter-checked inventories before and after it, the exclusive rename, the cleanup of half-transformed trees and
the lease that owns the result: `CaptureTree`, `CaptureInventory`, `CaptureRecords`, `CaptureBinding`,
`CaptureAdoption`, `CaptureCleanup`, `CapturePlaces` (the same policies place by place), `CaptureLease`.
Every system call may fail, which is also where a crash may strike.

**The owner signer** (`owner_gateway/`).  `PublishOnce` is the publish-once protocol by which any number of
processes race to publish one signing record per event, a system call at a time.

Two facts of the code shape the statements: a completed or reconciled attempt closes an open circuit, and a packet
may be rejected after a charge of it was reconciled as absent.  A second packet for the same effect may end without
a receipt; `ReceiptValidity` gives the exact condition and `UnansweredPackets` two runs that meet it.

## Model

| member | source | states |
|---|---|---|
| Actions.ScanThreads | broker/john_lomein_broker_actions.py:404-440 | the one-pass thread scan accepts exactly the sequences of well-formed threads with pairwise different ids |
| Actions.ScanChecks | broker/john_lomein_broker_actions.py:277-345 | the one-pass check scan reports the first offending check, else whether the required names are all present |
| Actions.EvaluateAcceptsIff | broker/john_lomein_broker_actions.py:443-682 | a snapshot is accepted exactly when identity, files, checks, evidence, threads and target all meet the policy, whatever the order of the checks |
| Actions.StrictImpliesLenient | broker/john_lomein_broker_actions.py:443-682 | whatever is accepted strictly is accepted leniently with the same evaluation, as unsatisfied |
| Actions.SatisfiedIffDesired | broker/john_lomein_broker_actions.py:685-710 | a lenient acceptance reports "already satisfied" exactly when the desired state is observed, so recovery's "inconsistent" error cannot be raised |
| Actions.ReadbackFrame | broker/john_lomein_broker_actions.py:566-643 | if a snapshot is authorized and unsatisfied, changing only the target makes the lenient evaluation succeed as satisfied at the same head |
| Actions.FaithfulMutationVerifies | broker/john_lomein_broker_actions.py:713-818 | an authorized mutation that GitHub applies and answers faithfully is always read back as verified |
| Actions.VerifiedMeansSatisfied | broker/john_lomein_broker_actions.py:764-818 | a verified execution was read back as accepted and satisfied at the packet's exact head and target |
| ActionLaws.VerifiedIff | broker/john_lomein_broker_actions.py:713-818 | a mutation is verified exactly when the answer names just the requested mutation as applied and the readback shows the same open pull request at the same head, authorized and in the requested state; each other course has its own doubt |
| ActionLaws.ErrorsAreExplained | broker/john_lomein_broker_actions.py:443-682 | every error the evaluation reports is true of the snapshot |
| ActionLaws.ErrorsAreReportedInOrder | broker/john_lomein_broker_actions.py:443-682 | and, malformed snapshots apart, no error earlier in the order is true of it |
| ActionLaws.EvaluationDescribes | broker/john_lomein_broker_actions.py:645-682 | an accepted evaluation, and so the precondition a receipt commits to, says of the snapshot just what it shows |
| ActionLaws.DesiredMeans | broker/john_lomein_broker_actions.py:685-710 | the desired state is the exact open pull request at the exact head, not a draft or with its one target thread resolved |
| Receipts.NormalizeIsIdempotent | broker/john_lomein_broker_receipts.py:208-638 | normalizing an accepted payload returns it unchanged |
| Receipts.SuccessProvesTarget | broker/john_lomein_broker_receipts.py:670-778 | every success payload the builder accepts carries a confirmed readback of the packet's head and target |
| SignedOutcomes.NormalizeAcceptsIff | broker/john_lomein_broker_receipts.py:208-638 | a payload is acceptable exactly when head, targets and times are sound and all else fits its verdict; only the readback head is rewritten |
| SignedOutcomes.RejectionIsSigned | broker/john_lomein_broker_service.py:228-255 | the whole step that concludes a rejection: the row with the reason and precondition it was decided for, nothing called, nothing read back, and the reply; or nothing, exactly if the clock ran backwards or an attempt is active on its effect |
| SignedOutcomes.SatisfactionIsSigned | broker/john_lomein_broker_service.py:257-290 | the whole step that concludes an already satisfied request: the receipt with the head, draft flag and target that were read, the settled effect and the reply |
| SignedOutcomes.ExecutionIsSigned | broker/john_lomein_broker_service.py:726-786 | the whole step after a call: applied with the verified readback, or indeterminate for exactly its doubt with none, under the attempt key and the times of start and call |
| SignedOutcomes.RecoveryIsSigned | broker/john_lomein_broker_service.py:292-485 | the whole step that concludes a recovery: reconciled with what was read, or indeterminate for exactly its reason, under the recovered attempt, its precondition and its start; stored exactly if that start was in time |
| SignedOutcomes.AbsenceIsKept | broker/john_lomein_broker_service.py:476-485 | the whole step that clears an attempt: the absence keeps attempt, packet, head and precondition, and nothing else changes |
| SignedOutcomes.OthersAreLeft | broker/john_lomein_broker_service.py:474-475 | an attempt of another packet that may be retried is left as it is |
| StoreAdmission.ChargedIff | broker/john_lomein_broker_store.py:1736-1883 | a mutation is charged exactly when an unanswered packet asks for a pending idle effect inside its window, with an attempt, a new key, a closed circuit and, counted charge by charge on the UTC day, both budgets left; the charge is one event and the active attempt, and any other answer changes nothing |
| StoreAdmission.NewPacketEntersIff | broker/john_lomein_broker_store.py:1439-1586 | a new packet enters exactly when id and digest are new, it is acceptable now, its circuit is closed, the hour has room and its effect is not another instance's; it costs one request charge, reserves an unclaimed effect and is told the state of a claimed one |
| StoreAdmission.StoredPacketPassesIff | broker/john_lomein_broker_store.py:1463-1586 | a packet under a stored id passes exactly when it is the stored one, is acceptable now and its effect is open or, if unclaimed, its circuit closed; it costs no request charge and changes no table but for that claim; a different one is a conflict |
| StoreAdmission.TerminalizedIff | broker/john_lomein_broker_store.py:2215-2337 | an outcome is stored exactly for the active attempt of an unanswered packet with a new receipt; one row, the settled effect and its circuit change |
| StoreAdmission.RecordedIff | broker/john_lomein_broker_store.py:2048-2213 | an outcome without a call is stored exactly when the packet is unanswered, the receipt new and the named effect allows it; a reconciliation settles a pending effect |
| StoreAdmission.ClearedIff | broker/john_lomein_broker_store.py:1885-1972 | an attempt is cleared exactly when it is the active first one of the pending effect |
| StoreAdmission.EffectIsWhatIsAsked | broker/john_lomein_broker_store.py:502-537 | a packet asks for exactly one effect: the action at its pull request and head or thread |
| Counting.RequestsAreCounted | broker/john_lomein_broker_store.py:1182-1199 | the request count is the number of ledger positions with such a charge |
| Counting.MutationsAreCounted | broker/john_lomein_broker_store.py:1638-1704 | the daily count is the number of ledger positions with a mutation charge of the instance between the day's first and last second |
| Counting.ActionMutationsAreCounted | broker/john_lomein_broker_store.py:1638-1704 | the same for one action |
| Counting.LatestDecisionMeans | broker/john_lomein_broker_store.py:1282-1301 | the latest decision is the last row of the effect that is not a rejection |
| BrokerStore.Database.constructor | broker/john_lomein_broker_store.py:795-900 | a new database is empty and bound to its limits |
| BrokerStore.Database.LoadReceipt | broker/john_lomein_broker_store.py:1266-1280 | finds the receipt row of a packet, if there is one |
| BrokerStore.Database.LoadLatestDecision | broker/john_lomein_broker_store.py:1282-1301 | finds the newest completed, reconciled or indeterminate row of an effect |
| BrokerStore.Database.CountRequestsAfter | broker/john_lomein_broker_store.py:1182-1199 | counts the request charges of an instance after a moment |
| BrokerStore.Database.CountMutations | broker/john_lomein_broker_store.py:1638-1704 | counts the mutation charges of a UTC day, in all and for one action |
| BrokerStore.Database.Reserve | broker/john_lomein_broker_store.py:1439-1586 | one transaction: packet conflicts, circuit, request budget, effect row and disposition; on an error no table changes |
| BrokerStore.Database.BeginMutation | broker/john_lomein_broker_store.py:1736-1883 | one transaction: replay, terminal states, pending attempt, attempt limit, circuit, budgets, then charge and active attempt together |
| BrokerStore.Database.ReconcileAbsent | broker/john_lomein_broker_store.py:1885-1972 | one transaction: clears the named active attempt and keeps its absence, below two attempts only |
| BrokerStore.Database.Settle | broker/john_lomein_broker_store.py:1974-2046 | an effect leaves pending, its attempt is cleared and its circuit counts or resets |
| BrokerStore.Database.RecordPacketReceipt | broker/john_lomein_broker_store.py:2048-2213 | one transaction: a rejection, or a reconciliation that settles a pending effect; on an error no table changes |
| BrokerStore.Database.Terminalize | broker/john_lomein_broker_store.py:2215-2337 | one transaction: the outcome row of the active attempt and the settled effect, under the unique-receipt constraints |
| BrokerStore.Database.PendingRecovery | broker/john_lomein_broker_store.py:2339-2381 | lists every active attempt of a stored packet exactly once, oldest first |
| BrokerStore.Database.CloseCircuit | broker/john_lomein_broker_store.py:2431-2466 | resets one circuit and nothing else |
| Lifecycle.ReachableIffExec | broker/john_lomein_broker_service.py:498-786 | the states that runs pass through are exactly the states that input sequences lead to |
| BrokerSafety.EveryReachableState | broker/john_lomein_broker_service.py:498-786 | every reachable state satisfies the invariant |
| BrokerSafety.EveryRun | broker/john_lomein_broker_service.py:498-786 | the invariant (tables, log, control point) holds after every run |
| BrokerSafety.NextKeeps | broker/john_lomein_broker_service.py:339-786 | every single step, crash and operator action keeps the invariant |
| BrokerSafety.DecideSupported | broker/john_lomein_broker_service.py:372-485 | recovery always reaches a decision, and the snapshot it read supports that decision |
| Recovery.DecisionFollows | broker/john_lomein_broker_service.py:372-485 | which decision recovery takes is exactly what its snapshot and clock show |
| Reasons.SubmissionAnswers | broker/john_lomein_broker_service.py:498-532 | a submission to an idle service: a malformed packet changes nothing, an answered one is answered again if it is the stored one, any other request begins |
| Reasons.AdmissionAnswers | broker/john_lomein_broker_service.py:534-582 | the whole admission step: who gets in, with which tables, and where to, by the state of the effect; all others leave every table alone |
| Reasons.RetryIsAdmitted | broker/john_lomein_broker_store.py:1463-1478 | after its own absence is committed, the identical resubmitted packet goes on to the mutation with no further request charge |
| Reasons.LiveReadAnswers | broker/john_lomein_broker_service.py:583-650 | the whole live read: an unavailable state and the first error true of the snapshot become the signed reason; an authorized snapshot leads to reconciliation, drift or mutation |
| Reasons.StartAnswers | broker/john_lomein_broker_service.py:652-725 | the whole charging step: which of charge, indeterminate, drift, pending, open circuit and each exhausted budget, counted charge by charge, or escaping error, in this order, and what it leads to |
| Reasons.CallAnswers | broker/john_lomein_broker_service.py:726-735 | the call and its readback: one logged call, no table changed, the execution judged by answer and readback |
| Reasons.RecoveryReadAnswers | broker/john_lomein_broker_service.py:339-485 | the whole live read of recovery: which decision, with which reason and readback, by what is shown, authorized and left |
| BrokerSafety.ActiveAttemptCanTerminalize | broker/john_lomein_broker_store.py:2285-2322 | the outcome of an active attempt is stored if and only if the clock is not set back beyond the skew before the packet's creation |
| BrokerGuarantees.AtMostTwoCalls | broker/john_lomein_broker_service.py:652-739 | over every run an effect receives at most two external calls, and no more than its committed charges |
| BrokerGuarantees.EveryCallIsCharged | broker/john_lomein_broker_store.py:1799-1875 | each call is made under its own earlier committed charge, which is still in the ledger |
| CallPolicy.CallsRestOnPreconditions | broker/john_lomein_broker_service.py:583-735 | a call is made only by a request that was acceptable at its start and holds the charged active attempt, and rests on a snapshot that authorized it strictly and did not show the requested state, which the attempt's precondition describes |
| CallPolicy.OnlyConfiguredPacketsAct | broker/john_lomein_broker_service.py:498-735 | every charge and call ever made was for a stored packet that meets the configuration and asks for just that effect |
| CallPolicy.WellFormedMeans | broker/john_lomein_broker_protocol.py:1461-1556 | what a packet must meet at any time, field by field |
| BrokerGuarantees.CallsAreSeparated | broker/john_lomein_broker_store.py:1885-1972 | between two calls on an effect lie a committed absence, of a stored packet that asks for it and from a snapshot strictly authorized and not showing the requested state, and a new charge |
| BrokerGuarantees.NoCallAfterSettlement | broker/john_lomein_broker_store.py:1770-1797 | once an effect has left pending it is never called again |
| BrokerGuarantees.NoWedge | broker/john_lomein_broker_service.py:534-547 | the packet of an active attempt has no receipt and no second active effect, so its outcome can be stored exactly when the clock allows |
| BrokerGuarantees.RecoveryClearsRequester | broker/john_lomein_broker_service.py:487-496 | after the recovery pass of a request no attempt of its packet is active |
| BrokerGuarantees.ChargeConservation | broker/john_lomein_broker_store.py:1804-1875 | charges equal attempts, and each is the active one, the one absence or the one terminal receipt; a pending effect at rest has been charged at most once |
| BrokerGuarantees.AttemptsAreChargedOnce | broker/john_lomein_broker_store.py:1804-1830 | no attempt key is charged twice for one effect |
| BrokerGuarantees.ReceiptsAgreeWithLedger | broker/john_lomein_broker_service.py:228-337 | a charge of an answered packet is the one its receipt names, or was reconciled as absent; all charges of a rejected packet were |
| BrokerGuarantees.OutcomeAgrees | broker/john_lomein_broker_service.py:762-786 | signed outcome, row state, effect state and charge ledger agree on every receipt |
| BrokerGuarantees.StateIsFirstDecision | broker/john_lomein_broker_store.py:1397-1430 | an effect's state is that of its earliest deciding receipt, and pending exactly when there is none |
| BrokerGuarantees.LaterDecisionsOnlyReconcile | broker/john_lomein_broker_store.py:2144-2204 | later deciding receipts only reconcile without a call, and none follows an indeterminate one |
| BrokerGuarantees.TerminalEffectHasReceipt | broker/john_lomein_broker_store.py:1397-1430 | the "terminal effect has no receipt" errors are unreachable |
| BrokerGuarantees.SuccessRestsOnEvidence | broker/john_lomein_broker_service.py:372-424 | every success receipt was built from a snapshot authorized and showing the requested state, at the head and target of the stored packet, on all three paths |
| LoggedPackets.LogNamesStoredPackets | broker/john_lomein_broker_service.py:339-786 | in every reachable state a logged outcome or absence names the stored packet it is about, and a charge or call one that asks for its effect |
| BrokerGuarantees.CircuitMeaning | broker/john_lomein_broker_store.py:1974-2046 | the stored count is the trailing run of indeterminate settlements, and the circuit is open exactly at the limit |
| BrokerGuarantees.NoChargeWhileOpen | broker/john_lomein_broker_store.py:1844-1847 | no charge was ever committed while its circuit was open |
| Budgets.RequestWindowBounded | broker/john_lomein_broker_store.py:1182-1218 | every half-open hour holds at most the request limit, though the clock may jump backwards |
| Budgets.MutationDayBounded | broker/john_lomein_broker_store.py:1638-1704 | every UTC day holds at most the daily limits, in all and by action |
| Budgets.BudgetsHold | broker/john_lomein_broker_store.py:1182-1218 | in every reachable database, counted charge by charge, every half-open hour holds at most the request limit and every UTC day at most the daily limit and each action's |
| Budgets.ChargesAreBookedByAction | broker/john_lomein_broker_store.py:1804-1875 | a charge is booked under its effect's own action, so none escapes that action's limit |
| ReceiptChain.HeadCommitsToHistory | broker/john_lomein_broker_store.py:1315-1329 | equal chain heads mean equal receipt histories |
| ReceiptChain.ReceiptsAreChained | broker/john_lomein_broker_service.py:196-200 | receipts form one chain from the zero hash in row order |
| ReceiptChain.RunExtends | broker/john_lomein_broker_store.py:2048-2337 | continuing a run never changes or removes a stored packet or receipt |
| ReceiptChain.ReplayIsExact | broker/john_lomein_broker_service.py:522-532 | once a packet has a receipt, submitting it in any later idle state returns that receipt, changes no table and calls nobody |
| ReceiptChain.RepliesNeverDiffer | broker/john_lomein_broker_service.py:498-786 | all replies ever sent for a packet carry the same receipt |
| ReceiptValidity.WellTimedRunsAreTimed | broker/john_lomein_broker_service.py:498-786 | on a clock that never runs backwards every start, attempt and observation time kept anywhere is in order |
| ReceiptValidity.RecoveryAlwaysAdvances | broker/john_lomein_broker_service.py:397-496 | on such a clock every recovery decision is signed and stored, after the packet's expiry too |
| ReceiptValidity.FinishAlwaysAnswers | broker/john_lomein_broker_service.py:726-786 | on such a clock every call ends in a stored receipt and a reply |
| ReceiptValidity.RejectionAnswersIff | broker/john_lomein_broker_service.py:228-255 | a rejection is stored and answered if and only if no attempt of its effect is active |
| ReceiptValidity.SatisfactionAnswersIff | broker/john_lomein_broker_service.py:257-290 | an already satisfied packet is stored and answered if and only if its effect is neither indeterminate nor charged and active |
| UnansweredPackets.RejectionCanGoUnanswered | broker/john_lomein_broker_service.py:583-612 | a well-timed run in which a second packet's rejection is refused because the first packet's charged attempt, left alone, is still active |
| UnansweredPackets.SatisfactionCanGoUnanswered | broker/john_lomein_broker_service.py:643-650 | a well-timed run in which a second packet sees the requested state and its reconciliation is refused for the same reason |
| Recovery.RecoveryResolves | broker/john_lomein_broker_service.py:339-485 | a recovery step that does not raise settles the attempt by the snapshot and clock it read: shown unexpired, retriable and strictly unsatisfied, it is cleared as absent if the requester's own and left untouched otherwise; any other ends with a receipt, reconciled if the requested state was shown and indeterminate if not; no other effect changes |
| Recovery.ResolutionPersists | broker/john_lomein_broker_service.py:487-496 | what recovery has settled stays settled while it goes on |
| BrokerService.Service.RecoverOne | broker/john_lomein_broker_service.py:339-485 | the branches of recovery are one observing and one committing step of the machine |
| BrokerService.Service.RecoverPending | broker/john_lomein_broker_service.py:487-496 | if the pass returns, every attempt that was pending was settled by the snapshot and clock of its own step, found in the history at its place in the listing; nothing is replied |
| BrokerService.Service.ExecuteEvaluatedAction | broker/john_lomein_broker_actions.py:713-818 | exactly one call is logged, followed by one readback, and the verdict is the machine's |
| BrokerService.Service.PerformMutation | broker/john_lomein_broker_service.py:726-786 | one call, its readback and one conclusion, in this order; the signed outcome is returned exactly when it was stored |
| BrokerService.Service.MutateReady | broker/john_lomein_broker_service.py:652-725 | a charging transaction followed by exactly what its answer asks for: call, readback and conclusion after a charge, one signed rejection after a budget, circuit, pending or terminal answer, nothing after a replay or another error |
| BrokerService.Service.AdmitRequest | broker/john_lomein_broker_service.py:537-582 | an admission, then only the inputs its control points wait for up to an idle service: replay, refusal, rejection or live preconditions as in the machine |
| BrokerService.Service.Authorize | broker/john_lomein_broker_service.py:583-650 | a live read, then only the inputs its control points wait for up to an idle service, so the read decides between rejection, reconciliation and mutation as in the machine |
| BrokerService.Service.RecordRejection | broker/john_lomein_broker_service.py:228-255 | exactly one conclusion is taken; the signed rejection is returned exactly when stored |
| BrokerService.Service.RecordAlreadySatisfied | broker/john_lomein_broker_service.py:257-290 | exactly one conclusion is taken; the signed reconciliation is returned exactly when stored |
| BrokerService.Service.Handle | broker/john_lomein_broker_service.py:498-786 | a submission, then only the inputs the control points wait for (no crash, no operator) up to an idle service; it replies at most once and last, with the receipt stored for the packet; a packet with a receipt is replayed with no change |
| CaptureInventory.Inventory.InventoryTree | qualification_attestor/john_lomein_persona_qualification_capture_adoption.py:1565-1704 | the traversal with running counters accepts a directory exactly when it and the totals so far meet the policy, and appends its records |
| CaptureInventory.TakeInventory | qualification_attestor/john_lomein_persona_qualification_adoption_recovery.py:625-656 | an inventory from scratch accepts exactly the trees whose totals, depth, sizes, identities and names meet policy; its counters are the tree's totals |
| CaptureInventory.ReadDigest | qualification_attestor/john_lomein_persona_qualification_capture_adoption.py:1539-1562 | the chunked read digests the whole file exactly when it is within the permitted size |
| CaptureInventory.BoundIsImplied | qualification_attestor/john_lomein_persona_qualification_adoption_recovery.py:518-528 | the bound on one directory's listing refuses no tree within the totals |
| CaptureRecords.PathIsInjective | qualification_attestor/john_lomein_persona_qualification_capture_adoption.py:1611-1611 | different places in a tree have different recorded paths |
| CaptureRecords.OneRecordPerPath | qualification_attestor/john_lomein_persona_qualification_capture_adoption.py:1477-1485 | a path names one record, so sorting by path leaves nothing open |
| CaptureRecords.RecordsDetermineContent | qualification_attestor/john_lomein_persona_qualification_capture_adoption.py:1477-1485 | two trees with the same records hold the same directory or the same bytes at every path |
| CaptureRecords.RecomputedFactsAgree | qualification_attestor/john_lomein_persona_qualification_adoption_binding.py:1107-1141 | largest file and depth recomputed from the records equal the counters kept during the traversal |
| CaptureRecords.ReconciliationAcceptsRealTrees | qualification_attestor/john_lomein_persona_qualification_adoption_reconciliation.py:444-468 | every tree within the limits passes the consistency rules (depth below directory count, largest file against total) |
| CaptureRecords.ConsistentFactsAreRealIff | qualification_attestor/john_lomein_persona_qualification_adoption_reconciliation.py:444-468 | the facts of some tree within the limits are exactly those that pass the rules, whose bytes fit into that many files of the largest size, and whose depth zero means one directory |
| CaptureRecords.ConsistencyIsNotRealism | qualification_attestor/john_lomein_persona_qualification_adoption_reconciliation.py:444-468 | two inputs the rules let through although no tree has them |
| CaptureRecords.LaterReadersAccept | qualification_attestor/john_lomein_persona_qualification_adoption_binding.py:577-673 | what the adoption's inventory accepts, the recovery's and the binding verifier's accept too |
| CaptureBinding.Observation.InventoryTree | qualification_attestor/john_lomein_persona_qualification_adoption_binding.py:577-673 | the binding verifier's own traversal accepts a directory exactly when it and the counts so far meet the global policy, and appends its records |
| CaptureBinding.ObserveTwice | qualification_attestor/john_lomein_persona_qualification_adoption_binding.py:1092-1141 | whatever the recovery's traversal and the binding verifier's both accept they record alike, and the facts one counts the other recomputes |
| CaptureBinding.VerifyRecovered | qualification_attestor/john_lomein_persona_qualification_adoption_binding.py:1092-1153 | the check of a recovered adoption passes exactly when the tree meets the adoption's own limits and the recovered facts and records are the tree's |
| CaptureAdoption.ChangeOwner | qualification_attestor/john_lomein_persona_qualification_capture_adoption.py:1808-1842 | revoke, hand over and publish, stopped after any call, leave one of the four states of a node in transit |
| CaptureAdoption.AdoptTree | qualification_attestor/john_lomein_persona_qualification_capture_adoption.py:1733-1858 | wherever it stops, shape, names and bytes are kept and every node is in transit; if it finishes, the tree is the adopted one; without faults it finishes on every acceptable tree |
| CaptureCleanup.CleanupTree | qualification_attestor/john_lomein_persona_qualification_capture_adoption.py:1948-2047 | on success the directory is empty; stopped anywhere, a removable tree stays removable and never grows, and every node that by its own device, owner, mode, links, depth or names may not be removed is still in its place; without faults it succeeds on removable trees within the entry count |
| CaptureCleanup.UnlinkBoundTree | qualification_attestor/john_lomein_persona_qualification_capture_adoption.py:2070-2092 | without faults a tree is removed if and only if it is recoverable; what is removed had at every place the root device, one of the two owner pairs, a listed mode and single links; a failure leaves a recoverable rest and every unfit node |
| CaptureCleanup.AdoptionStaysRecoverable | qualification_attestor/john_lomein_persona_qualification_capture_adoption.py:1919-2047 | every state in which the adoption of an accepted capture can be interrupted is recoverable |
| CaptureCleanup.HalfAdoptedIsRemovable | qualification_attestor/john_lomein_persona_qualification_capture_adoption.py:1919-1945 | every node in transit has an identity the cleanup allows, and no name is added or lost |
| CaptureCleanup.AdoptionPreservesRecords | qualification_attestor/john_lomein_persona_qualification_capture_adoption.py:2834-2852 | no state of the adoption changes an inventory record or total |
| CaptureCleanup.AdoptedMeetsPolicy | qualification_attestor/john_lomein_persona_qualification_capture_adoption.py:2813-2852 | the second inventory accepts what the transform of an accepted capture produces, with equal records |
| CapturePlaces.MeetsPolicyIff | qualification_attestor/john_lomein_persona_qualification_capture_adoption.py:1565-1704 | an inventory accepts a directory exactly when every place in it holds what the policy demands there, and its recorded files, directories and bytes are within the limits |
| CapturePlaces.RecoverableIff | qualification_attestor/john_lomein_persona_qualification_capture_adoption.py:1919-2047 | a directory can be removed exactly when every place in it has the device, an owner pair, a mode, link count, depth and names the cleanup allows, and few enough names |
| CapturePlaces.AdoptedEverywhere | qualification_attestor/john_lomein_persona_qualification_capture_adoption.py:1733-1858 | the adopted tree differs at every place in owner, group and mode, and in nothing else |
| CapturePlaces.TransitEverywhere | qualification_attestor/john_lomein_persona_qualification_capture_adoption.py:1808-1842 | an interrupted adoption has at every place one of four attribute states, and no place more or less |
| CapturePlaces.TotalsCountRecords | qualification_attestor/john_lomein_persona_qualification_capture_adoption.py:1565-1704 | the totals of a tree are the files, directories and bytes of its records |
| CapturePlaces.RecordsAreDistinct | qualification_attestor/john_lomein_persona_qualification_capture_adoption.py:1477-1485 | no two records of a tree have the same path, so nothing is counted twice |
| CapturePlaces.FactsAreExtremes | qualification_attestor/john_lomein_persona_qualification_adoption_binding.py:1107-1141 | the recomputed facts are the size of a largest recorded file and the depth of a deepest recorded directory |
| CaptureLease.AdoptCapture | qualification_attestor/john_lomein_persona_qualification_capture_adoption.py:2721-2976 | on success the final name holds the adopted tree of the captured content under a valid lease; on failure the capture is under one name only and recoverable, and the final name is untouched if the capture was not acceptable, with every unfit node still in place; without faults it succeeds exactly on acceptable captures with a free name, and otherwise removes exactly a recoverable one |
| CaptureLease.Lease.Cleanup | qualification_attestor/john_lomein_persona_qualification_capture_adoption.py:2486-2532 | a failed cleanup leaves a state from which it can be retried, one without faults closes the lease with the capture gone, and a closed or detached lease removes nothing |
| CaptureLease.Lease.RetryUntilClosed | qualification_attestor/john_lomein_persona_qualification_capture_adoption.py:2486-2532 | after any number of failing cleanups one without faults removes the capture and closes the lease |
| CaptureLease.Lease.DeferToRecovery | qualification_attestor/john_lomein_persona_qualification_capture_adoption.py:2309-2484 | a lease is handed over only with the whole adopted capture still in place, and then answers the same request the same way |
| CaptureLease.Lease.Finalize | qualification_attestor/john_lomein_persona_qualification_capture_adoption.py:2554-2565 | the finalizer of a detached lease removes nothing |
| PublishOnce.EveryRun | owner_gateway/john_lomein_release_owner_signer.py:1221-1313 | the protocol's invariant holds after any interleaving of any processes, with failures and crashes at any call |
| PublishOnce.PublishedForever | owner_gateway/john_lomein_release_owner_signer.py:1258-1286 | a published name never moves or changes, and always holds one whole record of its event |
| PublishOnce.ReturnsAgree | owner_gateway/john_lomein_release_owner_signer.py:1245-1308 | all calls that return for one event return the published record and asked for the same logical request |
| PublishOnce.ReadersSeePublished | owner_gateway/john_lomein_release_owner_signer.py:1168-1207 | an existing record is read exactly while its file has one name and a permitted size |
| PublishOnce.AbandonedNeverReturns | owner_gateway/john_lomein_release_owner_signer.py:1182-1189 | while a record's file keeps a second name that no live process will remove, no call for that event has returned or ever returns |
| PublishOnce.CrashAfterLinkNeverReturns | owner_gateway/john_lomein_release_owner_signer.py:1268-1308 | after a crash, or a failed unlink, between link and unlink the record stays published and whole, and no call for that event has returned or ever returns |
| PublishOnce.LoneCallReturnsIff | owner_gateway/john_lomein_release_owner_signer.py:1243-1257 | a call that runs alone without faults on a published event changes nothing, and returns the published record if and only if its file has one name and a permitted size and it answers the same logical request |
| PublishOnce.LoneCallPublishes | owner_gateway/john_lomein_release_owner_signer.py:1258-1310 | a call that runs alone without faults on an unpublished event publishes and returns its own record |
| PublishOnce.LostRaceReturnsIff | owner_gateway/john_lomein_release_owner_signer.py:1279-1308 | a call about to link that finds its record published, and goes on alone without faults, removes its temporary name and nothing else, and returns the published record if and only if that has one name, a permitted size and the same logical request |

## Left out

- CaptureAdoption.AdoptTree: the tree is a value rebuilt entry by entry, not inodes on a heap; a file with several links is refused by the checks, so sharing between names does not arise, but a concurrent change of the tree by another process is not modelled.
- CaptureCleanup.CleanupTree: on a tree value, as the adoption; names disappear from the front of the sorted listing.
- CaptureLease.Lease.Cleanup: a failing call is taken to have no effect; an asynchronous interrupt between the last `rmdir` and the change of the cleanup state is not modelled.
- CaptureLease.Lease.DeferToRecovery: the root's stat digest is compared by owner, group, mode and device; change times and inode numbers are not modelled.
- CaptureLease.AdoptCapture: child-death proof, parent-chain and descriptor validation, directory locks, the revocation of the staging parent and the listing of the staging directory happen before the modelled part.
- PublishOnce.EveryRun: safety under every interleaving; that a call returns is proved for one that runs alone without faults, from its start or from a lost link race on, not while others go on racing.
- BrokerService.Service.Handle: a crash inside the program is a step of the machine, not of the methods; recursion into transports is one oracle call each.
- Field-by-field schema, regular-expression and signature validation of configurations, packets and records: the model starts from normalized values, and the owner signer's verification is the environment's choice of a failing call.
- SHA-256, canonical JSON and Ed25519: digests are injective constructors, the record encoding is a parameter that decodes what it encodes, signatures are not represented.
- Path patterns, evidence-marker text, Unicode folding and normalization: parameters of other libraries.
- Extended attributes and access-control lists of files, and rename primitives by platform: foreign calls.
- The `failed` outcome and the `failed` row state: the service never produces them.
- Reason codes as text: each is a constructor by prefix, so the code's length and alphabet are not modelled.
- Creation and update times of rows, first and last packet of an effect, detail documents of budget events: nothing reads them back.
- The order of attempts that started in the same second: any order is allowed.
- The binding of a database to its configuration, schema creation and migration, file permissions, sockets and peer credentials: operating-system plumbing; limits are fixed for the life of a database.
- GitHub, Discord and model transports: a read is any snapshot or a failure, a mutation is any response.
- The transaction journal and the second-generation recovery lease, and the classification of reconciliation results by observation: they rest on journal entries outside these files, or are plain case tables.
- Power loss: a committed transaction, a returned `fsync` and a returned `link` are durable.
