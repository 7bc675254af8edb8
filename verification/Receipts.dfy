/**
 Signed broker receipts: the rules a receipt payload must satisfy and the builder that assembles
 one (broker/john_lomein_broker_receipts.py).

 A receipt digest is the receipt itself under a constructor, which makes SHA-256 injective; the
 signature is a function of the payload and is not represented.
 */
module Receipts {
  import opened Outcomes
  import opened Packets
  import opened Actions

  /** 2020-01-01T00:00:00Z: no timestamp of a receipt may be earlier. */
  const EARLIEST_TIMESTAMP := 1577836800

  datatype MutationStatus =
    | NotAttempted
    | AlreadySatisfied
    | Applied
    | ReconciledMutation
    | FailedMutation
    | IndeterminateMutation

  datatype ReadbackStatus = ReadbackNotAttempted | Confirmed | NotConfirmed | ReadbackIndeterminate

  datatype Verdict = Succeeded | Rejected | Failed | Indeterminate

  /** Reason codes, by their prefix; a constructor's argument is the non-empty rest of the code. */
  datatype Reason =
    | ReadbackVerified
    | ReconciledReadbackVerified
    | AlreadySatisfiedReason
    | PreconditionFailed(why: PreconditionReason)
    | BudgetExhausted(budget: Budget)
    | CircuitRefused(circuit: CircuitReason)
    | IndeterminateExecution(doubt: Doubt)
    | IndeterminateRecovery(recovery: RecoveryReason)

  datatype PreconditionReason = ActionRefused(error: ActionError) | LiveStateUnavailable | SemanticStateDrift

  datatype Budget = RequestsPerHour | DailyMutations | MarkReadyPerDay | ReviewThreadsPerDay

  datatype CircuitReason = SemanticIndeterminate | SemanticPending | ActionOpen

  datatype RecoveryReason =
    | RecoveryUnavailable
    | RecoveryStateMismatch
    | RecoveryHeadOrStateChanged
    | PacketExpiredBeforeRetry
    | RetryExhausted

  /** What a precondition digest commits to. */
  datatype Precondition =
    | EvaluatedBefore(before: Before)
    | RefusedPacket(digest: string, why: PreconditionReason)
    | EffectCondition(reason: Reason)

  datatype Mutation = Mutation(status: MutationStatus, attemptedAt: Option<int>, operationId: string)

  datatype Readback = Readback(
    status: ReadbackStatus,
    observedAt: Option<int>,
    head: Option<string>,
    isDraft: Option<bool>,
    resolved: seq<string>)

  datatype Digest = ZeroHash | Sha256(receipt: Receipt)

  datatype Receipt = Receipt(
    packetId: string,
    requestDigest: string,
    action: Action,
    head: string,
    targets: seq<string>,
    precondition: Precondition,
    mutation: Mutation,
    readback: Readback,
    verdict: Verdict,
    reason: Reason,
    startedAt: int,
    completedAt: int,
    previous: Digest)

  datatype ReceiptError =
    | WindowViolation
    | TimestampOutOfRange
    | HeadInvalid
    | TargetsInvalid
    | MutationInvalid
    | ReadbackInvalid
    | ConfirmationInvalid
    | TimesInconsistent
    | VerdictInconsistent

  function LowerHex(text: string): string {
    seq(|text|, i requires 0 <= i < |text| =>
      if 'A' <= text[i] <= 'F' then text[i] - 'A' + 'a' else text[i])
  }

  predicate InRange(at: int) {
    EARLIEST_TIMESTAMP <= at
  }

  predicate OptionalInRange(at: Option<int>) {
    at.Some? ==> InRange(at.value)
  }

  predicate ThreadIdsValid(ids: seq<string>) {
    |ids| <= 1 && forall i | 0 <= i < |ids| :: ids[i] != ""
  }

  predicate MutationConsistent(mutation: Mutation) {
    && OptionalInRange(mutation.attemptedAt)
    && (mutation.status in {NotAttempted, AlreadySatisfied} ==> mutation.attemptedAt.None? && mutation.operationId == "")
    && (mutation.status !in {NotAttempted, AlreadySatisfied} ==> mutation.attemptedAt.Some?)
    && (mutation.status in {Applied, ReconciledMutation} ==> mutation.operationId != "")
  }

  predicate ReadbackConsistent(readback: Readback) {
    && OptionalInRange(readback.observedAt)
    && (readback.head.Some? ==> IsOid(readback.head.value))
    && ThreadIdsValid(readback.resolved)
    && (readback.status == ReadbackNotAttempted ==>
          readback.observedAt.None? && readback.head.None? && readback.isDraft.None? && readback.resolved == [])
    && (readback.status != ReadbackNotAttempted ==> readback.observedAt.Some?)
  }

  predicate ConfirmationProves(receipt: Receipt) {
    receipt.readback.status == Confirmed ==>
      && receipt.readback.head == Some(receipt.head)
      && receipt.readback.isDraft.Some?
      && match receipt.action
         case MarkPrReady => receipt.readback.isDraft == Some(false) && receipt.readback.resolved == []
         case ResolveReviewThread => receipt.readback.resolved == receipt.targets
  }

  predicate TimesOrdered(receipt: Receipt) {
    var attempted := receipt.mutation.attemptedAt;
    var observed := receipt.readback.observedAt;
    && receipt.startedAt <= receipt.completedAt
    && (attempted.Some? ==> receipt.startedAt <= attempted.value <= receipt.completedAt)
    && (observed.Some? ==> receipt.startedAt <= observed.value <= receipt.completedAt)
    && (attempted.Some? && observed.Some? ==> attempted.value <= observed.value)
  }

  predicate VerdictConsistent(receipt: Receipt) {
    var status := receipt.mutation.status;
    var readback := receipt.readback.status;
    match receipt.verdict
    case Succeeded =>
      && readback == Confirmed
      && (|| (status == Applied && receipt.reason == ReadbackVerified)
          || (status == ReconciledMutation && receipt.reason == ReconciledReadbackVerified)
          || (status == AlreadySatisfied && receipt.reason == AlreadySatisfiedReason))
    case Rejected =>
      && status == NotAttempted
      && readback == ReadbackNotAttempted
      && (receipt.reason.PreconditionFailed? || receipt.reason.BudgetExhausted? || receipt.reason.CircuitRefused?)
    case Failed => false  // needs a reason with the prefix mutation_, which the service never uses
    case Indeterminate =>
      && status in {Applied, ReconciledMutation, IndeterminateMutation}
      && readback in {NotConfirmed, ReadbackIndeterminate}
      && (receipt.reason.IndeterminateExecution? || receipt.reason.IndeterminateRecovery?)
  }

  /** normalize_receipt_payload: hexadecimal readback heads are lowered, everything else must already conform. */
  function Normalize(raw: Receipt): Result<Receipt, ReceiptError> {
    var head := if raw.readback.head.Some? then Some(LowerHex(raw.readback.head.value)) else None;
    var receipt := raw.(readback := raw.readback.(head := head));
    :- Need(IsOid(receipt.head), HeadInvalid);
    :- Need(ThreadIdsValid(receipt.targets) && (receipt.action == MarkPrReady <==> receipt.targets == []), TargetsInvalid);
    :- Need(MutationConsistent(receipt.mutation), MutationInvalid);
    :- Need(ReadbackConsistent(receipt.readback), ReadbackInvalid);
    :- Need(ConfirmationProves(receipt), ConfirmationInvalid);
    :- Need(InRange(receipt.startedAt) && InRange(receipt.completedAt), TimestampOutOfRange);
    :- Need(TimesOrdered(receipt), TimesInconsistent);
    :- Need(VerdictConsistent(receipt), VerdictInconsistent);
    Ok(receipt)
  }

  /** What the service hands to the builder; the rest of a payload comes from the packet. */
  datatype Draft = Draft(
    precondition: Precondition,
    verdict: Verdict,
    reason: Reason,
    mutation: Mutation,
    readback: Readback,
    startedAt: int,
    completedAt: int)

  function Assemble(packet: Packet, draft: Draft, previous: Digest): Receipt {
    Receipt(packet.id, packet.digest, packet.action, packet.pr.head, packet.threadIds, draft.precondition,
            draft.mutation, draft.readback, draft.verdict, draft.reason, draft.startedAt, draft.completedAt, previous)
  }

  /** build_receipt_payload: the packet must be acceptable at the moment the receipt says work started. */
  function Build(cfg: Config, packet: Packet, draft: Draft, previous: Digest): Result<Receipt, ReceiptError> {
    var receipt := Assemble(packet, draft, previous);
    :- Need(Accepted(cfg, packet, draft.startedAt), WindowViolation);
    Normalize(receipt)
  }

  const NO_MUTATION := Mutation(NotAttempted, None, "")
  const NO_READBACK := Readback(ReadbackNotAttempted, None, None, None, [])

  function RejectionDraft(startedAt: int, completedAt: int, reason: Reason, precondition: Precondition): Draft {
    Draft(precondition, Rejected, reason, NO_MUTATION, NO_READBACK, startedAt, completedAt)
  }

  function SnapshotReadback(packet: Packet, status: ReadbackStatus, observedAt: int, live: Snapshot): Readback {
    Readback(status, Some(observedAt), Some(live.pr.head), Some(live.pr.isDraft), ResolvedTargets(packet, live))
  }

  function SatisfiedDraft(packet: Packet, startedAt: int, completedAt: int, evaluated: Evaluated, live: Snapshot): Draft {
    Draft(EvaluatedBefore(evaluated.before), Succeeded, AlreadySatisfiedReason,
          Mutation(AlreadySatisfied, None, ""),
          SnapshotReadback(packet, Confirmed, completedAt, live), startedAt, completedAt)
  }

  function IndeterminateDraft(packet: Packet, startedAt: int, attemptedAt: int, completedAt: int, attempt: string,
                              precondition: Precondition, reason: Reason, readback: Option<Snapshot>): Draft {
    Draft(precondition, Indeterminate, reason,
          Mutation(IndeterminateMutation, Some(attemptedAt), attempt),
          match readback
          case None => Readback(ReadbackIndeterminate, Some(completedAt), None, None, [])
          case Some(live) => SnapshotReadback(packet, ReadbackIndeterminate, completedAt, live),
          startedAt, completedAt)
  }

  function RecoveredDraft(packet: Packet, attemptedAt: int, completedAt: int, attempt: string,
                          precondition: Precondition, live: Snapshot): Draft {
    Draft(precondition, Succeeded, ReconciledReadbackVerified,
          Mutation(ReconciledMutation, Some(attemptedAt), attempt),
          SnapshotReadback(packet, Confirmed, completedAt, live), attemptedAt, completedAt)
  }

  function AppliedDraft(startedAt: int, attemptedAt: int, completedAt: int, attempt: string,
                        evaluated: Evaluated, after: Snapshot): Draft {
    Draft(EvaluatedBefore(evaluated.before), Succeeded, ReadbackVerified,
          Mutation(Applied, Some(attemptedAt), attempt),
          Readback(Confirmed, Some(completedAt), Some(after.pr.head), Some(after.pr.isDraft),
                   VerifiedTargets(evaluated.target, after)),
          startedAt, completedAt)
  }

  // ----- properties ----------------------------------------------------------------------------

  lemma LowerHexFixesOid(text: string)
    requires IsOid(text)
    ensures LowerHex(text) == text
  {
  }

  /** Normalizing is idempotent: a receipt that was accepted once is accepted again unchanged. */
  lemma NormalizeIsIdempotent(raw: Receipt)
    requires Normalize(raw).Ok?
    ensures Normalize(Normalize(raw).value) == Normalize(raw)
  {
    var receipt := Normalize(raw).value;
    if receipt.readback.head.Some? {
      LowerHexFixesOid(receipt.readback.head.value);
    }
    assert receipt.(readback := receipt.readback.(head := receipt.readback.head)) == receipt;
  }

  /** A success receipt always proves a confirmed readback at the packet's head and target. */
  lemma SuccessProvesTarget(cfg: Config, packet: Packet, draft: Draft, previous: Digest)
    requires Build(cfg, packet, draft, previous).Ok?
    ensures var receipt := Build(cfg, packet, draft, previous).value;
            receipt.verdict == Succeeded ==>
              && receipt.readback.head == Some(packet.pr.head)
              && receipt.readback.resolved == packet.threadIds
              && (packet.action == MarkPrReady ==> receipt.readback.isDraft == Some(false))
  {
  }

  /** The fields a store transition relies on. */
  lemma BuildKeepsDraft(cfg: Config, packet: Packet, draft: Draft, previous: Digest)
    requires Build(cfg, packet, draft, previous).Ok?
    ensures var receipt := Build(cfg, packet, draft, previous).value;
            && receipt.packetId == packet.id
            && receipt.head == packet.pr.head
            && receipt.previous == previous
            && receipt.readback.isDraft == draft.readback.isDraft
            && receipt.verdict == draft.verdict
            && receipt.mutation == draft.mutation
            && receipt.reason == draft.reason
            && receipt.precondition == draft.precondition
            && receipt.startedAt == draft.startedAt
            && receipt.completedAt == draft.completedAt
  {
  }
}
