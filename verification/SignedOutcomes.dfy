/**
 What the service signs: for every way a request or a recovery can end, the stored receipt field by field, the
 tables it leaves and the reply; and for every cause of a refusal or a doubt, the reason that is signed.
 Each outcome is one equation for the whole step, so nothing else changes.
 */
module SignedOutcomes {
  import opened Outcomes
  import opened Packets
  import opened Actions
  import opened ActionLaws
  import opened Receipts
  import opened StoreState
  import opened StoreInvariants
  import opened StoreAdmission
  import opened Lifecycle
  import opened BrokerInvariant
  import opened BrokerSafety
  import opened ReceiptValidity

  /** The receipt of a packet at the head of the chain: what the packet itself contributes, and what the outcome does. */
  function Signed(st: Store, packet: Packet, precondition: Precondition, mutation: Mutation, readback: Readback,
                  verdict: Verdict, reason: Reason, startedAt: int, completedAt: int): Receipt
  {
    Receipt(packet.id, packet.digest, packet.action, packet.pr.head, packet.threadIds, precondition, mutation, readback,
            verdict, reason, startedAt, completedAt,
            if st.receipts == [] then ZeroHash else Sha256(st.receipts[|st.receipts| - 1].receipt))
  }

  /** The database with one more receipt row. */
  function WithRow(st: Store, row: ReceiptRow): Store {
    st.(receipts := st.receipts + [row])
  }

  /** The thread of the packet is among those the snapshot shows resolved. */
  predicate TargetResolved(packet: Packet, live: Snapshot) {
    exists i :: 0 <= i < |live.threads| && packet.threadIds == [live.threads[i].id] && live.threads[i].isResolved
  }

  // ----- which receipts are acceptable ---------------------------------------------------------

  /** Started, called, observed, completed: in this order, and none before 2020. */
  predicate TimesFit(receipt: Receipt) {
    && 1577836800 <= receipt.startedAt <= receipt.completedAt
    && (receipt.readback.observedAt.Some? ==> receipt.startedAt <= receipt.readback.observedAt.value <= receipt.completedAt)
    && (receipt.mutation.attemptedAt.Some? ==>
          receipt.startedAt <= receipt.mutation.attemptedAt.value
          <= if receipt.readback.observedAt.Some? then receipt.readback.observedAt.value else receipt.completedAt)
  }

  /** A success: the exact head and target were read back, after a call, a recovered call or no call, as the reason says. */
  predicate ProvesSuccess(raw: Receipt) {
    && raw.readback.status == Confirmed && raw.readback.observedAt.Some?
    && raw.readback.head.Some? && LowerHex(raw.readback.head.value) == raw.head
    && raw.readback.isDraft.Some? && raw.readback.resolved == raw.targets
    && (raw.action == MarkPrReady ==> raw.readback.isDraft == Some(false))
    && match raw.reason
       case ReadbackVerified => raw.mutation.status == Applied && raw.mutation.attemptedAt.Some? && raw.mutation.operationId != ""
       case ReconciledReadbackVerified =>
         raw.mutation.status == ReconciledMutation && raw.mutation.attemptedAt.Some? && raw.mutation.operationId != ""
       case AlreadySatisfiedReason => raw.mutation == Mutation(AlreadySatisfied, None, "")
       case _ => false
  }

  /** A doubt: something was called, nothing was confirmed. */
  predicate AdmitsDoubt(raw: Receipt) {
    && raw.mutation.status in {Applied, ReconciledMutation, IndeterminateMutation} && raw.mutation.attemptedAt.Some?
    && (raw.mutation.status != IndeterminateMutation ==> raw.mutation.operationId != "")
    && raw.readback.status in {NotConfirmed, ReadbackIndeterminate} && raw.readback.observedAt.Some?
    && (raw.readback.head.Some? ==> IsOid(LowerHex(raw.readback.head.value)))
    && (raw.readback.resolved == [] || (|raw.readback.resolved| == 1 && raw.readback.resolved[0] != ""))
    && (raw.reason.IndeterminateExecution? || raw.reason.IndeterminateRecovery?)
  }

  /** A refusal: nothing was called and nothing read back. */
  predicate RefusesOnly(raw: Receipt) {
    && raw.mutation == Mutation(NotAttempted, None, "") && raw.readback == Readback(ReadbackNotAttempted, None, None, None, [])
    && (raw.reason.PreconditionFailed? || raw.reason.BudgetExhausted? || raw.reason.CircuitRefused?)
  }

  /** A payload is acceptable exactly when its head, targets and times are sound and all else fits its verdict; only the readback head is rewritten, in lower case. */
  lemma NormalizeAcceptsIff(raw: Receipt)
    ensures Normalize(raw).Ok? <==>
              && IsOid(raw.head) && TimesFit(raw)
              && (if raw.action == MarkPrReady then raw.targets == [] else |raw.targets| == 1 && raw.targets[0] != "")
              && match raw.verdict
                 case Succeeded => ProvesSuccess(raw)
                 case Rejected => RefusesOnly(raw)
                 case Indeterminate => AdmitsDoubt(raw)
                 case Failed => false
    ensures Normalize(raw).Ok? ==>
              Normalize(raw).value == raw.(readback := raw.readback.(head :=
                if raw.readback.head.Some? then Some(LowerHex(raw.readback.head.value)) else None))
  {
    hide IsOid, LowerHex;
  }

  // ----- what the builder makes of each draft --------------------------------------------------

  lemma RejectionReceipt(cfg: Config, st: Store, packet: Packet, started: int, now: int, reason: Reason, precondition: Precondition)
    requires Accepted(cfg, packet, started) && RejectionReason(reason)
    ensures var built := Build(cfg, packet, RejectionDraft(started, now, reason, precondition), HeadDigest(st.receipts));
            && (built.Ok? <==> 1577836800 <= started <= now)
            && (built.Ok? ==> built.value == Signed(st, packet, precondition, Mutation(NotAttempted, None, ""),
                  Readback(ReadbackNotAttempted, None, None, None, []), Rejected, reason, started, now))
  {
  }

  lemma SatisfiedReceipt(cfg: Config, st: Store, packet: Packet, started: int, now: int, evaluated: Evaluated, live: Snapshot)
    requires Accepted(cfg, packet, started) && AcceptedAsSatisfied(cfg, packet, live)
    ensures var built := Build(cfg, packet, SatisfiedDraft(packet, started, now, evaluated, live), HeadDigest(st.receipts));
            && (built.Ok? <==> 1577836800 <= started <= now)
            && (built.Ok? ==> built.value == Signed(st, packet, EvaluatedBefore(evaluated.before), Mutation(AlreadySatisfied, None, ""),
                  Readback(Confirmed, Some(now), Some(packet.pr.head), Some(live.pr.isDraft), packet.threadIds),
                  Succeeded, AlreadySatisfiedReason, started, now))
  {
    hide Evaluate;
    SatisfiedReadback(cfg, packet, live);
    LowerHexFixesOid(live.pr.head);
  }

  lemma RecoveredReceipt(cfg: Config, st: Store, packet: Packet, started: int, now: int, attempt: string,
                         precondition: Precondition, live: Snapshot)
    requires WellFormed(cfg, packet) && AcceptedAsSatisfied(cfg, packet, live) && attempt != ""
    ensures var built := Build(cfg, packet, RecoveredDraft(packet, started, now, attempt, precondition, live), HeadDigest(st.receipts));
            && (built.Ok? <==> packet.createdAt - cfg.maximumClockSkew <= started < packet.expiresAt && 1577836800 <= started <= now)
            && (built.Ok? ==> built.value == Signed(st, packet, precondition, Mutation(ReconciledMutation, Some(started), attempt),
                  Readback(Confirmed, Some(now), Some(packet.pr.head), Some(live.pr.isDraft), packet.threadIds),
                  Succeeded, ReconciledReadbackVerified, started, now))
  {
    hide Evaluate, WellFormed;
    HeadIsOid(cfg, packet);
    SatisfiedReadback(cfg, packet, live);
    LowerHexFixesOid(live.pr.head);
  }

  lemma HeadIsOid(cfg: Config, packet: Packet)
    requires WellFormed(cfg, packet)
    ensures IsOid(packet.pr.head) && TargetsFitAction(packet)
            && ThreadIdsValid(packet.threadIds) && (packet.action == MarkPrReady <==> packet.threadIds == [])
  {
  }

  lemma AppliedReceipt(cfg: Config, st: Store, packet: Packet, started: int, attemptedAt: int, now: int, attempt: string,
                       evaluated: Evaluated, after: Snapshot)
    requires Accepted(cfg, packet, started) && ConfirmedReadback(packet, after) && EvaluatedFits(packet, evaluated) && attempt != ""
    ensures var built := Build(cfg, packet, AppliedDraft(started, attemptedAt, now, attempt, evaluated, after), HeadDigest(st.receipts));
            && (built.Ok? <==> 1577836800 <= started <= attemptedAt <= now)
            && (built.Ok? ==> built.value == Signed(st, packet, EvaluatedBefore(evaluated.before), Mutation(Applied, Some(attemptedAt), attempt),
                  Readback(Confirmed, Some(now), Some(packet.pr.head), Some(after.pr.isDraft), packet.threadIds),
                  Succeeded, ReadbackVerified, started, now))
  {
    LowerHexFixesOid(after.pr.head);
  }

  /** The readback fields of a receipt for which nothing was confirmed. */
  function Unconfirmed(packet: Packet, now: int, readback: Option<Snapshot>): Readback {
    match readback
    case None => Readback(ReadbackIndeterminate, Some(now), None, None, [])
    case Some(live) =>
      Readback(ReadbackIndeterminate, Some(now), Some(LowerHex(live.pr.head)), Some(live.pr.isDraft),
               if TargetResolved(packet, live) then packet.threadIds else [])
  }

  lemma IndeterminateReceipt(cfg: Config, st: Store, packet: Packet, started: int, attemptedAt: int, now: int, attempt: string,
                             precondition: Precondition, reason: Reason, readback: Option<Snapshot>)
    requires WellFormed(cfg, packet) && (reason.IndeterminateExecution? || reason.IndeterminateRecovery?)
    ensures var built := Build(cfg, packet, IndeterminateDraft(packet, started, attemptedAt, now, attempt, precondition, reason, readback),
                               HeadDigest(st.receipts));
            && (built.Ok? <==>
                  && packet.createdAt - cfg.maximumClockSkew <= started < packet.expiresAt && 1577836800 <= started <= attemptedAt <= now
                  && (readback.Some? ==> IsOid(LowerHex(readback.value.pr.head))))
            && (built.Ok? ==> built.value == Signed(st, packet, precondition, Mutation(IndeterminateMutation, Some(attemptedAt), attempt),
                  Unconfirmed(packet, now, readback), Indeterminate, reason, started, now))
  {
    hide WellFormed, LowerHex, IsOid;
    HeadIsOid(cfg, packet);
    if readback.Some? {
      ResolvedIsTarget(packet, readback.value);
    }
  }

  lemma ResolvedIsTarget(packet: Packet, live: Snapshot)
    requires TargetsFitAction(packet)
    ensures ResolvedTargets(packet, live) == if TargetResolved(packet, live) then packet.threadIds else []
  {
    if packet.threadIds != [] {
      assert packet.threadIds == [packet.threadIds[0]];
    }
  }

  // ----- outcomes without a call ---------------------------------------------------------------

  /** The service is idle again, the row is stored on top of the given tables, and the client has its receipt. */
  function AnsweredWith(s: System, store: Store, settled: seq<Event>, packet: Packet, row: ReceiptRow, evidence: Option<Snapshot>): System {
    s.(pc := Idle, store := store, log := s.log + settled + [Recorded(row, packet, evidence)] + [Replied(row.packetId, row.receipt)])
  }

  /** The store's part of an outcome without a call, for an open request whose receipt was built. */
  lemma OutcomeIsRecorded(cfg: Config, s: System, request: Request, state: RowState, effect: Option<EffectKey>,
                          draft: Draft, evidence: Option<Snapshot>, now: int)
    requires ValidConfig(cfg) && Core(cfg, s.store, s.log) && RequestOpen(cfg, s.store, request)
    requires state in {RowRejected, RowReconciled} && (state == RowReconciled ==> effect.Some?)
    requires effect.Some? ==> effect.value == EffectOf(request.packet)
    requires Build(cfg, request.packet, draft, HeadDigest(s.store.receipts)).Ok? && request.started <= now
    ensures effect.Some? ==> effect.value in s.store.effects
    ensures var packet, st := request.packet, s.store;
            var row := ReceiptRow(packet.id, effect, state, Build(cfg, packet, draft, HeadDigest(st.receipts)).value);
            RecordStep(cfg, s, packet, state, effect, draft, evidence, now) ==
              if effect.None? then AnsweredWith(s, WithRow(st, row), [], packet, row, evidence)
              else
                var found := st.effects[effect.value];
                if found.active.Some? || (state == RowReconciled && found.state == EffectIndeterminate) then s.(pc := Idle)
                else if state == RowReconciled && found.state == Pending then
                  AnsweredWith(s, AfterSettling(st, row, packet.id, effect.value, Reconciled, cfg.limits),
                               [Settled(effect.value, found.slug, None, Reconciled)], packet, row, evidence)
                else AnsweredWith(s, WithRow(st, row), [], packet, row, evidence)
  {
    hide Core, Build, RecordPacketReceipt, WellFormed, MayConclude, Unanswered, ReceiptIsNew, RowOf, NoActiveAttempt, HeadDigest;
    var packet, st := request.packet, s.store;
    var receipt := Build(cfg, packet, draft, HeadDigest(st.receipts)).value;
    BuildKeepsDraft(cfg, packet, draft, HeadDigest(st.receipts));
    RecordAcceptedIff(cfg, st, s.log, request, state, effect, receipt, now);
    RecordedIff(st, packet.id, state, receipt, effect, cfg.limits, now);
    RecordInsertsFirst(st, packet.id, state, receipt, effect, cfg.limits, now);
  }

  lemma RecordInsertsFirst(st: Store, id: string, state: RowState, receipt: Receipt, effect: Option<EffectKey>, limits: Limits, now: int)
    requires RowOf(st.receipts, id).None?
    ensures var recorded := RecordPacketReceipt(st, id, state, receipt, effect, limits, now);
            && (recorded.Ok? ==> recorded.value.1 == Inserted && (effect.Some? ==> effect.value in st.effects))
  {
  }

  /**
   A rejection is signed with the reason and the precondition it was decided for, as not attempted and not read
   back; it is stored and answered unless an attempt is active on its effect or the clock ran backwards.
   */
  lemma RejectionIsSigned(cfg: Config, s: System, now: int)
    requires ValidConfig(cfg) && Reachable(cfg, s) && s.pc.Rejecting?
    ensures s.pc.effect.Some? ==> s.pc.effect.value in s.store.effects
    ensures var packet, started := s.pc.request.packet, s.pc.request.started;
            var receipt := Signed(s.store, packet, s.pc.precondition, Mutation(NotAttempted, None, ""),
                                  Readback(ReadbackNotAttempted, None, None, None, []), Rejected, s.pc.reason, started, now);
            var row := ReceiptRow(packet.id, s.pc.effect, RowRejected, receipt);
            Next(cfg, s, Conclude(now)) ==
              if 1577836800 <= started <= now && (s.pc.effect.None? || s.store.effects[s.pc.effect.value].active.None?)
              then AnsweredWith(s.(clock := now), WithRow(s.store, row), [], packet, row, None)
              else s.(pc := Idle, clock := now)
  {
    hide Core, Reachable, Build, RecordStep, HeadDigest, NoActiveAttempt, OnSubmit, OnCommitRecovery, OnAdmit, OnBegin, OnFinish, OnObserveLive, WellFormed;
    EveryReachableState(cfg, s);
    var packet, started := s.pc.request.packet, s.pc.request.started;
    FitsAction(cfg, packet);
    RejectionReceipt(cfg, s.store, packet, started, now, s.pc.reason, s.pc.precondition);
    var draft := RejectionDraft(started, now, s.pc.reason, s.pc.precondition);
    if Build(cfg, packet, draft, HeadDigest(s.store.receipts)).Ok? {
      OutcomeIsRecorded(cfg, s.(clock := now), s.pc.request, RowRejected, s.pc.effect, draft, None, now);
    } else {
      NothingIsRecorded(cfg, s.(clock := now), packet, RowRejected, s.pc.effect, draft, None, now);
    }
  }

  lemma FitsAction(cfg: Config, packet: Packet)
    requires WellFormed(cfg, packet)
    ensures TargetsFitAction(packet)
  {
  }

  lemma NothingIsRecorded(cfg: Config, s: System, packet: Packet, state: RowState, effect: Option<EffectKey>,
                          draft: Draft, evidence: Option<Snapshot>, now: int)
    requires Build(cfg, packet, draft, HeadDigest(s.store.receipts)).Err?
    ensures RecordStep(cfg, s, packet, state, effect, draft, evidence, now) == s.(pc := Idle)
  {
  }

  /**
   A request whose state was already there is signed as succeeded without a call, with what was read; it
   settles its effect if that was pending, and is neither stored nor answered if the effect is
   indeterminate or an attempt on it is active.
   */
  lemma SatisfactionIsSigned(cfg: Config, s: System, now: int)
    requires ValidConfig(cfg) && Reachable(cfg, s) && s.pc.Satisfying?
    ensures TargetsFitAction(s.pc.request.packet) && EffectOf(s.pc.request.packet) in s.store.effects
            && s.pc.request.packet.id in s.store.packets
    ensures var packet, started, effect := s.pc.request.packet, s.pc.request.started, EffectOf(s.pc.request.packet);
            var receipt := Signed(s.store, packet, EvaluatedBefore(s.pc.evaluated.before), Mutation(AlreadySatisfied, None, ""),
                                  Readback(Confirmed, Some(now), Some(packet.pr.head), Some(s.pc.live.pr.isDraft), packet.threadIds),
                                  Succeeded, AlreadySatisfiedReason, started, now);
            var row := ReceiptRow(packet.id, Some(effect), RowReconciled, receipt);
            var found, read := s.store.effects[effect], s.(clock := now);
            Next(cfg, s, Conclude(now)) ==
              if !(1577836800 <= started <= now) || found.active.Some? || found.state == EffectIndeterminate then read.(pc := Idle)
              else if found.state == Pending then
                AnsweredWith(read, AfterSettling(s.store, row, packet.id, effect, Reconciled, cfg.limits),
                             [Settled(effect, found.slug, None, Reconciled)], packet, row, Some(s.pc.live))
              else AnsweredWith(read, WithRow(s.store, row), [], packet, row, Some(s.pc.live))
  {
    hide Core, Reachable, Build, RecordStep, HeadDigest, NoActiveAttempt, OnSubmit, OnCommitRecovery, OnAdmit, OnBegin, OnFinish, OnObserveLive, WellFormed, Evaluate;
    EveryReachableState(cfg, s);
    var packet, started := s.pc.request.packet, s.pc.request.started;
    FitsAction(cfg, packet);
    SatisfiedReceipt(cfg, s.store, packet, started, now, s.pc.evaluated, s.pc.live);
    var draft := SatisfiedDraft(packet, started, now, s.pc.evaluated, s.pc.live);
    var effect := Some(EffectOf(packet));
    if Build(cfg, packet, draft, HeadDigest(s.store.receipts)).Ok? {
      OutcomeIsRecorded(cfg, s.(clock := now), s.pc.request, RowReconciled, effect, draft, Some(s.pc.live), now);
    } else {
      NothingIsRecorded(cfg, s.(clock := now), packet, RowReconciled, effect, draft, Some(s.pc.live), now);
    }
  }

  // ----- outcomes of attempts ------------------------------------------------------------------

  /** The state after the outcome of an attempt is stored, before anything is said to a client. */
  function SettledWith(s: System, limits: Limits, effect: EffectKey, attempt: string, state: EffectState,
                       packet: Packet, row: ReceiptRow, evidence: Option<Snapshot>): System
    requires effect in s.store.effects && packet.id in s.store.packets
  {
    s.(store := AfterSettling(s.store, row, packet.id, effect, state, limits),
       log := s.log + [Settled(effect, s.store.effects[effect].slug, Some(attempt), state)] + [Recorded(row, packet, evidence)])
  }

  /** The store's part of the outcome of an active attempt. */
  lemma OutcomeSettles(cfg: Config, s: System, effect: EffectKey, packet: Packet, attempt: string, state: RowState,
                       draft: Draft, evidence: Option<Snapshot>, now: int)
    requires Core(cfg, s.store, s.log) && HoldsAttempt(s.store, effect, packet, attempt) && Decisive(state)
    requires Build(cfg, packet, draft, HeadDigest(s.store.receipts)).Ok? ==> packet.createdAt - 300 <= now
    ensures var built := Build(cfg, packet, draft, HeadDigest(s.store.receipts));
            TerminalizeStep(cfg, s, effect, packet, attempt, state, draft, evidence, now) ==
              if built.Err? then None
              else Some(SettledWith(s, cfg.limits, effect, attempt, EffectStateOf(state), packet,
                                    ReceiptRow(packet.id, Some(effect), state, built.value), evidence))
  {
    hide Core, Build, Terminalize, MayConclude, Unanswered, ReceiptIsNew, RowOf, HeadDigest;
    var built := Build(cfg, packet, draft, HeadDigest(s.store.receipts));
    if built.Ok? {
      BuildKeepsDraft(cfg, packet, draft, HeadDigest(s.store.receipts));
      ActiveAttemptCanTerminalize(cfg, s.store, s.log, effect, packet, attempt, state, built.value, now);
      TerminalizedIff(s.store, effect, packet.id, attempt, state, built.value, cfg.limits, now);
    }
  }

  /**
   A verified mutation is signed as applied under its attempt key, with the time of the call and what was read
   back; a doubtful one as indeterminate, for exactly its doubt and with nothing read back.  Unless the clock
   ran backwards the receipt is stored, the effect settled and the client answered.
   */
  lemma ExecutionIsSigned(cfg: Config, s: System, now: int)
    requires ValidConfig(cfg) && Reachable(cfg, s) && s.pc.Finishing?
    ensures TargetsFitAction(s.pc.request.packet) && EffectOf(s.pc.request.packet) in s.store.effects
            && s.pc.request.packet.id in s.store.packets
    ensures var packet, started, effect := s.pc.request.packet, s.pc.request.started, EffectOf(s.pc.request.packet);
            var before := EvaluatedBefore(s.pc.evaluated.before);
            var receipt :=
              match s.pc.execution
              case Verified(after) =>
                Signed(s.store, packet, before, Mutation(Applied, Some(s.pc.attemptedAt), s.pc.attempt),
                       Readback(Confirmed, Some(now), Some(packet.pr.head), Some(after.pr.isDraft), packet.threadIds),
                       Succeeded, ReadbackVerified, started, now)
              case Doubtful(doubt) =>
                Signed(s.store, packet, before, Mutation(IndeterminateMutation, Some(s.pc.attemptedAt), s.pc.attempt),
                       Readback(ReadbackIndeterminate, Some(now), None, None, []),
                       Indeterminate, IndeterminateExecution(doubt), started, now);
            var state, settled, evidence :=
              if s.pc.execution.Verified? then RowCompleted else RowIndeterminate,
              if s.pc.execution.Verified? then Completed else EffectIndeterminate,
              if s.pc.execution.Verified? then Some(s.pc.execution.after) else None;
            var row := ReceiptRow(packet.id, Some(effect), state, receipt);
            var read := s.(pc := Idle, clock := now);
            Next(cfg, s, Conclude(now)) ==
              if 1577836800 <= started <= s.pc.attemptedAt <= now then
                var done := SettledWith(read, cfg.limits, effect, s.pc.attempt, settled, packet, row, evidence);
                done.(log := done.log + [Replied(packet.id, receipt)])
              else read
  {
    hide LogOk, PhasesMatch, CircuitsMatch, StoreOk, Reachable, Build, OnFinish, TerminalizeStep, HeadDigest, OnSubmit, OnCommitRecovery, OnAdmit, OnBegin, OnObserveLive, WellFormed, Evaluate;
    EveryReachableState(cfg, s);
    var packet, started := s.pc.request.packet, s.pc.request.started;
    FitsAction(cfg, packet);
    HeldAttempt(cfg, s.store, s.pc.request, s.pc.evaluated, s.pc.attempt, s.pc.attemptedAt);
    match s.pc.execution {
      case Verified(after) =>
        AppliedReceipt(cfg, s.store, packet, started, s.pc.attemptedAt, now, s.pc.attempt, s.pc.evaluated, after);
        ExecutionSettles(cfg, s, RowCompleted, Some(after), now);
      case Doubtful(doubt) =>
        IndeterminateReceipt(cfg, s.store, packet, started, s.pc.attemptedAt, now, s.pc.attempt,
                             EvaluatedBefore(s.pc.evaluated.before), IndeterminateExecution(doubt), None);
        ExecutionSettles(cfg, s, RowIndeterminate, None, now);
    }
  }

  /** A request in flight holds the active attempt of its effect, and its packet was acceptable when it started. */
  lemma HeldAttempt(cfg: Config, st: Store, request: Request, evaluated: Evaluated, attempt: string, attemptedAt: int)
    requires ValidConfig(cfg) && StoreOk(cfg.limits, st) && RequestCharged(cfg, st, request, evaluated, attempt, attemptedAt)
    ensures HoldsAttempt(st, EffectOf(request.packet), request.packet, attempt) && attempt != ""
    ensures request.packet.createdAt - cfg.maximumClockSkew <= request.started < request.packet.expiresAt && cfg.maximumClockSkew <= 300
  {
    assert EffectOk(st, EffectOf(request.packet));
  }

  lemma ExecutionSettles(cfg: Config, s: System, state: RowState, evidence: Option<Snapshot>, now: int)
    requires ValidConfig(cfg) && Core(cfg, s.store, s.log) && s.pc.Finishing? && TargetsFitAction(s.pc.request.packet)
    requires HoldsAttempt(s.store, EffectOf(s.pc.request.packet), s.pc.request.packet, s.pc.attempt)
    requires state == (if s.pc.execution.Verified? then RowCompleted else RowIndeterminate)
    requires evidence == (if s.pc.execution.Verified? then Some(s.pc.execution.after) else None)
    requires var built := Build(cfg, s.pc.request.packet, FinishDraft(s.pc.request.packet, s.pc, now), HeadDigest(s.store.receipts));
             built.Ok? ==> s.pc.request.packet.createdAt - 300 <= now
    ensures var packet, effect := s.pc.request.packet, EffectOf(s.pc.request.packet);
            var built := Build(cfg, packet, FinishDraft(packet, s.pc, now), HeadDigest(s.store.receipts));
            var read := s.(pc := Idle, clock := now);
            OnFinish(cfg, s.(clock := now), now) ==
              if built.Err? then read
              else
                var row := ReceiptRow(packet.id, Some(effect), state, built.value);
                var done := SettledWith(read, cfg.limits, effect, s.pc.attempt, EffectStateOf(state), packet, row, evidence);
                done.(log := done.log + [Replied(packet.id, built.value)])
  {
    hide Core, Build, TerminalizeStep, HeadDigest, FinishDraft, RowOf;
    var packet, effect := s.pc.request.packet, EffectOf(s.pc.request.packet);
    var draft := FinishDraft(packet, s.pc, now);
    OutcomeSettles(cfg, s.(clock := now), effect, packet, s.pc.attempt, state, draft, evidence, now);
    var built := Build(cfg, packet, draft, HeadDigest(s.store.receipts));
    if built.Ok? {
      RowAppended(s.store.receipts, ReceiptRow(packet.id, Some(effect), state, built.value));
    }
  }

  // ----- outcomes of recovery ------------------------------------------------------------------

  /** The pass goes on to the rest of its queue. */
  function GoesOn(s: System, now: int): System
    requires s.pc.Decided? && s.pc.queue != []
  {
    s.(clock := now, pc := Recovering(s.pc.request, s.pc.queue[1..]))
  }

  /** The attempt was started while its packet was acceptable, and the clock has not run backwards since. */
  predicate StartedInTime(cfg: Config, packet: Packet, startedAt: int, now: int) {
    packet.createdAt - cfg.maximumClockSkew <= startedAt < packet.expiresAt && 1577836800 <= startedAt <= now
  }

  lemma DecidedRow(cfg: Config, s: System)
    requires ValidConfig(cfg) && Inv(cfg, s) && s.pc.Decided?
    ensures s.pc.queue != [] && s.pc.queue[0].packetId in s.store.packets
    ensures var row, packet := s.pc.queue[0], s.store.packets[s.pc.queue[0].packetId];
            && packet.id == row.packetId && WellFormed(cfg, packet) && HoldsAttempt(s.store, row.effect, packet, row.attempt)
            && row.attempt != ""
            && s.store.effects[row.effect] == Effect(s.store.effects[row.effect].slug, Pending,
                 Some(Attempt(row.attempt, row.packetId, row.precondition, row.startedAt)), row.attempts, s.store.effects[row.effect].absence)
            && packet.pr.head == row.head
            && DecisionOk(cfg, packet, row, s.pc.request.packet.id, s.pc.decision)
  {
    hide LogOk, PhasesMatch, CircuitsMatch, ReceiptLog, RowsBound, ChargesAccounted, BudgetLedger, Evaluate, WellFormed, DecisionOk, Covers;
    assert ListsAttempt(s.store, s.pc.queue[0]);
    assert EffectOk(s.store, s.pc.queue[0].effect);
  }

  /**
   A recovered success is signed as reconciled, a doubtful recovery as indeterminate for exactly its reason and
   with whatever was read, both under the recovered attempt's own key, precondition and starting time.  The
   receipt is stored and the effect settled exactly if the attempt was started in time; no reply is sent.
   */
  lemma RecoveryIsSigned(cfg: Config, s: System, now: int)
    requires ValidConfig(cfg) && Reachable(cfg, s) && s.pc.Decided? && (s.pc.decision.Confirm? || s.pc.decision.Unsure?)
    ensures s.pc.queue != [] && s.pc.queue[0].packetId in s.store.packets && s.pc.queue[0].effect in s.store.effects
            && s.store.packets[s.pc.queue[0].packetId].id == s.pc.queue[0].packetId
    ensures var pending := s.pc.queue[0];
            var packet := s.store.packets[pending.packetId];
            var receipt :=
              match s.pc.decision
              case Unsure(reason, readback) =>
                Signed(s.store, packet, pending.precondition, Mutation(IndeterminateMutation, Some(pending.startedAt), pending.attempt),
                       Unconfirmed(packet, now, readback), Indeterminate, IndeterminateRecovery(reason), pending.startedAt, now)
              case _ =>
                Signed(s.store, packet, pending.precondition, Mutation(ReconciledMutation, Some(pending.startedAt), pending.attempt),
                       Readback(Confirmed, Some(now), Some(packet.pr.head), Some(s.pc.decision.live.pr.isDraft), packet.threadIds),
                       Succeeded, ReconciledReadbackVerified, pending.startedAt, now);
            var state, settled, evidence :=
              if s.pc.decision.Confirm? then RowReconciled else RowIndeterminate,
              if s.pc.decision.Confirm? then Reconciled else EffectIndeterminate,
              if s.pc.decision.Confirm? then Some(s.pc.decision.live) else s.pc.decision.readback;
            Next(cfg, s, CommitRecovery(now)) ==
              if StartedInTime(cfg, packet, pending.startedAt, now) && (evidence.Some? ==> IsOid(LowerHex(evidence.value.pr.head)))
              then SettledWith(GoesOn(s, now), cfg.limits, pending.effect, pending.attempt, settled, packet,
                               ReceiptRow(packet.id, Some(pending.effect), state, receipt), evidence)
              else s.(pc := Idle, clock := now)
  {
    hide Core, Reachable, Build, TerminalizeStep, HeadDigest, OnSubmit, OnAdmit, OnBegin, OnObserveLive, OnConclude, WellFormed, Evaluate,
         Covers, LowerHex, IsOid, AfterSettling;
    EveryReachableState(cfg, s);
    DecidedRow(cfg, s);
    var pending := s.pc.queue[0];
    var packet := s.store.packets[pending.packetId];
    HeadIsOid(cfg, packet);
    LowerHexFixesOid(packet.pr.head);
    match s.pc.decision {
      case Confirm(live) =>
        RecoveredReceipt(cfg, s.store, packet, pending.startedAt, now, pending.attempt, pending.precondition, live);
        AcceptedHead(cfg, packet, live);
        RecoverySettles(cfg, s, RowReconciled, Some(live), now);
      case Unsure(reason, readback) =>
        IndeterminateReceipt(cfg, s.store, packet, pending.startedAt, pending.startedAt, now, pending.attempt,
                             pending.precondition, IndeterminateRecovery(reason), readback);
        RecoverySettles(cfg, s, RowIndeterminate, readback, now);
    }
  }

  lemma AcceptedHead(cfg: Config, packet: Packet, live: Snapshot)
    requires AcceptedAsSatisfied(cfg, packet, live)
    ensures live.pr.head == packet.pr.head
  {
    SatisfiedReadback(cfg, packet, live);
  }

  lemma RecoverySettles(cfg: Config, s: System, state: RowState, evidence: Option<Snapshot>, now: int)
    requires ValidConfig(cfg) && Inv(cfg, s) && s.pc.Decided? && (s.pc.decision.Confirm? || s.pc.decision.Unsure?)
    requires state == (if s.pc.decision.Confirm? then RowReconciled else RowIndeterminate)
    requires evidence == (if s.pc.decision.Confirm? then Some(s.pc.decision.live) else s.pc.decision.readback)
    requires s.pc.queue != [] && s.pc.queue[0].packetId in s.store.packets
    requires var packet := s.store.packets[s.pc.queue[0].packetId];
             var built := Build(cfg, packet, RecoveryDraft(packet, s.pc.queue[0], s.pc.decision, now), HeadDigest(s.store.receipts));
             built.Ok? ==> packet.createdAt - 300 <= now
    ensures var pending := s.pc.queue[0];
            var packet := s.store.packets[pending.packetId];
            var built := Build(cfg, packet, RecoveryDraft(packet, pending, s.pc.decision, now), HeadDigest(s.store.receipts));
            && packet.id == pending.packetId && pending.effect in s.store.effects
            && OnCommitRecovery(cfg, s, now) ==
              if built.Err? then s.(pc := Idle, clock := now)
              else SettledWith(GoesOn(s, now), cfg.limits, pending.effect, pending.attempt, EffectStateOf(state), packet,
                               ReceiptRow(packet.id, Some(pending.effect), state, built.value), evidence)
  {
    hide Core, Build, TerminalizeStep, HeadDigest, RecoveryDraft, RowOf, AfterSettling, WellFormed, Covers, DecisionOk;
    DecidedRow(cfg, s);
    var pending := s.pc.queue[0];
    var packet := s.store.packets[pending.packetId];
    var draft := RecoveryDraft(packet, pending, s.pc.decision, now);
    OutcomeSettles(cfg, s.(clock := now), pending.effect, packet, pending.attempt, state, draft, evidence, now);
  }

  /** An absence is kept with the attempt, packet, head and precondition it was about, and the effect may be started once more. */
  lemma AbsenceIsKept(cfg: Config, s: System, now: int)
    requires ValidConfig(cfg) && Reachable(cfg, s) && s.pc.Decided? && s.pc.decision.Absent?
    ensures s.pc.queue != [] && s.pc.queue[0].packetId in s.store.packets && s.pc.queue[0].effect in s.store.effects
    ensures var pending, next := s.pc.queue[0], GoesOn(s, now);
            var found, packet := s.store.effects[pending.effect], s.store.packets[pending.packetId];
            Next(cfg, s, CommitRecovery(now)) == next.(
              store := s.store.(effects := s.store.effects[pending.effect :=
                Effect(found.slug, Pending, None, pending.attempts,
                       Some(Absence(pending.attempt, pending.packetId, packet.pr.head, pending.precondition, now)))]),
              log := s.log + [FoundAbsent(pending.effect, pending.packetId, pending.attempt, packet, s.pc.decision.live)])
  {
    hide Core, Reachable, ReconcileAbsent, OnSubmit, OnAdmit, OnBegin, OnObserveLive, OnConclude, TerminalizeStep, WellFormed, Evaluate, Covers;
    EveryReachableState(cfg, s);
    DecidedRow(cfg, s);
    var pending := s.pc.queue[0];
    ClearedIff(s.store, pending.effect, pending.packetId, pending.attempt, pending.head, now);
  }

  /** An attempt of another packet that may still be retried is left as it is. */
  lemma OthersAreLeft(cfg: Config, s: System, now: int)
    requires ValidConfig(cfg) && Reachable(cfg, s) && s.pc.Decided? && s.pc.decision.Leave?
    ensures s.pc.queue != [] && Next(cfg, s, CommitRecovery(now)) == GoesOn(s, now)
  {
    hide Core, Reachable, ReconcileAbsent, OnSubmit, OnAdmit, OnBegin, OnObserveLive, OnConclude, TerminalizeStep, WellFormed, Evaluate, Covers;
    EveryReachableState(cfg, s);
    DecidedRow(cfg, s);
  }
}
