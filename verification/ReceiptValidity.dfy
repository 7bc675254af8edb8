/**
 On a clock that never runs backwards, and live heads that are object ids, every receipt the
 service assembles is acceptable and every outcome it may record is recorded, including recovery
 outcomes written after the packet expired.
 */
module ReceiptValidity {
  import opened Outcomes
  import opened Packets
  import opened Actions
  import opened Receipts
  import opened StoreState
  import opened StoreInvariants
  import opened Lifecycle
  import opened BrokerInvariant
  import opened BrokerSafety
  import opened StoreEvolution

  /** The readings and observations a step takes from outside. */
  function ReadingOf(input: Input): Option<int> {
    match input
    case Submit(_, now) => Some(now)
    case ObserveRecovery(_, now) => Some(now)
    case CommitRecovery(now) => Some(now)
    case Begin(_, now) => Some(now)
    case Conclude(now) => Some(now)
    case _ => None
  }

  function SnapshotOf(input: Input): Option<Snapshot> {
    match input
    case ObserveRecovery(Seen(live), _) => Some(live)
    case ObserveLive(Seen(live)) => Some(live)
    case _ => None
  }

  predicate HeadWellFormed(live: Snapshot) {
    IsOid(LowerHex(live.pr.head))
  }

  /** The clock does not run backwards and never predates receipts; live heads are object ids. */
  predicate WellTimed(s: System, input: Input) {
    && (ReadingOf(input).Some? ==> ReadingOf(input).value >= s.clock && InRange(ReadingOf(input).value))
    && (SnapshotOf(input).Some? ==> HeadWellFormed(SnapshotOf(input).value))
  }

  predicate WellTimedRun(run: Run)
    requires |run.states| == |run.inputs| + 1
  {
    forall i {:trigger run.inputs[i]} | 0 <= i < |run.inputs| :: WellTimed(run.states[i], run.inputs[i])
  }

  /** A state that some well-timed run ends in. */
  ghost predicate ReachableInTime(cfg: Config, s: System) {
    exists run :: IsRun(cfg, run) && WellTimedRun(run) && run.states[|run.inputs|] == s
  }

  lemma RunStartsInTime(cfg: Config)
    ensures ReachableInTime(cfg, INITIAL)
  {
    var run := Run([], [INITIAL]);
    assert IsRun(cfg, run) && WellTimedRun(run) && run.states[|run.inputs|] == INITIAL;
  }

  lemma RunGoesOnInTime(cfg: Config, s: System, input: Input)
    requires ReachableInTime(cfg, s) && WellTimed(s, input)
    ensures ReachableInTime(cfg, Next(cfg, s, input))
  {
    hide Next, WellTimed;
    var run :| IsRun(cfg, run) && WellTimedRun(run) && run.states[|run.inputs|] == s;
    var longer := Run(run.inputs + [input], run.states + [Next(cfg, s, input)]);
    forall i | 0 <= i < |longer.inputs|
      ensures longer.states[i + 1] == Next(cfg, longer.states[i], longer.inputs[i]) && WellTimed(longer.states[i], longer.inputs[i])
    {
      if i < |run.inputs| {
        assert longer.inputs[i] == run.inputs[i];
      }
    }
    assert longer.states[|longer.inputs|] == Next(cfg, s, input);
  }

  // ----- times in reachable states -------------------------------------------------------------

  /** An attempt was started at an acceptable moment of its packet, not later than now. */
  predicate AttemptTimed(cfg: Config, s: System, attempt: Attempt) {
    && InRange(attempt.startedAt) && attempt.startedAt <= s.clock
    && attempt.packetId in s.store.packets && Accepted(cfg, s.store.packets[attempt.packetId], attempt.startedAt)
  }

  ghost predicate AttemptsTimed(cfg: Config, s: System) {
    forall effect :: RowAt(s.store, effect).active.Some? ==> AttemptTimed(cfg, s, RowAt(s.store, effect).active.value)
  }

  predicate RequestTimed(s: System, request: Request) {
    InRange(request.started) && request.started <= s.clock
  }

  predicate DecisionTimed(decision: Decision) {
    match decision
    case Unsure(_, readback) => readback.Some? ==> HeadWellFormed(readback.value)
    case _ => true
  }

  predicate PcTimed(s: System) {
    match s.pc
    case Idle => true
    case Decided(request, _, decision) => RequestTimed(s, request) && DecisionTimed(decision)
    case Charging(request, _, _, attemptedAt) => RequestTimed(s, request) && request.started <= attemptedAt <= s.clock
    case Calling(request, _, _, attemptedAt) => RequestTimed(s, request) && request.started <= attemptedAt <= s.clock
    case Finishing(request, _, _, attemptedAt, _) => RequestTimed(s, request) && request.started <= attemptedAt <= s.clock
    case _ => RequestTimed(s, s.pc.request)
  }

  ghost predicate Timed(cfg: Config, s: System) {
    AttemptsTimed(cfg, s) && PcTimed(s)
  }

  // ----- assembled receipts are acceptable -----------------------------------------------------

  lemma RejectionBuilds(cfg: Config, packet: Packet, startedAt: int, completedAt: int, reason: Reason,
                        precondition: Precondition, previous: Digest)
    requires Accepted(cfg, packet, startedAt) && InRange(startedAt) && startedAt <= completedAt && RejectionReason(reason)
    ensures Build(cfg, packet, RejectionDraft(startedAt, completedAt, reason, precondition), previous).Ok?
  {
  }

  lemma SatisfiedBuilds(cfg: Config, packet: Packet, startedAt: int, completedAt: int, evaluated: Evaluated,
                        live: Snapshot, previous: Digest)
    requires Accepted(cfg, packet, startedAt) && InRange(startedAt) && startedAt <= completedAt
    requires AcceptedAsSatisfied(cfg, packet, live)
    ensures Build(cfg, packet, SatisfiedDraft(packet, startedAt, completedAt, evaluated, live), previous).Ok?
  {
    SatisfiedReadback(cfg, packet, live);
    LowerHexFixesOid(live.pr.head);
  }

  lemma IndeterminateBuilds(cfg: Config, packet: Packet, startedAt: int, attemptedAt: int, completedAt: int,
                            attempt: string, precondition: Precondition, reason: Reason, readback: Option<Snapshot>,
                            previous: Digest)
    requires Accepted(cfg, packet, startedAt) && InRange(startedAt) && startedAt <= attemptedAt <= completedAt
    requires reason.IndeterminateExecution? || reason.IndeterminateRecovery?
    requires readback.Some? ==> HeadWellFormed(readback.value)
    ensures Build(cfg, packet,
                  IndeterminateDraft(packet, startedAt, attemptedAt, completedAt, attempt, precondition, reason, readback),
                  previous).Ok?
  {
  }

  lemma RecoveredBuilds(cfg: Config, packet: Packet, attemptedAt: int, completedAt: int, attempt: string,
                        precondition: Precondition, live: Snapshot, previous: Digest)
    requires Accepted(cfg, packet, attemptedAt) && InRange(attemptedAt) && attemptedAt <= completedAt && attempt != ""
    requires AcceptedAsSatisfied(cfg, packet, live)
    ensures Build(cfg, packet, RecoveredDraft(packet, attemptedAt, completedAt, attempt, precondition, live), previous).Ok?
  {
    SatisfiedReadback(cfg, packet, live);
    LowerHexFixesOid(live.pr.head);
  }

  lemma AppliedBuilds(cfg: Config, packet: Packet, startedAt: int, attemptedAt: int, completedAt: int, attempt: string,
                      evaluated: Evaluated, after: Snapshot, previous: Digest)
    requires Accepted(cfg, packet, startedAt) && InRange(startedAt) && startedAt <= attemptedAt <= completedAt && attempt != ""
    requires ConfirmedReadback(packet, after) && EvaluatedFits(packet, evaluated)
    ensures Build(cfg, packet, AppliedDraft(startedAt, attemptedAt, completedAt, attempt, evaluated, after), previous).Ok?
  {
    LowerHexFixesOid(after.pr.head);
  }

  // ----- the times are kept by every well-timed step -------------------------------------------

  /** Attempts that only stay or go keep their times while the clock advances. */
  lemma AttemptsStayTimed(cfg: Config, s: System, after: System)
    requires AttemptsTimed(cfg, s) && s.clock <= after.clock && Evolves(s.store, after.store)
    ensures AttemptsTimed(cfg, after)
  {
  }

  lemma BeginTimed(cfg: Config, s: System, attempt: string, now: int)
    requires Inv(cfg, s) && Timed(cfg, s) && s.clock <= now && InRange(now) && s.pc.Ready?
    ensures Timed(cfg, OnBegin(cfg, s, attempt, now))
  {
    var packet := s.pc.request.packet;
    var precondition := EvaluatedBefore(s.pc.evaluated.before);
    BeginExtends(s.store, EffectOf(packet), packet.id, attempt, precondition, cfg.limits, now);
    BeginStartsOwn(s.store, EffectOf(packet), packet.id, attempt, precondition, cfg.limits, now);
    OpenRequestStarts(cfg, s.store, s.log, s.pc.request, attempt, precondition, now);
    BegunTimed(cfg, s, BeginMutation(s.store, EffectOf(packet), packet.id, attempt, precondition, cfg.limits, now), attempt, now);
  }

  lemma BegunTimed(cfg: Config, s: System, result: Result<(Store, Start), StoreError>, attempt: string, now: int)
    requires Timed(cfg, s) && s.pc.Ready? && RequestOpen(cfg, s.store, s.pc.request)
    requires s.clock <= now && InRange(now)
    requires result.Ok? ==>
               && Extends(s.store, result.value.0)
               && forall other :: RowAt(result.value.0, other).active == RowAt(s.store, other).active
                                  || (&& RowAt(result.value.0, other).active.Some?
                                      && RowAt(result.value.0, other).active.value.packetId == s.pc.request.packet.id
                                      && RowAt(result.value.0, other).active.value.startedAt == now
                                      && now < s.pc.request.packet.expiresAt)
    ensures Timed(cfg, OnBegun(s.(clock := now), result, attempt, now))
  {
    var after := OnBegun(s.(clock := now), result, attempt, now);
    assert after.store == s.store || (result.Ok? && after.store == result.value.0);
    forall effect | RowAt(after.store, effect).active.Some?
      ensures AttemptTimed(cfg, after, RowAt(after.store, effect).active.value)
    {
      if RowAt(after.store, effect).active == RowAt(s.store, effect).active {
        assert AttemptTimed(cfg, s, RowAt(s.store, effect).active.value);
      }
    }
  }

  /** Steps that touch no table only advance the clock. */
  lemma QuietStepTimed(cfg: Config, s: System, after: System)
    requires Timed(cfg, s) && s.clock <= after.clock && after.store.packets == s.store.packets
    requires after.store.effects == s.store.effects && after.store.receipts == s.store.receipts && PcTimed(after)
    ensures Timed(cfg, after)
  {
    AttemptsStayTimed(cfg, s, after);
  }

  lemma ObserveRecoveryTimed(cfg: Config, s: System, fetch: Fetch, now: int)
    requires Inv(cfg, s) && Timed(cfg, s) && s.pc.Recovering? && s.pc.queue != [] && s.clock <= now
    requires fetch.Seen? ==> HeadWellFormed(fetch.snapshot)
    ensures Timed(cfg, OnObserveRecovery(cfg, s, fetch, now))
  {
    hide LogOk, PhasesMatch, CircuitsMatch, StoreOk, Evaluate;
    QuietStepTimed(cfg, s, OnObserveRecovery(cfg, s, fetch, now));
  }

  lemma SubmitTimed(cfg: Config, s: System, packet: Packet, now: int)
    requires Timed(cfg, s) && s.pc.Idle? && s.clock <= now && InRange(now)
    ensures Timed(cfg, OnSubmit(cfg, s, packet, now))
  {
  }

  lemma ObserveLiveTimed(cfg: Config, s: System, fetch: Fetch)
    requires Timed(cfg, s) && s.pc.Admitted? && TargetsFitAction(s.pc.request.packet)
    ensures Timed(cfg, OnObserveLive(cfg, s, fetch))
  {
  }

  lemma StepTimed(cfg: Config, s: System, input: Input)
    requires Inv(cfg, s) && Timed(cfg, s) && WellTimed(s, input)
    ensures Timed(cfg, Next(cfg, s, input))
  {
    hide Core, OnConclude, OnCommitRecovery, OnAdmit, OnBegin, OnObserveRecovery, OnObserveLive, OnSubmit,
         AttemptsTimed, Evaluate, Track, LoggedCharges, JudgeExecution;
    var after := Next(cfg, s, input);
    match input {
      case CommitRecovery(now) =>
        if s.pc.Decided? && s.pc.queue != [] {
          CommitRecoveryEvolves(cfg, s, now);
          AttemptsStayTimed(cfg, s, after);
        }
      case Admit =>
        if s.pc.Recovering? && s.pc.queue == [] {
          AdmitEvolves(cfg, s);
          AttemptsStayTimed(cfg, s, after);
        }
      case Begin(attempt, now) => if s.pc.Ready? { BeginTimed(cfg, s, attempt, now); }
      case Conclude(now) =>
        if s.pc.Rejecting? || s.pc.Satisfying? || s.pc.Finishing? {
          ConcludeEvolves(cfg, s, now);
          AttemptsStayTimed(cfg, s, after);
        }
      case ObserveRecovery(fetch, now) =>
        if s.pc.Recovering? && s.pc.queue != [] { ObserveRecoveryTimed(cfg, s, fetch, now); }
      case ObserveLive(fetch) =>
        if s.pc.Admitted? && TargetsFitAction(s.pc.request.packet) { ObserveLiveTimed(cfg, s, fetch); }
      case Submit(packet, now) => if s.pc.Idle? { SubmitTimed(cfg, s, packet, now); }
      case _ => QuietStepTimed(cfg, s, after);
    }
  }

  lemma {:induction false} WellTimedRunsAreTimed(cfg: Config, run: Run, n: nat)
    requires ValidConfig(cfg) && IsRun(cfg, run) && WellTimedRun(run) && n <= |run.inputs|
    ensures Inv(cfg, run.states[n]) && Timed(cfg, run.states[n])
  {
    hide Inv, Next, Exec;
    RunIsExec(cfg, run, n);
    EveryRun(cfg, run.inputs[..n]);
    if n == 0 {
      assert forall effect :: RowAt(INITIAL.store, effect).active.None?;
    } else {
      WellTimedRunsAreTimed(cfg, run, n - 1);
      assert WellTimed(run.states[n - 1], run.inputs[n - 1]);
      StepTimed(cfg, run.states[n - 1], run.inputs[n - 1]);
    }
  }

  lemma StatesInTimeAreTimed(cfg: Config, s: System)
    requires ValidConfig(cfg) && ReachableInTime(cfg, s)
    ensures Inv(cfg, s) && Timed(cfg, s)
  {
    hide Inv, Timed, Next;
    var run :| IsRun(cfg, run) && WellTimedRun(run) && run.states[|run.inputs|] == s;
    WellTimedRunsAreTimed(cfg, run, |run.inputs|);
  }

  // ----- outcomes ------------------------------------------------------------------------------

  /** A recovery outcome is always recorded: committing a decision never aborts the pass, expired packets included. */
  lemma RecoveryAlwaysAdvances(cfg: Config, s: System, now: int)
    requires ValidConfig(cfg) && ReachableInTime(cfg, s)
    requires s.pc.Decided? && now >= s.clock && InRange(now)
    ensures s.pc.queue != [] && Next(cfg, s, CommitRecovery(now)).pc == Recovering(s.pc.request, s.pc.queue[1..])
  {
    hide Inv, Timed, ReachableInTime;
    StatesInTimeAreTimed(cfg, s);
    RecoveryAdvances(cfg, s, now);
  }

  lemma RecoveryAdvances(cfg: Config, s: System, now: int)
    requires ValidConfig(cfg) && Inv(cfg, s) && Timed(cfg, s) && s.pc.Decided? && now >= s.clock && InRange(now)
    ensures Next(cfg, s, CommitRecovery(now)).pc == Recovering(s.pc.request, s.pc.queue[1..])
  {
    hide LogOk, PhasesMatch, CircuitsMatch, ReceiptLog, RowsBound, ChargesAccounted, BudgetLedger, Build, Terminalize, Evaluate;
    var row := s.pc.queue[0];
    var packet := s.store.packets[row.packetId];
    var previous := HeadDigest(s.store.receipts);
    assert ListsAttempt(s.store, row);
    assert EffectOk(s.store, row.effect);
    assert AttemptTimed(cfg, s, RowAt(s.store, row.effect).active.value);
    assert packet.id == row.packetId;
    match s.pc.decision {
      case Leave =>
      case Absent(_) =>
      case Unsure(reason, readback) =>
        var draft := RecoveryDraft(packet, row, s.pc.decision, now);
        IndeterminateBuilds(cfg, packet, row.startedAt, row.startedAt, now, row.attempt, row.precondition,
                            IndeterminateRecovery(reason), readback, previous);
        BuildKeepsDraft(cfg, packet, draft, previous);
        ActiveAttemptCanTerminalize(cfg, s.store, s.log, row.effect, packet, row.attempt, RowIndeterminate,
                                    Build(cfg, packet, draft, previous).value, now);
      case Confirm(live) =>
        var draft := RecoveryDraft(packet, row, s.pc.decision, now);
        RecoveredBuilds(cfg, packet, row.startedAt, now, row.attempt, row.precondition, live, previous);
        BuildKeepsDraft(cfg, packet, draft, previous);
        ActiveAttemptCanTerminalize(cfg, s.store, s.log, row.effect, packet, row.attempt, RowReconciled,
                                    Build(cfg, packet, draft, previous).value, now);
    }
  }

  /** The step answered the client: it is idle again and its last event is the reply. */
  predicate Answered(s: System, after: System, packetId: string) {
    after.pc == Idle && |after.log| > |s.log| && after.log[|after.log| - 1].Replied?
    && after.log[|after.log| - 1].packetId == packetId
  }

  /** After a call, the outcome is always recorded and answered. */
  lemma FinishAlwaysAnswers(cfg: Config, s: System, now: int)
    requires ValidConfig(cfg) && ReachableInTime(cfg, s)
    requires s.pc.Finishing? && now >= s.clock && InRange(now)
    ensures Answered(s, Next(cfg, s, Conclude(now)), s.pc.request.packet.id)
  {
    hide Inv, Timed, ReachableInTime;
    StatesInTimeAreTimed(cfg, s);
    FinishAnswers(cfg, s, now);
  }

  /** A well-formed receipt for a held attempt is stored, and found again under its packet. */
  lemma TerminalizeStepSucceeds(cfg: Config, s: System, effect: EffectKey, packet: Packet, attempt: string, state: RowState,
                                draft: Draft, evidence: Option<Snapshot>, now: int)
    requires Core(cfg, s.store, s.log) && Decisive(state) && HoldsAttempt(s.store, effect, packet, attempt)
    requires Build(cfg, packet, draft, HeadDigest(s.store.receipts)).Ok?
    requires packet.createdAt <= now + MAX_CLOCK_SKEW_SECONDS
    ensures var step := TerminalizeStep(cfg, s, effect, packet, attempt, state, draft, evidence, now);
            && step.Some?
            && RowOf(step.value.store.receipts, packet.id).Some?
            && step.value.store.packets == s.store.packets
            && |step.value.log| > |s.log|
  {
    var receipt := Build(cfg, packet, draft, HeadDigest(s.store.receipts)).value;
    BuildKeepsDraft(cfg, packet, draft, HeadDigest(s.store.receipts));
    ActiveAttemptCanTerminalize(cfg, s.store, s.log, effect, packet, attempt, state, receipt, now);
    TerminalizeInserts(s.store, effect, packet.id, attempt, state, receipt, cfg.limits, now);
  }

  lemma TerminalizeInserts(st: Store, effect: EffectKey, id: string, attempt: string, state: RowState, receipt: Receipt,
                           limits: Limits, now: int)
    requires Terminalize(st, effect, id, attempt, state, receipt, limits, now).Ok?
    requires Terminalize(st, effect, id, attempt, state, receipt, limits, now).value.1 == Inserted
    ensures var after := Terminalize(st, effect, id, attempt, state, receipt, limits, now).value.0;
            RowOf(after.receipts, id).Some? && after.packets == st.packets
  {
  }

  lemma FinishAnswers(cfg: Config, s: System, now: int)
    requires ValidConfig(cfg) && Inv(cfg, s) && Timed(cfg, s) && s.pc.Finishing? && now >= s.clock && InRange(now)
    ensures Answered(s, Next(cfg, s, Conclude(now)), s.pc.request.packet.id)
  {
    hide LogOk, PhasesMatch, CircuitsMatch, ReceiptLog, RowsBound, ChargesAccounted, BudgetLedger, Build, TerminalizeStep,
         LoggedRows, LoggedCharges, LedgerCharges, VerifiedTargets, ResolvedTargets, Track, RecordStep, OnCommitRecovery, OnAdmit,
         OnBegin, OnSubmit, OnObserveLive, Evaluate, AttemptsTimed;
    var packet := s.pc.request.packet;
    var pc := s.pc;
    var previous := HeadDigest(s.store.receipts);
    assert EffectOk(s.store, EffectOf(packet));
    var draft := FinishDraft(packet, pc, now);
    match pc.execution {
      case Verified(after) =>
        AppliedBuilds(cfg, packet, pc.request.started, pc.attemptedAt, now, pc.attempt, pc.evaluated, after, previous);
      case Doubtful(doubt) =>
        IndeterminateBuilds(cfg, packet, pc.request.started, pc.attemptedAt, now, pc.attempt,
                            EvaluatedBefore(pc.evaluated.before), IndeterminateExecution(doubt), None, previous);
    }
    var state := if pc.execution.Verified? then RowCompleted else RowIndeterminate;
    var evidence := if pc.execution.Verified? then Some(pc.execution.after) else None;
    TerminalizeStepSucceeds(cfg, s.(clock := now), EffectOf(packet), packet, pc.attempt, state, draft, evidence, now);
  }

  /** Recording a signed packet outcome answers the client exactly when the store accepts it. */
  lemma RecordStepAnswersIff(cfg: Config, s: System, packet: Packet, state: RowState, effect: Option<EffectKey>,
                             draft: Draft, evidence: Option<Snapshot>, now: int)
    requires Build(cfg, packet, draft, HeadDigest(s.store.receipts)).Ok?
    requires packet.id in s.store.packets && s.store.packets[packet.id] == packet
    ensures Answered(s, RecordStep(cfg, s, packet, state, effect, draft, evidence, now), packet.id)
            <==> RecordPacketReceipt(s.store, packet.id, state, Build(cfg, packet, draft, HeadDigest(s.store.receipts)).value,
                                     effect, cfg.limits, now).Ok?
  {
  }

  /** An open request's packet still asks for its effect, even after it expired. */
  lemma OpenRequestBelongs(cfg: Config, st: Store, request: Request, now: int)
    requires ValidConfig(cfg) && RequestOpen(cfg, st, request) && PacketsOk(st) && request.started <= now
    ensures BelongsTo(st, request.packet.id, EffectOf(request.packet), now, true).Pass?
  {
  }

  /** The store accepts the first outcome of an open request unless its effect forbids it. */
  lemma RecordAcceptedIff(cfg: Config, st: Store, log: seq<Event>, request: Request, state: RowState, effect: Option<EffectKey>,
                          receipt: Receipt, now: int)
    requires ValidConfig(cfg) && Core(cfg, st, log) && RequestOpen(cfg, st, request)
    requires state in {RowRejected, RowReconciled} && (state == RowReconciled ==> effect.Some?)
    requires effect.Some? ==> effect.value == EffectOf(request.packet)
    requires receipt.packetId == request.packet.id && request.started <= now
    ensures RecordPacketReceipt(st, request.packet.id, state, receipt, effect, cfg.limits, now).Ok?
            <==> effect.None? || (RowAt(st, effect.value).active.None?
                                  && (state == RowReconciled ==> RowAt(st, effect.value).state != EffectIndeterminate))
  {
    ChainedReceiptIsNew(st.receipts, receipt);
    assert EffectOk(st, EffectOf(request.packet));
    if effect.Some? {
      OpenRequestBelongs(cfg, st, request, now);
    }
  }

  /** A rejection is signed and answered exactly when no other packet's attempt is active on the effect it names. */
  lemma RejectionAnswersIff(cfg: Config, s: System, now: int)
    requires ValidConfig(cfg) && ReachableInTime(cfg, s)
    requires s.pc.Rejecting? && now >= s.clock && InRange(now)
    ensures Answered(s, Next(cfg, s, Conclude(now)), s.pc.request.packet.id)
            <==> s.pc.effect.None? || RowAt(s.store, s.pc.effect.value).active.None?
  {
    hide Inv, Timed, ReachableInTime;
    StatesInTimeAreTimed(cfg, s);
    RejectionAnswers(cfg, s, now);
  }

  lemma RejectionAnswers(cfg: Config, s: System, now: int)
    requires ValidConfig(cfg) && Inv(cfg, s) && Timed(cfg, s) && s.pc.Rejecting? && now >= s.clock && InRange(now)
    ensures Answered(s, Next(cfg, s, Conclude(now)), s.pc.request.packet.id)
            <==> s.pc.effect.None? || RowAt(s.store, s.pc.effect.value).active.None?
  {
    hide Build, RecordPacketReceipt, RecordStep, Core, AttemptsTimed, OnCommitRecovery, OnAdmit, OnBegin, OnFinish, OnSubmit, OnObserveLive;
    var packet := s.pc.request.packet;
    var previous := HeadDigest(s.store.receipts);
    var draft := RejectionDraft(s.pc.request.started, now, s.pc.reason, s.pc.precondition);
    RejectionBuilds(cfg, packet, s.pc.request.started, now, s.pc.reason, s.pc.precondition, previous);
    BuildKeepsDraft(cfg, packet, draft, previous);
    RecordStepAnswersIff(cfg, s.(clock := now), packet, RowRejected, s.pc.effect, draft, None, now);
    RecordAcceptedIff(cfg, s.store, s.log, s.pc.request, RowRejected, s.pc.effect,
                      Build(cfg, packet, draft, previous).value, now);
  }

  /** An already satisfied effect is signed and answered exactly when it is not indeterminate and no charged attempt is hidden. */
  lemma SatisfactionAnswersIff(cfg: Config, s: System, now: int)
    requires ValidConfig(cfg) && ReachableInTime(cfg, s)
    requires s.pc.Satisfying? && now >= s.clock && InRange(now)
    ensures TargetsFitAction(s.pc.request.packet) &&
            (Answered(s, Next(cfg, s, Conclude(now)), s.pc.request.packet.id)
             <==> var row := RowAt(s.store, EffectOf(s.pc.request.packet));
                  row.state != EffectIndeterminate && row.active.None?)
  {
    hide Timed, Core, Evaluate, ReachableInTime;
    StatesInTimeAreTimed(cfg, s);
    SatisfactionAnswers(cfg, s, now);
  }

  lemma SatisfactionAnswers(cfg: Config, s: System, now: int)
    requires ValidConfig(cfg) && Inv(cfg, s) && Timed(cfg, s) && s.pc.Satisfying? && now >= s.clock && InRange(now)
    ensures Answered(s, Next(cfg, s, Conclude(now)), s.pc.request.packet.id)
            <==> var row := RowAt(s.store, EffectOf(s.pc.request.packet));
                 row.state != EffectIndeterminate && row.active.None?
  {
    hide Build, RecordPacketReceipt, RecordStep, Evaluate, Core, AttemptsTimed, ResolvedTargets, OnCommitRecovery,
         OnAdmit, OnBegin, OnFinish, OnSubmit, OnObserveLive;
    var packet := s.pc.request.packet;
    var previous := HeadDigest(s.store.receipts);
    var draft := SatisfiedDraft(packet, s.pc.request.started, now, s.pc.evaluated, s.pc.live);
    SatisfiedBuilds(cfg, packet, s.pc.request.started, now, s.pc.evaluated, s.pc.live, previous);
    BuildKeepsDraft(cfg, packet, draft, previous);
    RecordStepAnswersIff(cfg, s.(clock := now), packet, RowReconciled, Some(EffectOf(packet)), draft, Some(s.pc.live), now);
    RecordAcceptedIff(cfg, s.store, s.log, s.pc.request, RowReconciled, Some(EffectOf(packet)),
                      Build(cfg, packet, draft, previous).value, now);
  }
}
