/**
 What stands behind every external call: the configured policy, a stored packet that asks for just this effect,
 and a live snapshot that authorized it and did not yet show what was asked.
 */
module CallPolicy {
  import opened Outcomes
  import opened Packets
  import opened Actions
  import opened ActionLaws
  import opened Receipts
  import opened StoreState
  import opened StoreInvariants
  import opened StoreAdmission
  import opened StoreEvolution
  import opened Lifecycle
  import opened BrokerInvariant
  import opened BrokerSafety
  import opened LoggedPackets

  /** The snapshot authorized the packet strictly, and the evaluation describes it. */
  predicate ReadFor(cfg: Config, packet: Packet, live: Snapshot, evaluated: Evaluated) {
    Authorized(cfg, packet, live, false) && !ShowsRequested(packet, live) && Describes(packet, live, evaluated)
  }

  ghost predicate RestsOnRead(cfg: Config, packet: Packet, evaluated: Evaluated) {
    exists live :: ReadFor(cfg, packet, live, evaluated)
  }

  /** From the live read to the outcome, a request rests on the snapshot that was read. */
  ghost predicate PcRests(cfg: Config, pc: Pc) {
    match pc
    case Ready(request, evaluated) => RestsOnRead(cfg, request.packet, evaluated)
    case Charging(request, evaluated, _, _) => RestsOnRead(cfg, request.packet, evaluated)
    case Calling(request, evaluated, _, _) => RestsOnRead(cfg, request.packet, evaluated)
    case Finishing(request, evaluated, _, _, _) => RestsOnRead(cfg, request.packet, evaluated)
    case _ => true
  }

  /** What is authorized leniently and not yet as requested is authorized strictly. */
  lemma UnsatisfiedIsStrict(cfg: Config, packet: Packet, live: Snapshot)
    requires Authorized(cfg, packet, live, true) && !ShowsRequested(packet, live)
    ensures Authorized(cfg, packet, live, false)
  {
    hide FilesHold, ChecksHold, EvidenceHolds;
    if packet.action == ResolveReviewThread {
      var k :| 0 <= k < |live.threads| && TargetThreadHolds(packet, live, live.threads[k], true);
      assert TargetThreadHolds(packet, live, live.threads[k], false);
    }
  }

  lemma ReadRests(cfg: Config, s: System, fetch: Fetch)
    requires s.pc.Admitted? && TargetsFitAction(s.pc.request.packet)
    ensures PcRests(cfg, OnObserveLive(cfg, s, fetch).pc)
  {
    hide Evaluate, Authorized, ShowsRequested, Describes, Desired;
    var packet := s.pc.request.packet;
    if fetch.Seen? && Evaluate(cfg, packet, fetch.snapshot, true).Ok? {
      var live := fetch.snapshot;
      var evaluated := Evaluate(cfg, packet, live, true).value;
      EvaluateAcceptsIff(cfg, packet, live, true);
      EvaluationDescribes(cfg, packet, live, true);
      SatisfiedIffDesired(cfg, packet, live);
      DesiredMeans(packet, live);
      if !evaluated.alreadySatisfied {
        UnsatisfiedIsStrict(cfg, packet, live);
        assert ReadFor(cfg, packet, live, evaluated);
      }
    }
  }

  lemma NextRests(cfg: Config, s: System, input: Input)
    requires PcRests(cfg, s.pc)
    ensures PcRests(cfg, Next(cfg, s, input).pc)
  {
    hide OnObserveLive, OnConclude, OnCommitRecovery, OnAdmit, BeginMutation, JudgeExecution, RestsOnRead, IsPendingListing, WellFormed, Decide;
    match input {
      case ObserveLive(fetch) =>
        if s.pc.Admitted? && TargetsFitAction(s.pc.request.packet) { ReadRests(cfg, s, fetch); }
      case Conclude(now) =>
        if (s.pc.Rejecting? || s.pc.Satisfying? || s.pc.Finishing?) && TargetsFitAction(s.pc.request.packet) { ConcludeEvolves(cfg, s, now); }
      case CommitRecovery(now) => if s.pc.Decided? && s.pc.queue != [] { CommitRecoveryEvolves(cfg, s, now); }
      case Admit => if s.pc.Recovering? && s.pc.queue == [] { AdmitEvolves(cfg, s); }
      case _ =>
    }
  }

  lemma {:induction false} RunsRest(cfg: Config, inputs: seq<Input>)
    ensures PcRests(cfg, Exec(cfg, inputs).pc)
  {
    hide Next, PcRests;
    if inputs == [] {
      StartRests(cfg);
    } else {
      RunsRest(cfg, inputs[..|inputs| - 1]);
      NextRests(cfg, Exec(cfg, inputs[..|inputs| - 1]), inputs[|inputs| - 1]);
    }
  }

  lemma StartRests(cfg: Config)
    ensures PcRests(cfg, Idle)
  {
  }

  /** What the configuration and the protocol demand of a packet at any time. */
  predicate MeetsConfiguration(cfg: Config, packet: Packet) {
    && cfg.enabled && packet.action in cfg.allowedActions
    && packet.slug == cfg.slug && packet.repo == cfg.repository
    && packet.pr.baseBranch == cfg.defaultBranch && packet.pr.author == cfg.prAuthor
    && 60 <= packet.expiresAt - packet.createdAt <= cfg.maximumPacketTtl
    && (packet.checks == SuccessfulChecks || cfg.allowNoChecks)
    && |packet.threadIds| == |packet.threadUrls| == (if packet.action == MarkPrReady then 0 else 1)
    && (packet.action == MarkPrReady ==> packet.pr.isDraft && packet.unresolvedThreads == 0)
    && (packet.action == ResolveReviewThread ==> packet.threadIds[0] != "" && packet.unresolvedThreads >= 1)
    && |packet.pr.head| in {40, 64} && forall i | 0 <= i < |packet.pr.head| :: packet.pr.head[i] in "0123456789abcdef"
  }

  lemma WellFormedMeans(cfg: Config, packet: Packet)
    ensures WellFormed(cfg, packet) <==> MeetsConfiguration(cfg, packet)
  {
    forall c: char ensures c in "0123456789abcdef" <==> '0' <= c <= '9' || 'a' <= c <= 'f' {
      Hexadecimal(c);
    }
  }

  lemma Hexadecimal(c: char)
    ensures c in "0123456789abcdef" <==> '0' <= c <= '9' || 'a' <= c <= 'f'
  {
    var digits := "0123456789abcdef";
    if '0' <= c <= '9' {
      assert digits[(c - '0') as int] == c;
    } else if 'a' <= c <= 'f' {
      assert digits[10 + (c - 'a') as int] == c;
    }
  }

  /** Every charge and every call ever made was for a stored packet that meets the configuration and asks for just that effect. */
  lemma OnlyConfiguredPacketsAct(cfg: Config, s: System, i: nat)
    requires ValidConfig(cfg) && Reachable(cfg, s) && i < |s.log| && (s.log[i].Called? || s.log[i].Charged?)
    ensures s.log[i].packetId in s.store.packets
    ensures var packet := s.store.packets[s.log[i].packetId];
            packet.id == s.log[i].packetId && MeetsConfiguration(cfg, packet) && AsksFor(packet, s.log[i].effect)
  {
    hide LogOk, PhasesMatch, CircuitsMatch, EffectsOk, ReceiptLog, RowsBound, ChargesAccounted, BudgetLedger, Reachable, AsksFor, WellFormed,
         MeetsConfiguration, PcOk;
    EveryReachableState(cfg, s);
    LogNamesStoredPackets(cfg, s);
    assert NamesStoredPacket(s.store, s.log[i]);
    var packet := s.store.packets[s.log[i].packetId];
    WellFormedMeans(cfg, packet);
    ShapedIsIdentity(packet, 0);
    EffectIsWhatIsAsked(packet, s.log[i].effect);
  }

  /**
   A call is made in one place only: by a request that holds the charged active attempt of its effect, was acceptable
   when it started, and rests on a snapshot that authorized it strictly and did not show the requested state.
   */
  lemma CallsRestOnPreconditions(cfg: Config, s: System, input: Input, i: nat) returns (live: Snapshot)
    requires ValidConfig(cfg) && Reachable(cfg, s)
    requires |s.log| <= i < |Next(cfg, s, input).log| && Next(cfg, s, input).log[i].Called?
    ensures s.pc.Charging?
    ensures var packet, started, call := s.pc.request.packet, s.pc.request.started, Next(cfg, s, input).log[i];
            && AsksFor(packet, call.effect) && call.packetId == packet.id && call.attempt == s.pc.attempt
            && packet.createdAt - cfg.maximumClockSkew <= started < packet.expiresAt
            && call.effect in s.store.effects && s.store.effects[call.effect].state == Pending
            && s.store.effects[call.effect].active
               == Some(Attempt(call.attempt, packet.id, EvaluatedBefore(s.pc.evaluated.before), s.pc.attemptedAt))
            && ReadFor(cfg, packet, live, s.pc.evaluated)
  {
    hide Reachable, Next, Exec, PcRests, IsRun, Core, ReadFor, AsksFor, EffectOf, WellFormed;
    EveryReachableState(cfg, s);
    ReachableIffExec(cfg, s);
    var inputs :| Exec(cfg, inputs) == s;
    RunsRest(cfg, inputs);
    OnlyTheCallCalls(cfg, s, input, i);
    RestsAtCharging(cfg, s.pc);
    live :| ReadFor(cfg, s.pc.request.packet, live, s.pc.evaluated);
    ChargedFacts(cfg, s);
  }

  lemma RestsAtCharging(cfg: Config, pc: Pc)
    requires PcRests(cfg, pc) && pc.Charging?
    ensures exists live :: ReadFor(cfg, pc.request.packet, live, pc.evaluated)
  {
  }

  lemma ChargedFacts(cfg: Config, s: System)
    requires ValidConfig(cfg) && Inv(cfg, s) && s.pc.Charging?
    ensures var packet := s.pc.request.packet;
            && TargetsFitAction(packet) && AsksFor(packet, EffectOf(packet))
            && EffectOf(packet) in s.store.effects && s.store.effects[EffectOf(packet)].state == Pending
  {
    hide LogOk, PhasesMatch, CircuitsMatch, ReceiptLog, RowsBound, ChargesAccounted, BudgetLedger;
    var packet := s.pc.request.packet;
    assert EffectOk(s.store, EffectOf(packet));
    EffectIsWhatIsAsked(packet, EffectOf(packet));
  }

  /** The log grew by no call. */
  predicate NoNewCall(before: seq<Event>, after: seq<Event>) {
    forall i | |before| <= i < |after| :: !after[i].Called?
  }

  lemma RecordStepCallsNobody(cfg: Config, s: System, packet: Packet, state: RowState, effect: Option<EffectKey>,
                              draft: Draft, evidence: Option<Snapshot>, now: int)
    ensures NoNewCall(s.log, RecordStep(cfg, s, packet, state, effect, draft, evidence, now).log)
  {
    hide Build, RecordPacketReceipt;
  }

  lemma TerminalizeStepCallsNobody(cfg: Config, s: System, effect: EffectKey, packet: Packet, attempt: string, state: RowState,
                                   draft: Draft, evidence: Option<Snapshot>, now: int)
    requires Decisive(state)
    ensures var step := TerminalizeStep(cfg, s, effect, packet, attempt, state, draft, evidence, now);
            step.Some? ==> NoNewCall(s.log, step.value.log)
    ensures var step := TerminalizeStep(cfg, s, effect, packet, attempt, state, draft, evidence, now);
            step.Some? ==> forall receipt :: NoNewCall(s.log, Reply(step.value, packet, receipt).log)
  {
    hide Build, BelongsTo;
  }

  lemma ConcludeCallsNobody(cfg: Config, s: System, now: int)
    requires (s.pc.Rejecting? || s.pc.Satisfying? || s.pc.Finishing?) && TargetsFitAction(s.pc.request.packet)
    ensures NoNewCall(s.log, OnConclude(cfg, s, now).log)
  {
    hide RecordStep, TerminalizeStep, FinishDraft, Reply;
    var packet, read := s.pc.request.packet, s.(clock := now);
    match s.pc {
      case Rejecting(request, effect, reason, precondition) =>
        RecordStepCallsNobody(cfg, read, packet, RowRejected, effect, RejectionDraft(request.started, now, reason, precondition), None, now);
      case Satisfying(request, evaluated, live) =>
        RecordStepCallsNobody(cfg, read, packet, RowReconciled, Some(EffectOf(packet)),
                              SatisfiedDraft(packet, request.started, now, evaluated, live), Some(live), now);
      case Finishing(_, _, _, _, execution) =>
        TerminalizeStepCallsNobody(cfg, read, EffectOf(packet), packet, s.pc.attempt,
                                   if execution.Verified? then RowCompleted else RowIndeterminate, FinishDraft(packet, s.pc, now),
                                   if execution.Verified? then Some(execution.after) else None, now);
    }
  }

  lemma CommitCallsNobody(cfg: Config, s: System, now: int)
    requires s.pc.Decided? && s.pc.queue != []
    ensures NoNewCall(s.log, OnCommitRecovery(cfg, s, now).log)
  {
    hide TerminalizeStep, RecoveryDraft, ReconcileAbsent;
    var pending, read := s.pc.queue[0], s.(clock := now);
    if pending.packetId in s.store.packets {
      var packet := s.store.packets[pending.packetId];
      match s.pc.decision {
        case Unsure(_, readback) =>
          TerminalizeStepCallsNobody(cfg, read, pending.effect, packet, pending.attempt, RowIndeterminate,
                                     RecoveryDraft(packet, pending, s.pc.decision, now), readback, now);
        case Confirm(live) =>
          TerminalizeStepCallsNobody(cfg, read, pending.effect, packet, pending.attempt, RowReconciled,
                                     RecoveryDraft(packet, pending, s.pc.decision, now), Some(live), now);
        case _ =>
      }
    }
  }

  lemma OnlyTheCallCalls(cfg: Config, s: System, input: Input, i: nat)
    requires Inv(cfg, s) && |s.log| <= i < |Next(cfg, s, input).log| && Next(cfg, s, input).log[i].Called?
    ensures s.pc.Charging? && TargetsFitAction(s.pc.request.packet)
    ensures Next(cfg, s, input).log[i] == Called(EffectOf(s.pc.request.packet), s.pc.request.packet.id, s.pc.attempt)
  {
    hide Inv, OnConclude, OnCommitRecovery, BeginMutation, Reserve, IsPendingListing, WellFormed, Evaluate, Decide, RowOf, JudgeExecution,
         EffectOf, TargetsFitAction;
    match input {
      case Conclude(now) =>
        if (s.pc.Rejecting? || s.pc.Satisfying? || s.pc.Finishing?) && TargetsFitAction(s.pc.request.packet) { ConcludeCallsNobody(cfg, s, now); }
      case CommitRecovery(now) => if s.pc.Decided? && s.pc.queue != [] { CommitCallsNobody(cfg, s, now); }
      case _ =>
    }
  }
}
