/**
 What the service answers to each cause: admission, the live read, the charging transaction and recovery, each as
 a table over what the database and GitHub show, from every reachable state.
 */
module Reasons {
  import opened Outcomes
  import opened Packets
  import opened Actions
  import opened ActionLaws
  import opened Receipts
  import opened StoreState
  import opened StoreInvariants
  import opened StoreAdmission
  import opened Counting
  import opened Lifecycle
  import opened BrokerInvariant
  import opened BrokerSafety
  import opened BrokerGuarantees
  import opened SignedOutcomes

  // ----- one instance --------------------------------------------------------------------------

  /** Every effect belongs to the one instance this service runs for. */
  predicate OneInstance(cfg: Config, st: Store) {
    forall effect | effect in st.effects :: st.effects[effect].slug == cfg.slug
  }

  /** No effect appears or changes its instance. */
  predicate KeepsInstances(st: Store, after: Store) {
    forall effect | effect in after.effects :: effect in st.effects && after.effects[effect].slug == st.effects[effect].slug
  }

  lemma ConcludeKeepsInstances(cfg: Config, s: System, now: int)
    requires (s.pc.Rejecting? || s.pc.Satisfying? || s.pc.Finishing?) && TargetsFitAction(s.pc.request.packet)
    ensures KeepsInstances(s.store, OnConclude(cfg, s, now).store)
  {
    hide RecordStep, TerminalizeStep, FinishDraft;
    var packet, read := s.pc.request.packet, s.(clock := now);
    match s.pc {
      case Rejecting(request, effect, reason, precondition) =>
        RecordKeepsInstances(cfg, read, packet, RowRejected, effect, RejectionDraft(request.started, now, reason, precondition), None, now);
      case Satisfying(request, evaluated, live) =>
        RecordKeepsInstances(cfg, read, packet, RowReconciled, Some(EffectOf(packet)),
                             SatisfiedDraft(packet, request.started, now, evaluated, live), Some(live), now);
      case Finishing(_, _, _, _, execution) =>
        TerminalizeKeepsInstances(cfg, read, EffectOf(packet), packet, s.pc.attempt,
                                  if execution.Verified? then RowCompleted else RowIndeterminate, FinishDraft(packet, s.pc, now),
                                  if execution.Verified? then Some(execution.after) else None, now);
    }
  }

  lemma RecordKeepsInstances(cfg: Config, s: System, packet: Packet, state: RowState, effect: Option<EffectKey>,
                             draft: Draft, evidence: Option<Snapshot>, now: int)
    ensures KeepsInstances(s.store, RecordStep(cfg, s, packet, state, effect, draft, evidence, now).store)
  {
    hide Build, BelongsTo;
  }

  lemma TerminalizeKeepsInstances(cfg: Config, s: System, effect: EffectKey, packet: Packet, attempt: string, state: RowState,
                                  draft: Draft, evidence: Option<Snapshot>, now: int)
    requires Decisive(state)
    ensures var step := TerminalizeStep(cfg, s, effect, packet, attempt, state, draft, evidence, now);
            step.Some? ==> KeepsInstances(s.store, step.value.store)
  {
    hide Build, BelongsTo;
  }

  lemma CommitKeepsInstances(cfg: Config, s: System, now: int)
    requires s.pc.Decided? && s.pc.queue != []
    ensures KeepsInstances(s.store, OnCommitRecovery(cfg, s, now).store)
  {
    hide TerminalizeStep, RecoveryDraft;
    var pending, read := s.pc.queue[0], s.(clock := now);
    if pending.packetId in s.store.packets {
      var packet := s.store.packets[pending.packetId];
      match s.pc.decision {
        case Unsure(_, readback) =>
          TerminalizeKeepsInstances(cfg, read, pending.effect, packet, pending.attempt, RowIndeterminate,
                                    RecoveryDraft(packet, pending, s.pc.decision, now), readback, now);
        case Confirm(live) =>
          TerminalizeKeepsInstances(cfg, read, pending.effect, packet, pending.attempt, RowReconciled,
                                    RecoveryDraft(packet, pending, s.pc.decision, now), Some(live), now);
        case _ =>
      }
    }
  }

  lemma AdmitKeepsInstance(cfg: Config, s: System)
    requires OneInstance(cfg, s.store) && s.pc.Recovering? && s.pc.queue == []
    ensures OneInstance(cfg, OnAdmit(cfg, s).store)
  {
    hide Reserve, OneInstance, RowOf;
    if Accepted(cfg, s.pc.request.packet, s.pc.request.started) {
      ReserveKeepsInstance(cfg, s.store, s.pc.request.packet, s.pc.request.started);
    }
  }

  lemma ReserveKeepsInstance(cfg: Config, st: Store, packet: Packet, now: int)
    requires OneInstance(cfg, st) && packet.slug == cfg.slug
    ensures var reserved := Reserve(st, packet, cfg.limits, now); reserved.Ok? ==> OneInstance(cfg, reserved.value.0)
  {
    hide IdentityValid, RequestBudget, Disposition, EffectOf, TargetsFitAction;
  }

  lemma NextKeepsInstance(cfg: Config, s: System, input: Input)
    requires OneInstance(cfg, s.store)
    ensures OneInstance(cfg, Next(cfg, s, input).store)
  {
    hide OnConclude, OnCommitRecovery, OnAdmit, Evaluate, Desired, WellFormed, IsPendingListing, MutationBudget;
    match input {
      case CommitRecovery(now) => if s.pc.Decided? && s.pc.queue != [] { CommitKeepsInstances(cfg, s, now); }
      case Conclude(now) =>
        if (s.pc.Rejecting? || s.pc.Satisfying? || s.pc.Finishing?) && TargetsFitAction(s.pc.request.packet) {
          ConcludeKeepsInstances(cfg, s, now);
        }
      case Admit => if s.pc.Recovering? && s.pc.queue == [] { AdmitKeepsInstance(cfg, s); }
      case _ =>
    }
  }

  lemma {:induction false} RunsKeepInstance(cfg: Config, inputs: seq<Input>)
    ensures OneInstance(cfg, Exec(cfg, inputs).store)
  {
    hide Next;
    if inputs != [] {
      RunsKeepInstance(cfg, inputs[..|inputs| - 1]);
      NextKeepsInstance(cfg, Exec(cfg, inputs[..|inputs| - 1]), inputs[|inputs| - 1]);
    }
  }

  lemma ReachableKeepsInstance(cfg: Config, s: System)
    requires Reachable(cfg, s)
    ensures OneInstance(cfg, s.store)
  {
    hide Next, Exec, OneInstance, IsRun;
    ReachableIffExec(cfg, s);
    var inputs :| Exec(cfg, inputs) == s;
    RunsKeepInstance(cfg, inputs);
  }

  // ----- admission -----------------------------------------------------------------------------

  /** The request charges of an instance in the hour up to a moment, later ones included. */
  function RecentRequests(st: Store, slug: string, now: int): set<int> {
    set k | 0 <= k < |st.events| && st.events[k].RequestCharge? && st.events[k].slug == slug && now - 3600 < st.events[k].at
  }

  /**
   A packet gets in if it is acceptable when its request started and, when it is already stored, is that very
   packet, or, when it is new, has a digest of its own, a closed circuit and room in its hour.  A stored
   packet needs neither room nor, once its effect is claimed, a closed circuit.
   */
  predicate GetsIn(cfg: Config, st: Store, packet: Packet, effect: EffectKey, now: int) {
    && Accepted(cfg, packet, now)
    && if packet.id in st.packets then
         st.packets[packet.id] == packet && (effect in st.effects || !CircuitBlocks(st, packet.slug, packet.action))
       else
         && (forall id | id in st.packets :: st.packets[id].digest != packet.digest)
         && !CircuitBlocks(st, packet.slug, packet.action)
         && |RecentRequests(st, packet.slug, now)| < cfg.limits.requestsPerHour
  }

  /** Only a new packet is stored and charged a request; its effect is claimed if nobody has. */
  function AfterAdmission(st: Store, packet: Packet, effect: EffectKey, now: int): Store {
    if packet.id in st.packets then st.(effects := WithEffect(st, packet, effect))
    else st.(packets := st.packets[packet.id := packet],
             events := st.events + [RequestCharge(packet.slug, packet.action, now, packet.id)],
             effects := WithEffect(st, packet, effect))
  }

  /** Where a packet goes that got in, by the state of the effect it asks for. */
  function AdmittedTo(st: Store, request: Request, effect: EffectKey): Pc {
    if effect !in st.effects || st.effects[effect].state == Pending then Admitted(request, false)
    else if st.effects[effect].state == EffectIndeterminate then
      Rejecting(request, Some(effect), CircuitRefused(SemanticIndeterminate), EffectCondition(CircuitRefused(SemanticIndeterminate)))
    else Admitted(request, true)
  }

  lemma UnansweredGetsIn(cfg: Config, s: System, effect: EffectKey)
    requires ValidConfig(cfg) && Inv(cfg, s) && OneInstance(cfg, s.store)
    requires s.pc.Recovering? && s.pc.queue == [] && AsksFor(s.pc.request.packet, effect) && Unanswered(s.store, s.pc.request.packet.id)
    ensures var request, packet, now := s.pc.request, s.pc.request.packet, s.pc.request.started;
            Next(cfg, s, Admit) ==
              if GetsIn(cfg, s.store, packet, effect, now)
              then s.(store := AfterAdmission(s.store, packet, effect, now), pc := AdmittedTo(s.store, request, effect))
              else s.(pc := Idle)
  {
    hide Core, Reserve, RowOf, Unanswered, HasDecision, AsksFor, EffectOf, QueueOk, Covers, OnSubmit, OnBegin, OnObserveLive, OnConclude,
         OnCommitRecovery, TargetsFitAction;
    var packet, now := s.pc.request.packet, s.pc.request.started;
    TablesRead(s.store, packet.id, effect);
    if Accepted(cfg, packet, now) {
      AcceptedIsShaped(cfg, packet, now);
      EffectIsWhatIsAsked(packet, effect);
      ClaimedIsOpen(cfg, s.store, s.log, packet, effect);
      if packet.id in s.store.packets {
        StoredPacketPassesIff(s.store, packet, effect, cfg.limits, now);
      } else {
        NewPacketEntersIff(s.store, packet, effect, cfg.limits, now);
      }
    }
  }

  lemma AcceptedIsShaped(cfg: Config, packet: Packet, now: int)
    requires ValidConfig(cfg) && Accepted(cfg, packet, now)
    ensures Shaped(packet) && InWindow(packet, now) && packet.slug == cfg.slug
  {
  }

  /** In a database of one instance every effect can be claimed again: it is this instance's, and if terminal has its receipt. */
  lemma ClaimedIsOpen(cfg: Config, st: Store, log: seq<Event>, packet: Packet, effect: EffectKey)
    requires Core(cfg, st, log) && OneInstance(cfg, st) && packet.slug == cfg.slug
    ensures EffectOpen(st, packet, effect)
  {
    hide LogOk, PhasesMatch, CircuitsMatch, ReceiptLog, RowsBound, ChargesAccounted, BudgetLedger;
    assert EffectOk(st, effect);
    DecidedHasReceipt(st.receipts, effect);
    TablesRead(st, packet.id, effect);
  }

  /**
   Admission, from every reachable state.  An answered packet is answered again, or nothing happens if it is not
   the stored one; any other gets in or is refused with no table changed.
   */
  lemma AdmissionAnswers(cfg: Config, s: System, effect: EffectKey)
    requires ValidConfig(cfg) && Reachable(cfg, s)
    requires s.pc.Recovering? && s.pc.queue == [] && AsksFor(s.pc.request.packet, effect)
    ensures var request, packet, now := s.pc.request, s.pc.request.packet, s.pc.request.started;
            var after := Next(cfg, s, Admit);
            && (Unanswered(s.store, packet.id) ==>
                  after == if GetsIn(cfg, s.store, packet, effect, now)
                           then s.(store := AfterAdmission(s.store, packet, effect, now), pc := AdmittedTo(s.store, request, effect))
                           else s.(pc := Idle))
            && (forall i | 0 <= i < |s.store.receipts| && s.store.receipts[i].packetId == packet.id ::
                  packet.id in s.store.packets &&
                  after == if s.store.packets[packet.id] == packet
                           then s.(pc := Idle, log := s.log + [Replied(packet.id, s.store.receipts[i].receipt)])
                           else s.(pc := Idle))
  {
    hide Core, Reachable, Next, OneInstance, GetsIn, AdmittedTo, QueueOk, Covers;
    EveryReachableState(cfg, s);
    ReachableKeepsInstance(cfg, s);
    var packet := s.pc.request.packet;
    if Unanswered(s.store, packet.id) {
      UnansweredGetsIn(cfg, s, effect);
    }
    forall i | 0 <= i < |s.store.receipts| && s.store.receipts[i].packetId == packet.id
      ensures packet.id in s.store.packets &&
              Next(cfg, s, Admit) == if s.store.packets[packet.id] == packet
                                     then s.(pc := Idle, log := s.log + [Replied(packet.id, s.store.receipts[i].receipt)])
                                     else s.(pc := Idle)
    {
      AnsweredIsReplayed(cfg, s, i);
    }
  }

  lemma AnsweredIsReplayed(cfg: Config, s: System, i: nat)
    requires Inv(cfg, s) && s.pc.Recovering? && s.pc.queue == []
    requires i < |s.store.receipts| && s.store.receipts[i].packetId == s.pc.request.packet.id
    ensures var packet := s.pc.request.packet;
            && packet.id in s.store.packets
            && Next(cfg, s, Admit) == if s.store.packets[packet.id] == packet
                                      then s.(pc := Idle, log := s.log + [Replied(packet.id, s.store.receipts[i].receipt)])
                                      else s.(pc := Idle)
  {
    hide LogOk, PhasesMatch, CircuitsMatch, EffectsOk, ChargesAccounted, BudgetLedger, OnSubmit, OnBegin, OnObserveLive, OnConclude,
         OnCommitRecovery, Reserve, RowOf;
    RowIsRowOf(s.store.receipts, i);
    assert RowBound(s.store, s.store.receipts[i]);
  }

  /**
   A crashed request is retried: the identical packet, still acceptable, whose own attempt recovery found absent,
   is admitted to the mutation once more, with no further request charge and no table changed but for the absence.
   */
  lemma RetryIsAdmitted(cfg: Config, s: System, effect: EffectKey, now: int)
    requires ValidConfig(cfg) && Reachable(cfg, s) && s.pc.Decided? && s.pc.decision.Absent? && |s.pc.queue| == 1
    requires var packet := s.pc.request.packet;
             && AsksFor(packet, effect) && Accepted(cfg, packet, s.pc.request.started)
             && packet.id in s.store.packets && s.store.packets[packet.id] == packet
    ensures var cleared := Next(cfg, s, CommitRecovery(now));
            && effect in cleared.store.effects && cleared.store.effects[effect].active.None?
            && Next(cfg, cleared, Admit) == cleared.(pc := Admitted(s.pc.request, false))
            && cleared.store == s.store.(effects := cleared.store.effects)
  {
    hide Core, Reachable, Next, OneInstance, RowOf, AsksFor, QueueOk, Covers, WellFormed, EffectOf;
    EveryReachableState(cfg, s);
    ReachableKeepsInstance(cfg, s);
    AbsenceIsKept(cfg, s, now);
    DecidedRow(cfg, s);
    NextKeeps(cfg, s, CommitRecovery(now));
    NextKeepsInstance(cfg, s, CommitRecovery(now));
    var cleared := Next(cfg, s, CommitRecovery(now));
    OwnAttemptIsUnanswered(cfg, s, effect);
    UnansweredGetsIn(cfg, cleared, effect);
  }

  lemma OwnAttemptIsUnanswered(cfg: Config, s: System, effect: EffectKey)
    requires ValidConfig(cfg) && Inv(cfg, s) && s.pc.Decided? && s.pc.decision.Absent? && AsksFor(s.pc.request.packet, effect)
    requires var packet := s.pc.request.packet; packet.id in s.store.packets && s.store.packets[packet.id] == packet
    ensures s.pc.queue != [] && Unanswered(s.store, s.pc.request.packet.id) && s.pc.queue[0].effect == effect
            && s.pc.queue[0].packetId == s.pc.request.packet.id
  {
    hide LogOk, PhasesMatch, CircuitsMatch, ReceiptLog, RowsBound, ChargesAccounted, BudgetLedger, Evaluate, Covers;
    DecidedRow(cfg, s);
    assert EffectOk(s.store, s.pc.queue[0].effect);
    TablesRead(s.store, s.pc.request.packet.id, effect);
    EffectIsWhatIsAsked(s.pc.request.packet, effect);
  }

  // ----- the charging transaction --------------------------------------------------------------

  /** The mutation charges of an instance on the UTC day of a moment. */
  function ChargesThatDay(st: Store, slug: string, now: int): set<int> {
    set k | 0 <= k < |st.events| && st.events[k].MutationCharge? && st.events[k].slug == slug
            && now / 86400 * 86400 <= st.events[k].at < (now / 86400 + 1) * 86400
  }

  /** Those of one action. */
  function ActionChargesThatDay(st: Store, slug: string, action: Action, now: int): set<int> {
    set k | 0 <= k < |st.events| && st.events[k].MutationCharge? && st.events[k].slug == slug && st.events[k].action == action
            && now / 86400 * 86400 <= st.events[k].at < (now / 86400 + 1) * 86400
  }

  function Refused(request: Request, effect: EffectKey, reason: Reason): Pc {
    Rejecting(request, Some(effect), reason, EffectCondition(reason))
  }

  /** Where starting the mutation leads, by the effect, the clock, the circuit and the budgets, in this order; `Idle` is an error that escapes. */
  function StartLeadsTo(limits: Limits, st: Store, request: Request, evaluated: Evaluated, effect: EffectKey, attempt: string, now: int): Pc
    requires effect in st.effects
  {
    var packet, found := request.packet, st.effects[effect];
    if attempt == "" then Idle
    else if found.state == EffectIndeterminate then Refused(request, effect, CircuitRefused(SemanticIndeterminate))
    else if found.state != Pending then
      Rejecting(request, Some(effect), PreconditionFailed(SemanticStateDrift), EvaluatedBefore(evaluated.before))
    else if !InWindow(packet, now) then Idle
    else if found.active.Some? then
      Rejecting(request, None, CircuitRefused(SemanticPending), EffectCondition(CircuitRefused(SemanticPending)))
    else if !KeyIsNew(st, effect, attempt) then Idle
    else if CircuitBlocks(st, packet.slug, packet.action) then Refused(request, effect, CircuitRefused(ActionOpen))
    else if |ChargesThatDay(st, packet.slug, now)| >= limits.dailyMutations then Refused(request, effect, BudgetExhausted(DailyMutations))
    else if packet.action == MarkPrReady && |ActionChargesThatDay(st, packet.slug, packet.action, now)| >= limits.markReadyPerDay then
      Refused(request, effect, BudgetExhausted(MarkReadyPerDay))
    else if packet.action == ResolveReviewThread
            && |ActionChargesThatDay(st, packet.slug, packet.action, now)| >= limits.reviewThreadsPerDay then
      Refused(request, effect, BudgetExhausted(ReviewThreadsPerDay))
    else Charging(request, evaluated, attempt, now)
  }

  /** Starting the mutation, from every reachable state: only a charge changes the database, by one event and the active attempt. */
  lemma StartAnswers(cfg: Config, s: System, effect: EffectKey, attempt: string, now: int)
    requires ValidConfig(cfg) && Reachable(cfg, s) && s.pc.Ready? && AsksFor(s.pc.request.packet, effect)
    ensures effect in s.store.effects
    ensures var packet, found := s.pc.request.packet, s.store.effects[effect];
            var pc := StartLeadsTo(cfg.limits, s.store, s.pc.request, s.pc.evaluated, effect, attempt, now);
            Next(cfg, s, Begin(attempt, now)) ==
              if !pc.Charging? then s.(clock := now, pc := pc)
              else s.(
                clock := now, pc := pc,
                store := s.store.(
                  events := s.store.events + [MutationCharge(packet.slug, packet.action, now, packet.id, effect, attempt)],
                  effects := s.store.effects[effect :=
                    Effect(packet.slug, Pending, Some(Attempt(attempt, packet.id, EvaluatedBefore(s.pc.evaluated.before), now)),
                           found.attempts + 1, found.absence)]),
                log := s.log + [Charged(effect, packet.slug, packet.id, attempt)])
  {
    hide Core, Reachable, BeginMutation, OnSubmit, OnCommitRecovery, OnAdmit, OnConclude, OnObserveLive, WellFormed, RowOf, NoActiveAttempt,
         AsksFor, EffectOf, TargetsFitAction, StartLeadsTo;
    EveryReachableState(cfg, s);
    ReadyFacts(cfg, s, effect, attempt, now);
    StartResult(cfg, s.store, s.pc.request, s.pc.evaluated, effect, attempt, now);
  }

  /** What a request ready to mutate has in the database. */
  lemma ReadyFacts(cfg: Config, s: System, effect: EffectKey, attempt: string, now: int)
    requires ValidConfig(cfg) && Inv(cfg, s) && s.pc.Ready? && AsksFor(s.pc.request.packet, effect)
    ensures ReadyToStart(s.store, s.pc.request, effect) && TargetsFitAction(s.pc.request.packet) && EffectOf(s.pc.request.packet) == effect
  {
    hide LogOk, PhasesMatch, CircuitsMatch, ReceiptLog, RowsBound, ChargesAccounted, BudgetLedger;
    var packet := s.pc.request.packet;
    AcceptedIsShaped(cfg, packet, s.pc.request.started);
    EffectIsWhatIsAsked(packet, effect);
    TablesRead(s.store, packet.id, effect);
    assert EffectOk(s.store, effect);
    DecidedHasReceipt(s.store.receipts, effect);
    OpenRequestStarts(cfg, s.store, s.log, s.pc.request, attempt, EvaluatedBefore(s.pc.evaluated.before), now);
  }

  predicate ReadyToStart(st: Store, request: Request, effect: EffectKey) {
    var packet := request.packet;
    && Shaped(packet) && AsksFor(packet, effect) && packet.id in st.packets && st.packets[packet.id] == packet
    && Unanswered(st, packet.id)
    && effect in st.effects && st.effects[effect].slug == packet.slug
    && (st.effects[effect].state != Pending ==> HasDecision(st, effect))
    && (st.effects[effect].active.Some? ==> st.effects[effect].active.value.packetId != packet.id)
    && (st.effects[effect].state == Pending && st.effects[effect].active.None? ==> st.effects[effect].attempts < 2)
  }

  lemma StartResult(cfg: Config, st: Store, request: Request, evaluated: Evaluated, effect: EffectKey, attempt: string, now: int)
    requires ReadyToStart(st, request, effect)
    ensures var begun := BeginMutation(st, effect, request.packet.id, attempt, EvaluatedBefore(evaluated.before), cfg.limits, now);
            var pc := StartLeadsTo(cfg.limits, st, request, evaluated, effect, attempt, now);
            match begun
            case Ok((after, ChargedNow)) =>
              && pc == Charging(request, evaluated, attempt, now)
              && after == st.(
                   events := st.events + [MutationCharge(request.packet.slug, request.packet.action, now, request.packet.id, effect, attempt)],
                   effects := st.effects[effect :=
                     Effect(request.packet.slug, Pending, Some(Attempt(attempt, request.packet.id, EvaluatedBefore(evaluated.before), now)),
                            st.effects[effect].attempts + 1, st.effects[effect].absence)])
            case Ok((after, StartIndeterminate)) => pc == Refused(request, effect, CircuitRefused(SemanticIndeterminate))
            case Ok((after, StartCompleted)) =>
              pc == Rejecting(request, Some(effect), PreconditionFailed(SemanticStateDrift), EvaluatedBefore(evaluated.before))
            case Err(BudgetExceeded(budget)) => pc == Refused(request, effect, BudgetExhausted(budget))
            case Err(CircuitOpen) => pc == Refused(request, effect, CircuitRefused(ActionOpen))
            case Err(PendingRecoveryError) =>
              pc == Rejecting(request, None, CircuitRefused(SemanticPending), EffectCondition(CircuitRefused(SemanticPending)))
            case Err(_) => pc == Idle
            case Ok(_) => false
  {
    hide RowOf, AttemptUsed, MutationsOn, ActionMutationsOn, LatestDecision, Unanswered, HasDecision, IdentityShape, Shaped, UtcDay,
         TargetsFitAction, AsksFor, EffectOf, InWindow;
    var packet := request.packet;
    TablesRead(st, packet.id, effect);
    UsedMeansCharged(st.events, effect, attempt);
    ShapedIsIdentity(packet, now);
    EffectIsWhatIsAsked(packet, effect);
    DayOf(now);
    MutationsAreCounted(st.events, packet.slug, UtcDay(now));
    ActionMutationsAreCounted(st.events, packet.slug, UtcDay(now), packet.action);
  }

  // ----- the live read -------------------------------------------------------------------------

  /** The error is true of the snapshot, and the first that is in the order in which errors are reported. */
  predicate IsReported(cfg: Config, packet: Packet, live: Snapshot, lenient: bool, error: ActionError) {
    && Explains(cfg, packet, live, lenient, error)
    && (error != InvalidLiveSnapshot ==> NoneBetween(cfg, packet, live, lenient, 1, Rank(error)))
  }

  /**
   The live read, from every reachable state: a failed read and a snapshot that is not authorized lead to a
   rejection that says so, the latter with the first error that is true of it; an authorized snapshot leads to
   a reconciliation if it shows the requested state, else to the mutation, or to a rejection if the effect
   had been completed before.
   */
  lemma LiveReadAnswers(cfg: Config, s: System, fetch: Fetch, effect: EffectKey) returns (judged: Result<Evaluated, ActionError>)
    requires ValidConfig(cfg) && Reachable(cfg, s) && s.pc.Admitted? && AsksFor(s.pc.request.packet, effect)
    ensures var request, packet := s.pc.request, s.pc.request.packet;
            Next(cfg, s, ObserveLive(fetch)) == s.(pc :=
              match fetch
              case Unavailable =>
                Rejecting(request, Some(effect), PreconditionFailed(LiveStateUnavailable), RefusedPacket(packet.digest, LiveStateUnavailable))
              case Seen(live) =>
                match judged
                case Err(error) =>
                  Rejecting(request, Some(effect), PreconditionFailed(ActionRefused(error)), RefusedPacket(packet.digest, ActionRefused(error)))
                case Ok(evaluated) =>
                  if ShowsRequested(packet, live) then Satisfying(request, evaluated, live)
                  else if s.pc.completed then
                    Rejecting(request, Some(effect), PreconditionFailed(SemanticStateDrift), EvaluatedBefore(evaluated.before))
                  else Ready(request, evaluated))
    ensures var packet := s.pc.request.packet;
            fetch.Seen? ==>
              && (judged.Ok? <==> Authorized(cfg, packet, fetch.snapshot, true))
              && (judged.Ok? ==> Describes(packet, fetch.snapshot, judged.value))
              && (judged.Err? ==> IsReported(cfg, packet, fetch.snapshot, true, judged.error))
  {
    hide Core, Reachable, Evaluate, Desired, Authorized, ShowsRequested, Describes, Explains, NoneBetween, OnSubmit, OnCommitRecovery, OnAdmit,
         OnConclude, OnBegin, WellFormed, NoActiveAttempt, AsksFor, EffectOf, TargetsFitAction, RowOf;
    EveryReachableState(cfg, s);
    var packet := s.pc.request.packet;
    AcceptedIsShaped(cfg, packet, s.pc.request.started);
    EffectIsWhatIsAsked(packet, effect);
    judged := Err(PrNotOpen);
    if fetch.Seen? {
      var live := fetch.snapshot;
      judged := Evaluate(cfg, packet, live, true);
      EvaluateAcceptsIff(cfg, packet, live, true);
      if judged.Ok? {
        EvaluationDescribes(cfg, packet, live, true);
        SatisfiedIffDesired(cfg, packet, live);
        DesiredMeans(packet, live);
      } else {
        ErrorsAreExplained(cfg, packet, live, true);
        if judged.error != InvalidLiveSnapshot {
          ErrorsAreReportedInOrder(cfg, packet, live, true);
        }
      }
    }
  }

  // ----- recovery ------------------------------------------------------------------------------

  /** What recovery decides about an attempt, by what the live read and the clock show. */
  function RecoveryLeadsTo(cfg: Config, packet: Packet, pending: PendingAttempt, retryId: string, fetch: Fetch, now: int): Decision {
    match fetch
    case Unavailable => Unsure(RecoveryUnavailable, None)
    case Seen(live) =>
      if ShowsRequested(packet, live) then
        if Authorized(cfg, packet, live, true) then Confirm(live) else Unsure(RecoveryStateMismatch, Some(live))
      else if !Authorized(cfg, packet, live, false) then Unsure(RecoveryHeadOrStateChanged, Some(live))
      else if packet.expiresAt <= now then Unsure(PacketExpiredBeforeRetry, Some(live))
      else if 2 <= pending.attempts then Unsure(RetryExhausted, Some(live))
      else if pending.packetId == retryId then Absent(live)
      else Leave
  }

  /** The live read of recovery, from every reachable state: the attempt at hand gets the decision its evidence calls for. */
  lemma RecoveryReadAnswers(cfg: Config, s: System, fetch: Fetch, now: int)
    requires ValidConfig(cfg) && Reachable(cfg, s) && s.pc.Recovering? && s.pc.queue != []
    ensures s.pc.queue[0].packetId in s.store.packets
    ensures var request, pending := s.pc.request, s.pc.queue[0];
            var decision := RecoveryLeadsTo(cfg, s.store.packets[pending.packetId], pending, request.packet.id, fetch, now);
            Next(cfg, s, ObserveRecovery(fetch, now)) == s.(clock := now, pc := Decided(request, s.pc.queue, decision))
  {
    hide Core, Reachable, Evaluate, Desired, Authorized, ShowsRequested, OnSubmit, OnCommitRecovery, OnAdmit, OnConclude, OnBegin,
         OnObserveLive, WellFormed, Covers;
    EveryReachableState(cfg, s);
    assert ListsAttempt(s.store, s.pc.queue[0]);
    if fetch.Seen? {
      var packet := s.store.packets[s.pc.queue[0].packetId];
      EvaluateAcceptsIff(cfg, packet, fetch.snapshot, true);
      EvaluateAcceptsIff(cfg, packet, fetch.snapshot, false);
      DesiredMeans(packet, fetch.snapshot);
      if Evaluate(cfg, packet, fetch.snapshot, true).Ok? {
        SatisfiedIffDesired(cfg, packet, fetch.snapshot);
      }
    }
  }

  // ----- submission and the call ---------------------------------------------------------------

  /**
   A submission to an idle service: a malformed packet changes nothing, an answered one gets its stored receipt
   again if it is the stored packet and nothing if not, and any other request begins.
   */
  lemma SubmissionAnswers(cfg: Config, s: System, packet: Packet, now: int)
    requires ValidConfig(cfg) && Reachable(cfg, s) && s.pc.Idle?
    ensures var after, read := Next(cfg, s, Submit(packet, now)), s.(clock := now);
            && (!WellFormed(cfg, packet) ==> after == read)
            && (WellFormed(cfg, packet) && Unanswered(s.store, packet.id) ==> after == read.(pc := Started(Request(packet, now))))
            && (forall i | 0 <= i < |s.store.receipts| && s.store.receipts[i].packetId == packet.id && WellFormed(cfg, packet) ::
                  packet.id in s.store.packets &&
                  after == if s.store.packets[packet.id] == packet
                           then read.(log := s.log + [Replied(packet.id, s.store.receipts[i].receipt)])
                           else read)
  {
    hide LogOk, PhasesMatch, CircuitsMatch, EffectsOk, ChargesAccounted, BudgetLedger, Reachable, WellFormed, RowOf, Unanswered, OnAdmit, OnBegin,
         OnObserveLive, OnConclude, OnCommitRecovery;
    EveryReachableState(cfg, s);
    RowOfMeans(s.store.receipts, packet.id);
    AnsweredMeans(s.store, packet.id);
    forall i | 0 <= i < |s.store.receipts| && s.store.receipts[i].packetId == packet.id
      ensures packet.id in s.store.packets && RowOf(s.store.receipts, packet.id) == Some(s.store.receipts[i])
    {
      RowIsRowOf(s.store.receipts, i);
      assert RowBound(s.store, s.store.receipts[i]);
    }
  }

  /** The call and its readback: one call is logged, no table changes, and the execution is judged by the answer and the readback. */
  lemma CallAnswers(cfg: Config, s: System, effect: EffectKey, response: Response, readback: Fetch)
    requires ValidConfig(cfg) && Reachable(cfg, s) && s.pc.Charging? && AsksFor(s.pc.request.packet, effect)
    ensures var pc, packet := s.pc, s.pc.request.packet;
            var execution := JudgeExecution(cfg, packet, pc.evaluated, response, readback);
            Next(cfg, Next(cfg, s, CallGitHub), ReadBack(response, readback)) == s.(
              log := s.log + [Called(effect, packet.id, pc.attempt)],
              pc := Finishing(pc.request, pc.evaluated, pc.attempt, pc.attemptedAt, execution))
  {
    hide Core, Reachable, JudgeExecution, AsksFor, EffectOf, WellFormed, OnSubmit, OnAdmit, OnBegin, OnObserveLive, OnConclude, OnCommitRecovery;
    EveryReachableState(cfg, s);
    var packet := s.pc.request.packet;
    AcceptedIsShaped(cfg, packet, s.pc.request.started);
    EffectIsWhatIsAsked(packet, effect);
  }
}
