/**
 The invariant of every reachable state of the broker, and its preservation by every step.
 The log is read through folds over its prefixes; each fold has a counterpart in the database.
 */
module BrokerInvariant {
  import opened Outcomes
  import opened Packets
  import opened Actions
  import opened Receipts
  import opened StoreState
  import opened StoreInvariants
  import opened Lifecycle

  // ----- the life of one effect ----------------------------------------------------------------

  /**
   Where an effect stands: `InFlight` while a charged attempt is unresolved (the nth, called or not yet
   called), `Cleared` after an attempt was proved absent, `Done` once it left pending.
   */
  datatype Phase =
    | Fresh
    | InFlight(nth: nat, attempt: string, called: bool)
    | Cleared(attempt: string)
    | Done
    | Broken

  function EventEffect(event: Event): Option<EffectKey> {
    match event
    case Charged(effect, _, _, _) => Some(effect)
    case Called(effect, _, _) => Some(effect)
    case FoundAbsent(effect, _, _, _, _) => Some(effect)
    case Settled(effect, _, _, _) => Some(effect)
    case _ => None
  }

  /** The only order of events the broker may produce for one effect; anything else is Broken for ever. */
  function Advance(phase: Phase, event: Event): Phase {
    match event
    case Charged(_, _, _, attempt) =>
      if phase.Fresh? then InFlight(1, attempt, false)
      else if phase.Cleared? && phase.attempt != attempt then InFlight(2, attempt, false)
      else Broken
    case Called(_, _, attempt) =>
      if phase.InFlight? && phase.attempt == attempt && !phase.called then InFlight(phase.nth, attempt, true) else Broken
    case FoundAbsent(_, _, attempt, _, _) =>
      if phase.InFlight? && phase.attempt == attempt && phase.nth == 1 then Cleared(attempt) else Broken
    case Settled(_, _, ended, _) =>
      if phase.InFlight? && ended == Some(phase.attempt) then Done
      else if (phase.Fresh? || phase.Cleared?) && ended.None? then Done
      else Broken
    case _ => phase
  }

  function Track(log: seq<Event>, effect: EffectKey): Phase {
    if log == [] then Fresh
    else
      var before := Track(log[..|log| - 1], effect);
      var last := log[|log| - 1];
      if EventEffect(last) == Some(effect) then Advance(before, last) else before
  }

  // ----- other views of the log ----------------------------------------------------------------

  /** Indeterminate settlements of an instance and action since its last other settlement or operator close. */
  function TrailingRun(log: seq<Event>, key: CircuitKey): nat {
    if log == [] then 0
    else
      var before := TrailingRun(log[..|log| - 1], key);
      match log[|log| - 1]
      case Settled(effect, slug, _, state) =>
        if CircuitKey(slug, ActionOf(effect)) != key then before
        else if state == EffectIndeterminate then before + 1 else 0
      case CircuitClosed(slug, action) => if CircuitKey(slug, action) == key then 0 else before
      case _ => before
  }

  function LoggedRows(log: seq<Event>): seq<ReceiptRow> {
    if log == [] then []
    else
      var last := log[|log| - 1];
      LoggedRows(log[..|log| - 1]) + if last.Recorded? then [last.row] else []
  }

  datatype ChargeId = ChargeId(effect: EffectKey, packetId: string, attempt: string)

  function LoggedCharges(log: seq<Event>): seq<ChargeId> {
    if log == [] then []
    else
      var last := log[|log| - 1];
      LoggedCharges(log[..|log| - 1])
      + if last.Charged? then [ChargeId(last.effect, last.packetId, last.attempt)] else []
  }

  function LedgerCharges(events: seq<BudgetEvent>): seq<ChargeId> {
    if events == [] then []
    else
      var last := events[|events| - 1];
      LedgerCharges(events[..|events| - 1])
      + if last.MutationCharge? then [ChargeId(last.effect, last.packetId, last.attempt)] else []
  }

  // ----- what an event may say -----------------------------------------------------------------

  predicate AcceptedAsSatisfied(cfg: Config, packet: Packet, live: Snapshot) {
    && Evaluate(cfg, packet, live, true).Ok?
    && Evaluate(cfg, packet, live, true).value.alreadySatisfied
  }

  predicate AcceptedAsAbsent(cfg: Config, packet: Packet, live: Snapshot) {
    Evaluate(cfg, packet, live, false).Ok? && !Desired(packet, live)
  }

  /** A recorded success rests on a snapshot accepted as satisfied, and shows exactly what that snapshot showed. */
  predicate EvidenceSupports(cfg: Config, row: ReceiptRow, packet: Packet, evidence: Option<Snapshot>) {
    && packet.id == row.packetId
    && TargetsFitAction(packet)
    && (row.effect.Some? ==> row.effect.value == EffectOf(packet))
    && (row.receipt.verdict == Succeeded ==>
          && evidence.Some?
          && AcceptedAsSatisfied(cfg, packet, evidence.value)
          && row.receipt.head == packet.pr.head
          && row.receipt.readback.head == Some(packet.pr.head)
          && row.receipt.readback.isDraft == Some(evidence.value.pr.isDraft)
          && row.receipt.readback.resolved == packet.threadIds)
  }

  /** What each event says about the moment it happened, given everything logged before it. */
  predicate EventFitsLog(cfg: Config, before: seq<Event>, event: Event) {
    match event
    case Charged(effect, slug, _, _) =>
      TrailingRun(before, CircuitKey(slug, ActionOf(effect))) < cfg.limits.indeterminateLimit
    case Called(effect, packetId, attempt) => ChargeId(effect, packetId, attempt) in LoggedCharges(before)
    case FoundAbsent(effect, packetId, _, packet, live) =>
      && packet.id == packetId && TargetsFitAction(packet) && EffectOf(packet) == effect
      && AcceptedAsAbsent(cfg, packet, live)
    case Recorded(row, packet, evidence) => EvidenceSupports(cfg, row, packet, evidence)
    case Replied(packetId, receipt) =>
      RowOf(LoggedRows(before), packetId).Some? && RowOf(LoggedRows(before), packetId).value.receipt == receipt
    case _ => true
  }

  predicate LogOk(cfg: Config, log: seq<Event>) {
    log == [] || (LogOk(cfg, log[..|log| - 1]) && EventFitsLog(cfg, log[..|log| - 1], log[|log| - 1]))
  }

  // ----- database and log agree ----------------------------------------------------------------

  predicate PhaseMatches(row: Effect, phase: Phase) {
    if row.state != Pending then phase == Done
    else if row.active.Some? then phase.InFlight? && phase.attempt == row.active.value.key && phase.nth == row.attempts
    else if row.absence.Some? then phase == Cleared(row.absence.value.attempt)
    else phase == Fresh
  }

  ghost predicate PhasesMatch(st: Store, log: seq<Event>) {
    forall effect :: PhaseMatches(RowAt(st, effect), Track(log, effect))
  }

  predicate CircuitMatches(limits: Limits, st: Store, log: seq<Event>, key: CircuitKey) {
    if key in st.circuits then
      && st.circuits[key].count == TrailingRun(log, key)
      && (st.circuits[key].isOpen <==> TrailingRun(log, key) >= limits.indeterminateLimit)
    else TrailingRun(log, key) == 0
  }

  ghost predicate CircuitsMatch(limits: Limits, st: Store, log: seq<Event>) {
    forall key :: CircuitMatches(limits, st, log, key)
  }

  /** Only packets the protocol layer accepts are ever stored. */
  predicate PacketsWellFormed(cfg: Config, st: Store) {
    forall id | id in st.packets :: WellFormed(cfg, st.packets[id])
  }

  /** Everything that holds whatever the control point. */
  ghost predicate Core(cfg: Config, st: Store, log: seq<Event>) {
    && StoreOk(cfg.limits, st)
    && LogOk(cfg, log)
    && PhasesMatch(st, log)
    && CircuitsMatch(cfg.limits, st, log)
    && LoggedRows(log) == st.receipts
    && LoggedCharges(log) == LedgerCharges(st.events)
    && PacketsWellFormed(cfg, st)
  }

  // ----- the control point ---------------------------------------------------------------------

  /** No attempt of this packet is active. */
  ghost predicate NoActiveAttempt(st: Store, packetId: string) {
    forall effect :: RowAt(st, effect).active.Some? ==> RowAt(st, effect).active.value.packetId != packetId
  }

  predicate QueueOk(st: Store, queue: seq<PendingAttempt>) {
    && (forall i | 0 <= i < |queue| :: ListsAttempt(st, queue[i]))
    && (forall i, j | 0 <= i < j < |queue| :: queue[i].effect != queue[j].effect)
  }

  /** Every active attempt of the packet is still in the queue. */
  ghost predicate Covers(st: Store, queue: seq<PendingAttempt>, packetId: string) {
    forall effect :: RowAt(st, effect).active.Some? && RowAt(st, effect).active.value.packetId == packetId ==> Listed(queue, effect)
  }

  predicate DecisionOk(cfg: Config, packet: Packet, row: PendingAttempt, retryId: string, decision: Decision) {
    match decision
    case Unsure(_, _) => true
    case Confirm(live) => AcceptedAsSatisfied(cfg, packet, live)
    case Absent(live) => AcceptedAsAbsent(cfg, packet, live) && row.packetId == retryId && row.attempts < 2
    case Leave => row.packetId != retryId
  }

  /** The request was accepted, is unanswered and has no active attempt. */
  ghost predicate RequestOpen(cfg: Config, st: Store, request: Request) {
    var packet := request.packet;
    && Accepted(cfg, packet, request.started)
    && packet.id in st.packets && st.packets[packet.id] == packet
    && RowOf(st.receipts, packet.id).None?
    && NoActiveAttempt(st, packet.id)
    && EffectOf(packet) in st.effects && st.effects[EffectOf(packet)].slug == packet.slug
  }

  predicate EvaluatedFits(packet: Packet, evaluated: Evaluated) {
    && evaluated.action == packet.action
    && evaluated.head == packet.pr.head
    && evaluated.target == (if packet.action == ResolveReviewThread && packet.threadIds != [] then Some(packet.threadIds[0]) else None)
  }

  /** The request holds the active attempt of its effect. */
  predicate RequestCharged(cfg: Config, st: Store, request: Request, evaluated: Evaluated, attempt: string, attemptedAt: int) {
    var packet := request.packet;
    && Accepted(cfg, packet, request.started)
    && packet.id in st.packets && st.packets[packet.id] == packet
    && EffectOf(packet) in st.effects
    && st.effects[EffectOf(packet)].active == Some(Attempt(attempt, packet.id, EvaluatedBefore(evaluated.before), attemptedAt))
    && EvaluatedFits(packet, evaluated)
  }

  predicate RejectionReason(reason: Reason) {
    reason.PreconditionFailed? || reason.BudgetExhausted? || reason.CircuitRefused?
  }

  ghost predicate PcOk(cfg: Config, s: System) {
    match s.pc
    case Idle => true
    case Started(request) => WellFormed(cfg, request.packet)
    case Recovering(request, queue) =>
      WellFormed(cfg, request.packet) && QueueOk(s.store, queue) && Covers(s.store, queue, request.packet.id)
    case Decided(request, queue, decision) =>
      && WellFormed(cfg, request.packet) && QueueOk(s.store, queue) && Covers(s.store, queue, request.packet.id)
      && queue != []
      && DecisionOk(cfg, s.store.packets[queue[0].packetId], queue[0], request.packet.id, decision)
    case Admitted(request, _) => RequestOpen(cfg, s.store, request)
    case Rejecting(request, effect, reason, _) =>
      && RequestOpen(cfg, s.store, request)
      && (effect.Some? ==> effect.value == EffectOf(request.packet))
      && RejectionReason(reason)
    case Satisfying(request, evaluated, live) =>
      && RequestOpen(cfg, s.store, request)
      && Evaluate(cfg, request.packet, live, true) == Ok(evaluated) && evaluated.alreadySatisfied
    case Ready(request, evaluated) => RequestOpen(cfg, s.store, request) && EvaluatedFits(request.packet, evaluated)
    case Charging(request, evaluated, attempt, attemptedAt) =>
      && RequestCharged(cfg, s.store, request, evaluated, attempt, attemptedAt)
      && Track(s.log, EffectOf(request.packet)).InFlight?
      && !Track(s.log, EffectOf(request.packet)).called
      && ChargeId(EffectOf(request.packet), request.packet.id, attempt) in LoggedCharges(s.log)
    case Calling(request, evaluated, attempt, attemptedAt) =>
      RequestCharged(cfg, s.store, request, evaluated, attempt, attemptedAt)
    case Finishing(request, evaluated, attempt, attemptedAt, execution) =>
      && RequestCharged(cfg, s.store, request, evaluated, attempt, attemptedAt)
      && (execution.Verified? ==>
            AcceptedAsSatisfied(cfg, request.packet, execution.after) && ConfirmedReadback(request.packet, execution.after))
  }

  ghost predicate Inv(cfg: Config, s: System) {
    Core(cfg, s.store, s.log) && PcOk(cfg, s)
  }

  // ----- appending to the log ------------------------------------------------------------------

  lemma LogAppended(log: seq<Event>, event: Event)
    ensures (log + [event])[..|log|] == log
    ensures forall effect :: Track(log + [event], effect) ==
              if EventEffect(event) == Some(effect) then Advance(Track(log, effect), event) else Track(log, effect)
    ensures forall key :: TrailingRun(log + [event], key) ==
              match event
              case Settled(effect, slug, _, state) =>
                if CircuitKey(slug, ActionOf(effect)) != key then TrailingRun(log, key)
                else if state == EffectIndeterminate then TrailingRun(log, key) + 1 else 0
              case CircuitClosed(slug, action) => if CircuitKey(slug, action) == key then 0 else TrailingRun(log, key)
              case _ => TrailingRun(log, key)
    ensures LoggedRows(log + [event]) == LoggedRows(log) + if event.Recorded? then [event.row] else []
    ensures LoggedCharges(log + [event]) ==
              LoggedCharges(log) + if event.Charged? then [ChargeId(event.effect, event.packetId, event.attempt)] else []
  {
  }

  lemma LogOkAppended(cfg: Config, log: seq<Event>, event: Event)
    requires LogOk(cfg, log) && EventFitsLog(cfg, log, event)
    ensures LogOk(cfg, log + [event])
  {
  }

  lemma LedgerAppended(events: seq<BudgetEvent>, event: BudgetEvent)
    ensures LedgerCharges(events + [event]) ==
              LedgerCharges(events) + if event.MutationCharge? then [ChargeId(event.effect, event.packetId, event.attempt)] else []
  {
  }

  /** Events that only inform (replies) leave every view of the log as it was. */
  lemma ReplyKeepsCore(cfg: Config, st: Store, log: seq<Event>, packetId: string, receipt: Receipt)
    requires Core(cfg, st, log)
    requires RowOf(st.receipts, packetId).Some? && RowOf(st.receipts, packetId).value.receipt == receipt
    ensures Core(cfg, st, log + [Replied(packetId, receipt)])
  {
    var event := Replied(packetId, receipt);
    LogAppended(log, event);
    LogOkAppended(cfg, log, event);
    forall key ensures CircuitMatches(cfg.limits, st, log + [event], key) {
      assert CircuitMatches(cfg.limits, st, log, key);
    }
    forall effect ensures PhaseMatches(RowAt(st, effect), Track(log + [event], effect)) {
      assert PhaseMatches(RowAt(st, effect), Track(log, effect));
    }
  }

  // ----- transactions, with their events -------------------------------------------------------

  /** The event of an effect leaving pending. */
  function SettlingOf(st: Store, effect: EffectKey, state: EffectState): Event
    requires effect in st.effects
  {
    var row := st.effects[effect];
    Settled(effect, row.slug, if row.active.Some? then Some(row.active.value.key) else None, state)
  }

  lemma SettleKeepsCircuits(limits: Limits, st: Store, log: seq<Event>, effect: EffectKey, state: EffectState)
    requires effect in st.effects && CircuitsMatch(limits, st, log) && 1 <= limits.indeterminateLimit
    ensures CircuitsMatch(limits, SettleEffect(st, effect, state, limits), log + [SettlingOf(st, effect, state)])
  {
    LogAppended(log, SettlingOf(st, effect, state));
    forall key
      ensures CircuitMatches(limits, SettleEffect(st, effect, state, limits), log + [SettlingOf(st, effect, state)], key)
    {
      assert CircuitMatches(limits, st, log, key);
    }
  }

  lemma SettleKeepsPhases(limits: Limits, st: Store, log: seq<Event>, effect: EffectKey, state: EffectState)
    requires effect in st.effects && PhasesMatch(st, log)
    requires st.effects[effect].state == Pending && state != Pending
    ensures PhasesMatch(SettleEffect(st, effect, state, limits), log + [SettlingOf(st, effect, state)])
  {
  }

  /** Recording a row adds it to the logged rows and leaves phases and circuits alone. */
  lemma RecordedKeepsViews(cfg: Config, st: Store, log: seq<Event>, row: ReceiptRow, packet: Packet, evidence: Option<Snapshot>)
    requires LogOk(cfg, log) && PhasesMatch(st, log) && CircuitsMatch(cfg.limits, st, log)
    requires EvidenceSupports(cfg, row, packet, evidence)
    ensures var after := log + [Recorded(row, packet, evidence)];
            && LogOk(cfg, after) && PhasesMatch(st, after) && CircuitsMatch(cfg.limits, st, after)
            && LoggedRows(after) == LoggedRows(log) + [row] && LoggedCharges(after) == LoggedCharges(log)
  {
    var event := Recorded(row, packet, evidence);
    LogAppended(log, event);
    LogOkAppended(cfg, log, event);
    forall key ensures CircuitMatches(cfg.limits, st, log + [event], key) {
      assert CircuitMatches(cfg.limits, st, log, key);
    }
    forall effect ensures PhaseMatches(RowAt(st, effect), Track(log + [event], effect)) {
      assert PhaseMatches(RowAt(st, effect), Track(log, effect));
    }
  }

  /** Settling an effect and recording the receipt that did it keeps every view of the log. */
  lemma SettleKeepsViews(cfg: Config, st: Store, log: seq<Event>, row: ReceiptRow, packet: Packet, evidence: Option<Snapshot>,
                         effect: EffectKey, state: EffectState)
    requires LogOk(cfg, log) && PhasesMatch(st, log) && CircuitsMatch(cfg.limits, st, log) && ValidConfig(cfg)
    requires effect in st.effects && st.effects[effect].state == Pending && state != Pending
    requires EvidenceSupports(cfg, row, packet, evidence)
    ensures var after := SettleEffect(st, effect, state, cfg.limits);
            var final := log + [SettlingOf(st, effect, state)] + [Recorded(row, packet, evidence)];
            && LogOk(cfg, final) && PhasesMatch(after, final) && CircuitsMatch(cfg.limits, after, final)
            && LoggedRows(final) == LoggedRows(log) + [row] && LoggedCharges(final) == LoggedCharges(log)
  {
    var settling := SettlingOf(st, effect, state);
    LogAppended(log, settling);
    LogOkAppended(cfg, log, settling);
    SettleKeepsCircuits(cfg.limits, st, log, effect, state);
    SettleKeepsPhases(cfg.limits, st, log, effect, state);
    RecordedKeepsViews(cfg, SettleEffect(st, effect, state, cfg.limits), log + [settling], row, packet, evidence);
  }

  /** Adding receipt rows alone moves neither phases nor circuits. */
  lemma RowsKeepViews(limits: Limits, st: Store, after: Store, log: seq<Event>)
    requires PhasesMatch(st, log) && CircuitsMatch(limits, st, log)
    requires after.effects == st.effects && after.circuits == st.circuits
    ensures PhasesMatch(after, log) && CircuitsMatch(limits, after, log)
  {
    forall effect ensures PhaseMatches(RowAt(after, effect), Track(log, effect)) {
      assert PhaseMatches(RowAt(st, effect), Track(log, effect));
    }
    forall key ensures CircuitMatches(limits, after, log, key) {
      assert CircuitMatches(limits, st, log, key);
    }
  }

  /** A receipt whose effect (if any) is already settled, or that decides nothing. */
  lemma RecordKeepsCore(cfg: Config, st: Store, log: seq<Event>, row: ReceiptRow, packet: Packet, evidence: Option<Snapshot>)
    requires Core(cfg, st, log)
    requires RowFits(st.receipts, row) && RowBound(st, row) && EvidenceSupports(cfg, row, packet, evidence)
    requires row.effect.Some? && Decisive(row.state) ==> st.effects[row.effect.value].state != Pending
    requires NoActiveAttempt(st, row.packetId)
    ensures Core(cfg, st.(receipts := st.receipts + [row]), log + [Recorded(row, packet, evidence)])
  {
    RowKeeps(cfg.limits, st, row);
    RowsKeepViews(cfg.limits, st, st.(receipts := st.receipts + [row]), log);
    RecordedKeepsViews(cfg, st.(receipts := st.receipts + [row]), log, row, packet, evidence);
  }

  /** A receipt that settles its pending effect. */
  lemma SettleKeepsCore(cfg: Config, st: Store, log: seq<Event>, row: ReceiptRow, packet: Packet, evidence: Option<Snapshot>)
    requires Core(cfg, st, log) && ValidConfig(cfg)
    requires RowFits(st.receipts, row) && RowBound(st, row) && EvidenceSupports(cfg, row, packet, evidence)
    requires row.effect.Some? && Decisive(row.state) && st.effects[row.effect.value].state == Pending
    requires var active := st.effects[row.effect.value].active;
             if active.Some? then active.value.packetId == row.packetId && row.receipt.mutation.operationId == active.value.key
             else row.receipt.mutation.operationId == ""
    ensures var effect := row.effect.value;
            var state := EffectStateOf(row.state);
            Core(cfg, SettleEffect(st.(receipts := st.receipts + [row]), effect, state, cfg.limits),
                 log + [SettlingOf(st, effect, state)] + [Recorded(row, packet, evidence)])
  {
    var recorded := st.(receipts := st.receipts + [row]);
    SettleKeeps(cfg.limits, st, row);
    RowsKeepViews(cfg.limits, st, recorded, log);
    SettleKeepsViews(cfg, recorded, log, row, packet, evidence, row.effect.value, EffectStateOf(row.state));
  }

  /** Events other than settlements and operator closes leave the circuits matching. */
  lemma CircuitsUntouched(limits: Limits, st: Store, after: Store, log: seq<Event>, event: Event)
    requires CircuitsMatch(limits, st, log) && after.circuits == st.circuits
    requires !event.Settled? && !event.CircuitClosed?
    ensures CircuitsMatch(limits, after, log + [event])
  {
    LogAppended(log, event);
    forall key ensures CircuitMatches(limits, after, log + [event], key) {
      assert CircuitMatches(limits, st, log, key);
    }
  }

  /** An event of one effect moves only that effect's phase. */
  lemma PhasesMove(st: Store, after: Store, log: seq<Event>, effect: EffectKey, event: Event)
    requires PhasesMatch(st, log) && EventEffect(event) == Some(effect)
    requires forall other | other != effect :: RowAt(after, other) == RowAt(st, other)
    requires PhaseMatches(RowAt(after, effect), Advance(Track(log, effect), event))
    ensures PhasesMatch(after, log + [event])
  {
  }

  /** A second charge uses a key the ledger has not seen, so it differs from the attempt found absent. */
  lemma ChargeAdvances(st: Store, log: seq<Event>, effect: EffectKey, attempt: string)
    requires EffectOk(st, effect) && PhaseMatches(RowAt(st, effect), Track(log, effect))
    requires RowAt(st, effect).state == Pending && RowAt(st, effect).active.None?
    requires !AttemptUsed(st.events, effect, attempt)
    ensures forall slug, id :: Advance(Track(log, effect), Charged(effect, slug, id, attempt))
                               == InFlight(RowAt(st, effect).attempts + 1, attempt, false)
  {
    if RowAt(st, effect).absence.Some? && RowAt(st, effect).absence.value.attempt == attempt {
      ChargedAttemptIsUsed(st.events, RowAt(st, effect).absence.value.packetId, effect, attempt);
    }
  }

  lemma ChargeKeepsCore(cfg: Config, st: Store, log: seq<Event>, effect: EffectKey, packetId: string, attempt: string,
                        precondition: Precondition, now: int)
    requires Core(cfg, st, log) && ValidConfig(cfg)
    requires effect in st.effects && st.effects[effect].state == Pending && st.effects[effect].active.None? && attempt != ""
    requires RowOf(st.receipts, packetId).None? && BelongsTo(st, packetId, effect, now, false).Pass?
    requires Charge(st, effect, packetId, attempt, precondition, cfg.limits, now).Ok?
    ensures Core(cfg, Charge(st, effect, packetId, attempt, precondition, cfg.limits, now).value,
                 log + [Charged(effect, st.effects[effect].slug, packetId, attempt)])
  {
    hide ReceiptLog, RowsBound, ChargesAccounted, BudgetLedger, PacketsOk;
    var after := Charge(st, effect, packetId, attempt, precondition, cfg.limits, now).value;
    var slug := st.effects[effect].slug;
    var event := Charged(effect, slug, packetId, attempt);
    var charge := MutationCharge(slug, ActionOf(effect), now, packetId, effect, attempt);
    ChargeKeeps(st, effect, packetId, attempt, precondition, cfg.limits, now);
    assert after.events == st.events + [charge];
    LedgerAppended(st.events, charge);
    CircuitClosedMeansBelow(cfg, st, log, slug, ActionOf(effect));
    LogAppended(log, event);
    LogOkAppended(cfg, log, event);
    CircuitsUntouched(cfg.limits, st, after, log, event);
    assert EffectOk(st, effect) && PhaseMatches(RowAt(st, effect), Track(log, effect));
    ChargeAdvances(st, log, effect, attempt);
    PhasesMove(st, after, log, effect, event);
  }

  lemma CircuitClosedMeansBelow(cfg: Config, st: Store, log: seq<Event>, slug: string, action: Action)
    requires Core(cfg, st, log) && !CircuitIsOpen(st, slug, action)
    requires 1 <= cfg.limits.indeterminateLimit
    ensures TrailingRun(log, CircuitKey(slug, action)) < cfg.limits.indeterminateLimit
  {
    hide StoreOk, LogOk, PhasesMatch;
    assert CircuitMatches(cfg.limits, st, log, CircuitKey(slug, action));
  }

  lemma AbsentKeepsCore(cfg: Config, st: Store, log: seq<Event>, row: PendingAttempt, live: Snapshot, now: int)
    requires Core(cfg, st, log) && ListsAttempt(st, row)
    requires TargetsFitAction(st.packets[row.packetId]) && AcceptedAsAbsent(cfg, st.packets[row.packetId], live)
    requires ReconcileAbsent(st, row.effect, row.packetId, row.attempt, row.head, now).Ok?
    ensures Core(cfg, ReconcileAbsent(st, row.effect, row.packetId, row.attempt, row.head, now).value,
                 log + [FoundAbsent(row.effect, row.packetId, row.attempt, st.packets[row.packetId], live)])
  {
    hide ReceiptLog, RowsBound, ChargesAccounted, BudgetLedger;
    var after := ReconcileAbsent(st, row.effect, row.packetId, row.attempt, row.head, now).value;
    var packet := st.packets[row.packetId];
    var event := FoundAbsent(row.effect, row.packetId, row.attempt, packet, live);
    assert EffectOk(st, row.effect);
    AbsentKeeps(cfg.limits, st, row.effect, row.packetId, row.attempt, row.head, now);
    LogAppended(log, event);
    LogOkAppended(cfg, log, event);
    forall circuit ensures CircuitMatches(cfg.limits, after, log + [event], circuit) {
      assert CircuitMatches(cfg.limits, st, log, circuit);
    }
    forall other ensures PhaseMatches(RowAt(after, other), Track(log + [event], other)) {
      assert PhaseMatches(RowAt(st, other), Track(log, other));
    }
  }

  lemma CallKeepsCore(cfg: Config, st: Store, log: seq<Event>, effect: EffectKey, packetId: string, attempt: string)
    requires Core(cfg, st, log) && ChargeId(effect, packetId, attempt) in LoggedCharges(log)
    requires RowAt(st, effect).state == Pending
    requires RowAt(st, effect).active.Some? && RowAt(st, effect).active.value.key == attempt
    requires Track(log, effect).InFlight? && !Track(log, effect).called
    ensures Core(cfg, st, log + [Called(effect, packetId, attempt)])
  {
    var event := Called(effect, packetId, attempt);
    LogAppended(log, event);
    LogOkAppended(cfg, log, event);
    forall circuit ensures CircuitMatches(cfg.limits, st, log + [event], circuit) {
      assert CircuitMatches(cfg.limits, st, log, circuit);
    }
    forall other ensures PhaseMatches(RowAt(st, other), Track(log + [event], other)) {
      assert PhaseMatches(RowAt(st, other), Track(log, other));
    }
  }

  lemma CloseKeepsStore(limits: Limits, st: Store, slug: string, action: Action)
    requires StoreOk(limits, st)
    ensures StoreOk(limits, CloseCircuit(st, slug, action))
  {
    var after := CloseCircuit(st, slug, action);
    forall other ensures EffectOk(after, other) {
      assert EffectOk(st, other);
      EffectUntouched(st, after, other);
    }
    RowsBoundPersist(st, after);
    ChargesUntouched(st, after);
  }

  lemma CloseKeepsCore(cfg: Config, st: Store, log: seq<Event>, slug: string, action: Action)
    requires Core(cfg, st, log) && ValidConfig(cfg)
    ensures Core(cfg, CloseCircuit(st, slug, action), log + [CircuitClosed(slug, action)])
  {
    var after := CloseCircuit(st, slug, action);
    var event := CircuitClosed(slug, action);
    CloseKeepsStore(cfg.limits, st, slug, action);
    LogAppended(log, event);
    LogOkAppended(cfg, log, event);
    forall circuit ensures CircuitMatches(cfg.limits, after, log + [event], circuit) {
      assert CircuitMatches(cfg.limits, st, log, circuit);
    }
    forall other ensures PhaseMatches(RowAt(after, other), Track(log + [event], other)) {
      assert PhaseMatches(RowAt(st, other), Track(log, other));
    }
  }
}
