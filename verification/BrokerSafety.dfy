/** Every step of the broker keeps the invariant, so every run does. */
module BrokerSafety {
  import opened Outcomes
  import opened Packets
  import opened Actions
  import opened Receipts
  import opened StoreState
  import opened StoreInvariants
  import opened Lifecycle
  import opened BrokerInvariant

  // ----- the two kinds of recorded outcome -----------------------------------------------------

  /** A draft fit to end the attempt in the given state. */
  predicate EndsAttemptAs(draft: Draft, state: RowState, attempt: string) {
    && draft.mutation.operationId == attempt
    && match state
       case RowCompleted => draft.verdict == Succeeded && draft.mutation.status == Applied
       case RowReconciled => draft.verdict == Succeeded && draft.mutation.status == ReconciledMutation
       case RowIndeterminate => draft.verdict == Indeterminate && draft.mutation.status == IndeterminateMutation
       case RowRejected => false
  }

  predicate DraftEvidence(cfg: Config, packet: Packet, draft: Draft, evidence: Option<Snapshot>) {
    draft.verdict == Succeeded ==>
      && evidence.Some?
      && AcceptedAsSatisfied(cfg, packet, evidence.value)
      && draft.readback.isDraft == Some(evidence.value.pr.isDraft)
  }

  /** The active attempt of an effect, as the service holds it. */
  predicate HoldsAttempt(st: Store, effect: EffectKey, packet: Packet, attempt: string) {
    && effect in st.effects
    && st.effects[effect].active.Some?
    && st.effects[effect].active.value.key == attempt
    && st.effects[effect].active.value.packetId == packet.id
    && packet.id in st.packets && st.packets[packet.id] == packet
  }

  /**
   No wedge: the one-receipt-per-packet constraint never refuses the outcome of an active attempt.
   The only thing that can is a clock set back to more than the allowed skew before the packet's creation.
   */
  lemma ActiveAttemptCanTerminalize(cfg: Config, st: Store, log: seq<Event>, effect: EffectKey, packet: Packet,
                                    attempt: string, state: RowState, receipt: Receipt, now: int)
    requires Core(cfg, st, log) && HoldsAttempt(st, effect, packet, attempt) && Decisive(state)
    requires receipt.packetId == packet.id
    ensures RowOf(st.receipts, packet.id).None?
    ensures Terminalize(st, effect, packet.id, attempt, state, receipt, cfg.limits, now).Ok?
            <==> packet.createdAt <= now + MAX_CLOCK_SKEW_SECONDS
    ensures Terminalize(st, effect, packet.id, attempt, state, receipt, cfg.limits, now).Ok? ==>
              Terminalize(st, effect, packet.id, attempt, state, receipt, cfg.limits, now).value.1 == Inserted
  {
    hide LogOk, PhasesMatch, CircuitsMatch, RowsBound, ChargesAccounted, BudgetLedger;
    assert EffectOk(st, effect);
    ChainedReceiptIsNew(st.receipts, receipt);
  }

  /** A signed receipt that ends the attempt of its packet is a legitimate next row. */
  lemma AttemptRowFits(cfg: Config, st: Store, log: seq<Event>, effect: EffectKey, packet: Packet, attempt: string,
                       state: RowState, draft: Draft, evidence: Option<Snapshot>)
    requires Core(cfg, st, log) && Decisive(state) && HoldsAttempt(st, effect, packet, attempt)
    requires EndsAttemptAs(draft, state, attempt) && DraftEvidence(cfg, packet, draft, evidence)
    requires Build(cfg, packet, draft, HeadDigest(st.receipts)).Ok?
    ensures var row := ReceiptRow(packet.id, Some(effect), state, Build(cfg, packet, draft, HeadDigest(st.receipts)).value);
            && RowFits(st.receipts, row) && RowBound(st, row) && EvidenceSupports(cfg, row, packet, evidence)
            && row.receipt.mutation.operationId == attempt && row.receipt.packetId == packet.id
    ensures st.effects[effect].state == Pending
  {
    hide LogOk, PhasesMatch, CircuitsMatch, BudgetLedger, ChargesAccounted, Build, RowsBound, ReceiptLog, Evaluate;
    BuildKeepsDraft(cfg, packet, draft, HeadDigest(st.receipts));
    SuccessProvesTarget(cfg, packet, draft, HeadDigest(st.receipts));
    assert EffectOk(st, effect);
  }

  /** Terminalizing with such a receipt keeps the invariant and frees exactly this effect. */
  lemma TerminalizedKeeps(cfg: Config, st: Store, log: seq<Event>, effect: EffectKey, packet: Packet, attempt: string,
                          state: RowState, receipt: Receipt, evidence: Option<Snapshot>, now: int)
    requires Core(cfg, st, log) && ValidConfig(cfg) && Decisive(state) && HoldsAttempt(st, effect, packet, attempt)
    requires st.effects[effect].state == Pending
    requires var row := ReceiptRow(packet.id, Some(effect), state, receipt);
             && RowFits(st.receipts, row) && RowBound(st, row) && EvidenceSupports(cfg, row, packet, evidence)
             && receipt.mutation.operationId == attempt && receipt.packetId == packet.id
    requires Terminalize(st, effect, packet.id, attempt, state, receipt, cfg.limits, now).Ok?
    ensures var row := ReceiptRow(packet.id, Some(effect), state, receipt);
            var after := Terminalize(st, effect, packet.id, attempt, state, receipt, cfg.limits, now).value.0;
            var settled := Settled(effect, st.effects[effect].slug, Some(attempt), EffectStateOf(state));
            && Core(cfg, after, log + [settled] + [Recorded(row, packet, evidence)])
            && RowOf(after.receipts, packet.id) == Some(row)
            && after.packets == st.packets
            && RowAt(after, effect).active.None?
            && forall other | other != effect :: RowAt(after, other) == RowAt(st, other)
  {
    hide Core;
    var row := ReceiptRow(packet.id, Some(effect), state, receipt);
    SettleKeepsCore(cfg, st, log, row, packet, evidence);
    RowAppended(st.receipts, row);
  }

  lemma TerminalizeStepKeeps(cfg: Config, s: System, effect: EffectKey, packet: Packet, attempt: string, state: RowState,
                             draft: Draft, evidence: Option<Snapshot>, now: int)
    requires Core(cfg, s.store, s.log) && ValidConfig(cfg) && Decisive(state)
    requires HoldsAttempt(s.store, effect, packet, attempt)
    requires EndsAttemptAs(draft, state, attempt) && DraftEvidence(cfg, packet, draft, evidence)
    ensures var step := TerminalizeStep(cfg, s, effect, packet, attempt, state, draft, evidence, now);
            step.Some? ==>
              && Core(cfg, step.value.store, step.value.log)
              && step.value.pc == s.pc
              && RowOf(step.value.store.receipts, packet.id).Some?
              && step.value.store.packets == s.store.packets
              && RowAt(step.value.store, effect).active.None?
              && forall other | other != effect :: RowAt(step.value.store, other) == RowAt(s.store, other)
  {
    var built := Build(cfg, packet, draft, HeadDigest(s.store.receipts));
    if built.Ok? {
      AttemptRowFits(cfg, s.store, s.log, effect, packet, attempt, state, draft, evidence);
      ActiveAttemptCanTerminalize(cfg, s.store, s.log, effect, packet, attempt, state, built.value, now);
      if Terminalize(s.store, effect, packet.id, attempt, state, built.value, cfg.limits, now).Ok? {
        TerminalizedKeeps(cfg, s.store, s.log, effect, packet, attempt, state, built.value, evidence, now);
      }
    }
  }

  lemma ReplyKeeps(cfg: Config, s: System, packet: Packet, receipt: Receipt)
    requires Core(cfg, s.store, s.log)
    requires RowOf(s.store.receipts, packet.id).Some? && RowOf(s.store.receipts, packet.id).value.receipt == receipt
    ensures Inv(cfg, Reply(s, packet, receipt))
  {
    ReplyKeepsCore(cfg, s.store, s.log, packet.id, receipt);
  }

  /** A draft fit to record a packet outcome that made no call. */
  predicate RecordsPacketAs(draft: Draft, state: RowState) {
    && draft.mutation.operationId == ""
    && match state
       case RowReconciled => draft.verdict == Succeeded && draft.mutation.status == AlreadySatisfied
       case RowRejected => draft.verdict == Rejected && draft.mutation.status == NotAttempted
       case _ => false
  }

  lemma RecordStepKeeps(cfg: Config, s: System, request: Request, state: RowState, effect: Option<EffectKey>,
                        draft: Draft, evidence: Option<Snapshot>, now: int)
    requires Core(cfg, s.store, s.log) && ValidConfig(cfg)
    requires RequestOpen(cfg, s.store, request)
    requires effect.Some? ==> effect.value == EffectOf(request.packet)
    requires RecordsPacketAs(draft, state) && DraftEvidence(cfg, request.packet, draft, evidence)
    ensures Inv(cfg, RecordStep(cfg, s, request.packet, state, effect, draft, evidence, now))
  {
    var packet := request.packet;
    var built := Build(cfg, packet, draft, HeadDigest(s.store.receipts));
    if built.Ok? && RecordPacketReceipt(s.store, packet.id, state, built.value, effect, cfg.limits, now).Ok? {
      PacketRowFits(cfg, s.store, s.log, request, state, effect, draft, evidence, now);
      RecordOutcomeKeeps(cfg, s, packet, state, effect, built.value, evidence, now);
    }
  }

  /** A signed packet outcome for an open request is a legitimate next row. */
  lemma PacketRowFits(cfg: Config, st: Store, log: seq<Event>, request: Request, state: RowState, effect: Option<EffectKey>,
                      draft: Draft, evidence: Option<Snapshot>, now: int)
    requires Core(cfg, st, log) && RequestOpen(cfg, st, request)
    requires effect.Some? ==> effect.value == EffectOf(request.packet)
    requires RecordsPacketAs(draft, state) && DraftEvidence(cfg, request.packet, draft, evidence)
    requires Build(cfg, request.packet, draft, HeadDigest(st.receipts)).Ok?
    requires RecordPacketReceipt(st, request.packet.id, state, Build(cfg, request.packet, draft, HeadDigest(st.receipts)).value,
                                 effect, cfg.limits, now).Ok?
    ensures var packet := request.packet;
            var row := ReceiptRow(packet.id, effect, state, Build(cfg, packet, draft, HeadDigest(st.receipts)).value);
            && RowFits(st.receipts, row) && RowBound(st, row) && EvidenceSupports(cfg, row, packet, evidence)
            && row.receipt.mutation.operationId == ""
  {
    hide LogOk, PhasesMatch, CircuitsMatch, BudgetLedger, ChargesAccounted, Build, RecordPacketReceipt, Evaluate, RowsBound, ReceiptLog;
    var packet := request.packet;
    var receipt := Build(cfg, packet, draft, HeadDigest(st.receipts)).value;
    BuildKeepsDraft(cfg, packet, draft, HeadDigest(st.receipts));
    SuccessProvesTarget(cfg, packet, draft, HeadDigest(st.receipts));
    RecordInserts(cfg, st, packet, state, effect, receipt, now);
    assert EffectOk(st, EffectOf(packet));
  }

  /** The store's answer to recording an open request's first receipt, and the row it inserts. */
  lemma RecordInserts(cfg: Config, st: Store, packet: Packet, state: RowState, effect: Option<EffectKey>, receipt: Receipt, now: int)
    requires RowOf(st.receipts, packet.id).None?
    requires RecordPacketReceipt(st, packet.id, state, receipt, effect, cfg.limits, now).Ok?
    ensures var row := ReceiptRow(packet.id, effect, state, receipt);
            var recorded := st.(receipts := st.receipts + [row]);
            && (state == RowReconciled ==> effect.Some? && effect.value in st.effects && st.effects[effect.value].state != EffectIndeterminate)
            && (state == RowReconciled && st.effects[effect.value].state == Pending ==> st.effects[effect.value].active.None?)
            && RecordPacketReceipt(st, packet.id, state, receipt, effect, cfg.limits, now).value ==
                 (if state == RowReconciled && st.effects[effect.value].state == Pending
                  then SettleEffect(recorded, effect.value, Reconciled, cfg.limits) else recorded, Inserted)
  {
  }

  lemma RecordOutcomeKeeps(cfg: Config, s: System, packet: Packet, state: RowState, effect: Option<EffectKey>,
                           receipt: Receipt, evidence: Option<Snapshot>, now: int)
    requires Core(cfg, s.store, s.log) && ValidConfig(cfg)
    requires RowOf(s.store.receipts, packet.id).None? && NoActiveAttempt(s.store, packet.id)
    requires RecordPacketReceipt(s.store, packet.id, state, receipt, effect, cfg.limits, now).Ok?
    requires var row := ReceiptRow(packet.id, effect, state, receipt);
             && RowFits(s.store.receipts, row) && RowBound(s.store, row) && EvidenceSupports(cfg, row, packet, evidence)
             && receipt.mutation.operationId == ""
    requires state in {RowReconciled, RowRejected}
    ensures var store := RecordPacketReceipt(s.store, packet.id, state, receipt, effect, cfg.limits, now).value.0;
            var row := ReceiptRow(packet.id, effect, state, receipt);
            var settles := state == RowReconciled && effect.Some? && effect.value in s.store.effects
                           && s.store.effects[effect.value].state == Pending;
            var settled := if settles then [Settled(effect.value, s.store.effects[effect.value].slug, None, Reconciled)] else [];
            && Inv(cfg, Reply(s.(store := store, log := s.log + settled + [Recorded(row, packet, evidence)]), packet, receipt))
            && RecordPacketReceipt(s.store, packet.id, state, receipt, effect, cfg.limits, now).value.1 == Inserted
  {
    hide Core;
    var st := s.store;
    var row := ReceiptRow(packet.id, effect, state, receipt);
    RecordInserts(cfg, st, packet, state, effect, receipt, now);
    RowAppended(st.receipts, row);
    var store := RecordPacketReceipt(st, packet.id, state, receipt, effect, cfg.limits, now).value.0;
    if state == RowReconciled && st.effects[effect.value].state == Pending {
      SettleKeepsCore(cfg, st, s.log, row, packet, evidence);
      var log := s.log + [SettlingOf(st, effect.value, Reconciled)] + [Recorded(row, packet, evidence)];
      ReplyKeeps(cfg, s.(store := store, log := log), packet, receipt);
    } else {
      RecordKeepsCore(cfg, st, s.log, row, packet, evidence);
      assert s.log + [] + [Recorded(row, packet, evidence)] == s.log + [Recorded(row, packet, evidence)];
      ReplyKeeps(cfg, s.(store := store, log := s.log + [Recorded(row, packet, evidence)]), packet, receipt);
    }
  }

  // ----- steps, one control point at a time ----------------------------------------------------

  lemma SubmitKeeps(cfg: Config, s: System, packet: Packet, now: int)
    requires Inv(cfg, s) && s.pc.Idle?
    ensures Inv(cfg, OnSubmit(cfg, s, packet, now))
  {
    hide Core;
    var row := RowOf(s.store.receipts, packet.id);
    if row.Some? {
      ReplyKeeps(cfg, s.(clock := now), packet, row.value.receipt);
    }
  }

  lemma ListPendingKeeps(cfg: Config, s: System, queue: seq<PendingAttempt>)
    requires Inv(cfg, s) && s.pc.Started? && IsPendingListing(s.store, queue)
    ensures Inv(cfg, s.(pc := Recovering(s.pc.request, queue)))
  {
    forall effect | RowAt(s.store, effect).active.Some?
      ensures Listed(queue, effect)
    {
      assert EffectOk(s.store, effect);
    }
  }

  /** What recovery decides is supported by the snapshot it read; the "inconsistent" error cannot happen. */
  lemma DecideSupported(cfg: Config, packet: Packet, row: PendingAttempt, retryId: string, fetch: Fetch, now: int)
    ensures Decide(cfg, packet, row, retryId, fetch, now).Some?
    ensures DecisionOk(cfg, packet, row, retryId, Decide(cfg, packet, row, retryId, fetch, now).value)
  {
    if fetch.Seen? && Evaluate(cfg, packet, fetch.snapshot, true).Ok? {
      SatisfiedIffDesired(cfg, packet, fetch.snapshot);
    }
  }

  lemma ObserveRecoveryKeeps(cfg: Config, s: System, fetch: Fetch, now: int)
    requires Inv(cfg, s) && s.pc.Recovering? && s.pc.queue != []
    ensures Inv(cfg, OnObserveRecovery(cfg, s, fetch, now))
  {
    var row := s.pc.queue[0];
    assert ListsAttempt(s.store, row);
    DecideSupported(cfg, s.store.packets[row.packetId], row, s.pc.request.packet.id, fetch, now);
  }

  /** The rest of the queue stays valid when only the head's effect changes and loses its attempt. */
  lemma QueueAdvances(before: Store, after: Store, queue: seq<PendingAttempt>, packetId: string)
    requires queue != [] && QueueOk(before, queue) && Covers(before, queue, packetId)
    requires after.packets == before.packets
    requires forall other | other != queue[0].effect :: RowAt(after, other) == RowAt(before, other)
    requires RowAt(after, queue[0].effect).active.Some? ==> RowAt(after, queue[0].effect).active.value.packetId != packetId
    ensures QueueOk(after, queue[1..]) && Covers(after, queue[1..], packetId)
  {
    forall i | 0 <= i < |queue[1..]| ensures ListsAttempt(after, queue[1..][i]) {
      assert ListsAttempt(before, queue[i + 1]);
      assert queue[0].effect != queue[i + 1].effect;
      assert RowAt(after, queue[i + 1].effect) == RowAt(before, queue[i + 1].effect);
      assert RowAt(after, queue[i + 1].effect).active.Some?;
    }
    forall effect | RowAt(after, effect).active.Some? && RowAt(after, effect).active.value.packetId == packetId
      ensures Listed(queue[1..], effect)
    {
      assert Listed(queue, effect);
      var i :| 0 <= i < |queue| && queue[i].effect == effect;
      assert queue[1..][i - 1].effect == effect;
    }
  }

  lemma CommitRecoveryKeeps(cfg: Config, s: System, now: int)
    requires Inv(cfg, s) && ValidConfig(cfg) && s.pc.Decided? && s.pc.queue != []
    ensures Inv(cfg, OnCommitRecovery(cfg, s, now))
  {
    hide LogOk, PhasesMatch, CircuitsMatch, ReceiptLog, RowsBound, ChargesAccounted, BudgetLedger, TerminalizeStep, Evaluate;
    var read := s.(clock := now);
    var row := s.pc.queue[0];
    var retryId := s.pc.request.packet.id;
    var packet := s.store.packets[row.packetId];
    assert ListsAttempt(s.store, row);
    assert EffectOk(s.store, row.effect);
    assert packet.id == row.packetId;
    match s.pc.decision {
      case Leave =>
        QueueAdvances(s.store, s.store, s.pc.queue, retryId);
      case Absent(live) =>
        var result := ReconcileAbsent(s.store, row.effect, row.packetId, row.attempt, row.head, now);
        if result.Ok? {
          AbsentKeepsCore(cfg, s.store, s.log, row, live, now);
          QueueAdvances(s.store, result.value, s.pc.queue, retryId);
        }
      case Unsure(_, readback) =>
        var draft := RecoveryDraft(packet, row, s.pc.decision, now);
        TerminalizeStepKeeps(cfg, read, row.effect, packet, row.attempt, RowIndeterminate, draft, readback, now);
        var step := TerminalizeStep(cfg, read, row.effect, packet, row.attempt, RowIndeterminate, draft, readback, now);
        if step.Some? {
          QueueAdvances(s.store, step.value.store, s.pc.queue, retryId);
        }
      case Confirm(live) =>
        var draft := RecoveryDraft(packet, row, s.pc.decision, now);
        TerminalizeStepKeeps(cfg, read, row.effect, packet, row.attempt, RowReconciled, draft, Some(live), now);
        var step := TerminalizeStep(cfg, read, row.effect, packet, row.attempt, RowReconciled, draft, Some(live), now);
        if step.Some? {
          QueueAdvances(s.store, step.value.store, s.pc.queue, retryId);
        }
    }
  }

  /** A transaction that moves no effect, circuit, receipt or charge leaves every log view as it was. */
  lemma ViewsTransfer(cfg: Config, st: Store, after: Store, log: seq<Event>)
    requires Core(cfg, st, log) && StoreOk(cfg.limits, after)
    requires forall effect :: RowAt(after, effect).(slug := "") == RowAt(st, effect).(slug := "")
    requires after.circuits == st.circuits && after.receipts == st.receipts
    requires LedgerCharges(after.events) == LedgerCharges(st.events) && PacketsWellFormed(cfg, after)
    ensures Core(cfg, after, log)
    ensures forall effect :: RowAt(after, effect).active == RowAt(st, effect).active
  {
    forall effect
      ensures PhaseMatches(RowAt(after, effect), Track(log, effect))
      ensures RowAt(after, effect).active == RowAt(st, effect).active
    {
      assert PhaseMatches(RowAt(st, effect), Track(log, effect));
      assert RowAt(after, effect).(slug := "") == RowAt(st, effect).(slug := "");
    }
    forall key ensures CircuitMatches(cfg.limits, after, log, key) {
      assert CircuitMatches(cfg.limits, st, log, key);
    }
  }

  lemma AcceptKeepsCore(cfg: Config, st: Store, log: seq<Event>, packet: Packet, now: int)
    requires Core(cfg, st, log) && WellFormed(cfg, packet) && IdentityValid(packet, now)
    requires AcceptPacket(st, packet, cfg.limits, now).Ok?
    ensures Core(cfg, AcceptPacket(st, packet, cfg.limits, now).value, log)
  {
    hide StoreOk, LogOk, PhasesMatch, CircuitsMatch;
    AcceptPacketKeeps(st, packet, cfg.limits, now);
    var after := AcceptPacket(st, packet, cfg.limits, now).value;
    LedgerAppended(st.events, RequestCharge(packet.slug, packet.action, now, packet.id));
    assert forall effect :: RowAt(after, effect) == RowAt(st, effect);
    ViewsTransfer(cfg, st, after, log);
  }

  lemma AdmitEffectKeepsCore(cfg: Config, st: Store, log: seq<Event>, packet: Packet)
    requires Core(cfg, st, log) && TargetsFitAction(packet) && AdmitEffect(st, packet).Ok?
    ensures Core(cfg, AdmitEffect(st, packet).value, log)
    ensures forall effect :: RowAt(AdmitEffect(st, packet).value, effect).active == RowAt(st, effect).active
  {
    AdmitEffectKeeps(cfg.limits, st, packet);
    ViewsTransfer(cfg, st, AdmitEffect(st, packet).value, log);
  }

  /** Reserving adds at most a packet, a request charge and a blank effect; no attempt changes. */
  lemma ReserveKeepsCore(cfg: Config, st: Store, log: seq<Event>, packet: Packet, now: int)
    requires Core(cfg, st, log) && WellFormed(cfg, packet) && Reserve(st, packet, cfg.limits, now).Ok?
    ensures var after := Reserve(st, packet, cfg.limits, now).value.0;
            && Core(cfg, after, log)
            && packet.id in after.packets && after.packets[packet.id] == packet
            && EffectOf(packet) in after.effects && after.effects[EffectOf(packet)].slug == packet.slug
            && after.receipts == st.receipts
            && forall effect :: RowAt(after, effect).active == RowAt(st, effect).active
  {
    AcceptPacketKeeps(st, packet, cfg.limits, now);
    AcceptKeepsCore(cfg, st, log, packet, now);
    var accepted := AcceptPacket(st, packet, cfg.limits, now).value;
    AdmitEffectKeeps(cfg.limits, accepted, packet);
    AdmitEffectKeepsCore(cfg, accepted, log, packet);
    assert forall effect :: RowAt(accepted, effect) == RowAt(st, effect);
  }

  /** Once the queue is empty, the packet being handled has no active attempt. */
  lemma EmptyQueueClears(st: Store, packetId: string)
    requires Covers(st, [], packetId)
    ensures NoActiveAttempt(st, packetId)
  {
  }

  /** A reservation for a request without receipt or active attempt opens it. */
  lemma ReserveOpens(cfg: Config, st: Store, log: seq<Event>, request: Request)
    requires Core(cfg, st, log) && Accepted(cfg, request.packet, request.started)
    requires RowOf(st.receipts, request.packet.id).None? && NoActiveAttempt(st, request.packet.id)
    requires Reserve(st, request.packet, cfg.limits, request.started).Ok?
    ensures var result := Reserve(st, request.packet, cfg.limits, request.started).value;
            Core(cfg, result.0, log) && RequestOpen(cfg, result.0, request) && !result.1.ReceiptReplay?
  {
    hide Core;
    ReserveKeepsCore(cfg, st, log, request.packet, request.started);
  }

  /** Reserving never reports corruption: a terminal effect always has the receipt that made it so. */
  lemma ReserveFindsReceipt(cfg: Config, st: Store, log: seq<Event>, packet: Packet, now: int)
    requires Core(cfg, st, log)
    ensures Reserve(st, packet, cfg.limits, now) != Err(StoreCorruption)
  {
    hide LogOk, PhasesMatch, CircuitsMatch, ReceiptLog, RowsBound, ChargesAccounted, BudgetLedger;
    if IdentityValid(packet, now) && AcceptPacket(st, packet, cfg.limits, now).Ok? {
      AcceptPacketKeeps(st, packet, cfg.limits, now);
      var accepted := AcceptPacket(st, packet, cfg.limits, now).value;
      if AdmitEffect(accepted, packet).Ok? {
        AdmitEffectKeeps(cfg.limits, accepted, packet);
        assert EffectOk(AdmitEffect(accepted, packet).value, EffectOf(packet));
        DecidedHasReceipt(st.receipts, EffectOf(packet));
      }
    }
  }

  lemma ReservedKeeps(cfg: Config, s: System, result: Result<(Store, Reservation), StoreError>)
    requires Inv(cfg, s) && s.pc.Recovering?
    requires result.Ok? ==>
               && Core(cfg, result.value.0, s.log) && RequestOpen(cfg, result.value.0, s.pc.request)
               && !result.value.1.ReceiptReplay?
    ensures Inv(cfg, OnReserved(s, result))
  {
    hide Core;
  }

  lemma AdmitKeeps(cfg: Config, s: System)
    requires Inv(cfg, s) && s.pc.Recovering? && s.pc.queue == []
    ensures Inv(cfg, OnAdmit(cfg, s))
  {
    hide Reserve, OnReserved, Covers;
    var request := s.pc.request;
    var packet := request.packet;
    var row := RowOf(s.store.receipts, packet.id);
    if row.Some? {
      ReplyKeeps(cfg, s, packet, row.value.receipt);
    } else if Accepted(cfg, packet, request.started) {
      EmptyQueueClears(s.store, packet.id);
      var result := Reserve(s.store, packet, cfg.limits, request.started);
      if result.Ok? {
        ReserveOpens(cfg, s.store, s.log, request);
      }
      ReservedKeeps(cfg, s, result);
    }
  }

  lemma ObserveLiveKeeps(cfg: Config, s: System, fetch: Fetch)
    requires s.pc.Admitted? && TargetsFitAction(s.pc.request.packet)
    requires Inv(cfg, s)
    ensures Inv(cfg, OnObserveLive(cfg, s, fetch))
  {
    hide Core;
    if fetch.Seen? && Evaluate(cfg, s.pc.request.packet, fetch.snapshot, true).Ok? {
      assert JudgeSurroundings(cfg, s.pc.request.packet, fetch.snapshot, true).Ok?;
    }
  }

  /** A charge commits together with its event, and the call that may follow it has not been made. */
  lemma ChargedKeeps(cfg: Config, st: Store, log: seq<Event>, request: Request, attempt: string, precondition: Precondition, now: int)
    requires Core(cfg, st, log) && ValidConfig(cfg) && RequestOpen(cfg, st, request)
    requires var begun := BeginMutation(st, EffectOf(request.packet), request.packet.id, attempt, precondition, cfg.limits, now);
             begun.Ok? && begun.value.1 == ChargedNow
    ensures var packet := request.packet;
            var effect := EffectOf(packet);
            var after := BeginMutation(st, effect, packet.id, attempt, precondition, cfg.limits, now).value.0;
            var log' := log + [Charged(effect, st.effects[effect].slug, packet.id, attempt)];
            && Core(cfg, after, log')
            && Track(log', effect).InFlight? && !Track(log', effect).called
            && ChargeId(effect, packet.id, attempt) in LoggedCharges(log')
            && after.packets == st.packets && effect in after.effects
            && after.effects[effect].active == Some(Attempt(attempt, packet.id, precondition, now))
  {
    hide StoreOk, LogOk, CircuitsMatch, NoActiveAttempt, WellFormed, LedgerCharges, LoggedRows, RowOf, LatestDecision, AttemptUsed, MutationBudget;
    var packet := request.packet;
    var effect := EffectOf(packet);
    ChargeKeepsCore(cfg, st, log, effect, packet.id, attempt, precondition, now);
    var event := Charged(effect, st.effects[effect].slug, packet.id, attempt);
    LogAppended(log, event);
    assert PhaseMatches(RowAt(st, effect), Track(log, effect));
    assert PhaseMatches(RowAt(Charge(st, effect, packet.id, attempt, precondition, cfg.limits, now).value, effect), Track(log + [event], effect));
  }

  /** For an open request, starting is never answered with another attempt's charge or with an exhausted retry. */
  lemma OpenRequestStarts(cfg: Config, st: Store, log: seq<Event>, request: Request, attempt: string, precondition: Precondition, now: int)
    requires Core(cfg, st, log) && RequestOpen(cfg, st, request)
    ensures var begun := BeginMutation(st, EffectOf(request.packet), request.packet.id, attempt, precondition, cfg.limits, now);
            begun.Ok? ==> begun.value.1 != AlreadyCharged && !begun.value.1.StartReplay?
    ensures RowAt(st, EffectOf(request.packet)).state == Pending && RowAt(st, EffectOf(request.packet)).active.None? ==>
              RowAt(st, EffectOf(request.packet)).attempts < 2
    ensures RowAt(st, EffectOf(request.packet)).state != Pending ==> LatestDecision(st.receipts, EffectOf(request.packet)).Some?
  {
    hide LogOk, PhasesMatch, CircuitsMatch, ReceiptLog, RowsBound, ChargesAccounted, BudgetLedger, MutationBudget;
    var effect := EffectOf(request.packet);
    assert EffectOk(st, effect);
    DecidedHasReceipt(st.receipts, effect);
  }

  lemma BegunKeeps(cfg: Config, s: System, result: Result<(Store, Start), StoreError>, attempt: string, now: int)
    requires Inv(cfg, s) && s.pc.Ready?
    requires result.Ok? ==> result.value.1 != AlreadyCharged && !result.value.1.StartReplay?
    requires result.Ok? && result.value.1 == ChargedNow ==>
               var packet := s.pc.request.packet;
               var effect := EffectOf(packet);
               var log' := s.log + [Charged(effect, s.store.effects[effect].slug, packet.id, attempt)];
               var after := result.value.0;
               && Core(cfg, after, log')
               && Track(log', effect).InFlight? && !Track(log', effect).called
               && ChargeId(effect, packet.id, attempt) in LoggedCharges(log')
               && after.packets == s.store.packets && effect in after.effects
               && after.effects[effect].active ==
                    Some(Attempt(attempt, packet.id, EvaluatedBefore(s.pc.evaluated.before), now))
    ensures Inv(cfg, OnBegun(s, result, attempt, now))
  {
    hide Core;
    var after := OnBegun(s, result, attempt, now);
    if result.Ok? && result.value.1 == ChargedNow {
      assert after.pc == Charging(s.pc.request, s.pc.evaluated, attempt, now);
      assert Core(cfg, after.store, after.log);
    } else {
      assert after.store == s.store && after.log == s.log;
      assert after.pc.Rejecting? || after.pc.Idle?;
    }
  }

  lemma BeginKeeps(cfg: Config, s: System, attempt: string, now: int)
    requires s.pc.Ready? && TargetsFitAction(s.pc.request.packet)
    requires Inv(cfg, s) && ValidConfig(cfg)
    ensures Inv(cfg, OnBegin(cfg, s, attempt, now))
  {
    hide Core, BeginMutation, OnBegun;
    var request := s.pc.request;
    var precondition := EvaluatedBefore(s.pc.evaluated.before);
    var begun := BeginMutation(s.store, EffectOf(request.packet), request.packet.id, attempt, precondition, cfg.limits, now);
    OpenRequestStarts(cfg, s.store, s.log, request, attempt, precondition, now);
    if begun.Ok? && begun.value.1 == ChargedNow {
      ChargedKeeps(cfg, s.store, s.log, request, attempt, precondition, now);
    }
    BegunKeeps(cfg, s.(clock := now), begun, attempt, now);
  }

  lemma CallKeeps(cfg: Config, s: System)
    requires s.pc.Charging? && TargetsFitAction(s.pc.request.packet)
    requires Inv(cfg, s)
    ensures Inv(cfg, OnCall(s))
  {
    var packet := s.pc.request.packet;
    assert EffectOk(s.store, EffectOf(packet));
    CallKeepsCore(cfg, s.store, s.log, EffectOf(packet), packet.id, s.pc.attempt);
  }

  lemma ReadBackKeeps(cfg: Config, s: System, response: Response, readback: Fetch)
    requires Inv(cfg, s) && s.pc.Calling?
    ensures Inv(cfg, OnReadBack(cfg, s, response, readback))
  {
    hide Core, Evaluate;
    var packet := s.pc.request.packet;
    if JudgeExecution(cfg, packet, s.pc.evaluated, response, readback).Verified? {
      VerifiedMeansSatisfied(cfg, packet, s.pc.evaluated, response, readback);
    }
  }

  lemma FinishKeeps(cfg: Config, s: System, now: int)
    requires s.pc.Finishing? && TargetsFitAction(s.pc.request.packet)
    requires Inv(cfg, s) && ValidConfig(cfg)
    ensures Inv(cfg, OnFinish(cfg, s, now))
  {
    hide LogOk, PhasesMatch, CircuitsMatch, ReceiptLog, RowsBound, ChargesAccounted, BudgetLedger, TerminalizeStep, Evaluate;
    var packet := s.pc.request.packet;
    var verified := s.pc.execution.Verified?;
    var state := if verified then RowCompleted else RowIndeterminate;
    var evidence := if verified then Some(s.pc.execution.after) else None;
    var draft := FinishDraft(packet, s.pc, now);
    assert EffectOk(s.store, EffectOf(packet));
    TerminalizeStepKeeps(cfg, s, EffectOf(packet), packet, s.pc.attempt, state, draft, evidence, now);
    var step := TerminalizeStep(cfg, s, EffectOf(packet), packet, s.pc.attempt, state, draft, evidence, now);
    if step.Some? {
      ReplyKeeps(cfg, step.value, packet, RowOf(step.value.store.receipts, packet.id).value.receipt);
    }
  }

  lemma ConcludeKeeps(cfg: Config, s: System, now: int)
    requires (s.pc.Rejecting? || s.pc.Satisfying? || s.pc.Finishing?) && TargetsFitAction(s.pc.request.packet)
    requires Inv(cfg, s) && ValidConfig(cfg)
    ensures Inv(cfg, OnConclude(cfg, s, now))
  {
    hide Core, RecordStep, OnFinish;
    var read := s.(clock := now);
    var request := s.pc.request;
    match s.pc {
      case Rejecting(_, effect, reason, precondition) =>
        RecordStepKeeps(cfg, read, request, RowRejected, effect,
                        RejectionDraft(request.started, now, reason, precondition), None, now);
      case Satisfying(_, evaluated, live) =>
        RecordStepKeeps(cfg, read, request, RowReconciled, Some(EffectOf(request.packet)),
                        SatisfiedDraft(request.packet, request.started, now, evaluated, live), Some(live), now);
      case Finishing(_, _, _, _, _) =>
        FinishKeeps(cfg, read, now);
    }
  }

  // ----- all steps, all runs -------------------------------------------------------------------

  /** One step of any kind, from any state that satisfies the invariant. */
  lemma NextKeeps(cfg: Config, s: System, input: Input)
    requires ValidConfig(cfg) && Inv(cfg, s)
    ensures Inv(cfg, Next(cfg, s, input))
  {
    hide Core, OnSubmit, OnObserveRecovery, OnCommitRecovery, OnAdmit, OnObserveLive, OnBegin, OnCall, OnReadBack, OnConclude;
    match input {
      case Crash =>
      case OperatorCloses(slug, action) => CloseKeeps(cfg, s, slug, action);
      case Submit(packet, now) => if s.pc.Idle? { SubmitKeeps(cfg, s, packet, now); }
      case ListPending(queue) =>
        if s.pc.Started? && IsPendingListing(s.store, queue) { ListPendingKeeps(cfg, s, queue); }
      case ObserveRecovery(fetch, now) =>
        if s.pc.Recovering? && s.pc.queue != [] { ObserveRecoveryKeeps(cfg, s, fetch, now); }
      case CommitRecovery(now) => if s.pc.Decided? && s.pc.queue != [] { CommitRecoveryKeeps(cfg, s, now); }
      case Admit => if s.pc.Recovering? && s.pc.queue == [] { AdmitKeeps(cfg, s); }
      case ObserveLive(fetch) => if s.pc.Admitted? && TargetsFitAction(s.pc.request.packet) { ObserveLiveKeeps(cfg, s, fetch); }
      case Begin(attempt, now) => if s.pc.Ready? && TargetsFitAction(s.pc.request.packet) { BeginKeeps(cfg, s, attempt, now); }
      case CallGitHub => if s.pc.Charging? && TargetsFitAction(s.pc.request.packet) { CallKeeps(cfg, s); }
      case ReadBack(response, readback) => if s.pc.Calling? { ReadBackKeeps(cfg, s, response, readback); }
      case Conclude(now) =>
        if (s.pc.Rejecting? || s.pc.Satisfying? || s.pc.Finishing?) && TargetsFitAction(s.pc.request.packet) {
          ConcludeKeeps(cfg, s, now);
        }
    }
  }

  /** An operator may close a circuit between any two steps. */
  lemma CloseKeeps(cfg: Config, s: System, slug: string, action: Action)
    requires ValidConfig(cfg) && Inv(cfg, s)
    ensures Inv(cfg, Next(cfg, s, OperatorCloses(slug, action)))
  {
    hide Core, PcOk;
    var after := CloseCircuit(s.store, slug, action);
    var event := CircuitClosed(slug, action);
    CloseKeepsCore(cfg, s.store, s.log, slug, action);
    LogAppended(s.log, event);
    assert forall effect :: RowAt(after, effect) == RowAt(s.store, effect);
    PcSurvivesClose(cfg, s, after, s.log + [event]);
  }

  /** Closing a circuit disturbs no control point. */
  lemma PcSurvivesClose(cfg: Config, s: System, after: Store, log: seq<Event>)
    requires PcOk(cfg, s)
    requires after == s.store.(circuits := after.circuits)
    requires forall effect :: Track(log, effect) == Track(s.log, effect)
    requires LoggedCharges(log) == LoggedCharges(s.log)
    ensures PcOk(cfg, s.(store := after, log := log))
  {
    hide Evaluate, Track, LoggedCharges;
    assert forall effect :: RowAt(after, effect) == RowAt(s.store, effect);
    match s.pc {
      case Recovering(_, queue) =>
        assert forall i | 0 <= i < |queue| :: ListsAttempt(s.store, queue[i]) ==> ListsAttempt(after, queue[i]);
      case Decided(_, queue, _) =>
        assert forall i | 0 <= i < |queue| :: ListsAttempt(s.store, queue[i]) ==> ListsAttempt(after, queue[i]);
      case _ =>
    }
  }

  /** Every run, with crashes, restarts, clock jumps and live-state changes anywhere, satisfies the invariant. */
  lemma {:induction false} EveryRun(cfg: Config, inputs: seq<Input>)
    requires ValidConfig(cfg)
    ensures Inv(cfg, Exec(cfg, inputs))
  {
    hide Next;
    if inputs == [] {
      forall effect ensures EffectOk(EMPTY_STORE, effect) {}
    } else {
      var prefix := inputs[..|inputs| - 1];
      EveryRun(cfg, prefix);
      NextKeeps(cfg, Exec(cfg, prefix), inputs[|inputs| - 1]);
    }
  }

  lemma EveryReachableState(cfg: Config, s: System)
    requires ValidConfig(cfg) && Reachable(cfg, s)
    ensures Inv(cfg, s)
  {
    hide Next, Exec, Inv, IsRun;
    ReachableIffExec(cfg, s);
    var inputs :| Exec(cfg, inputs) == s;
    EveryRun(cfg, inputs);
  }
}
