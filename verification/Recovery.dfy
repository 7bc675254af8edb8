/** What one recovery of a pending attempt leaves behind (broker/john_lomein_broker_service.py, _recover_one). */
module Recovery {
  import opened Outcomes
  import opened Packets
  import opened Actions
  import opened Receipts
  import opened StoreState
  import opened StoreInvariants
  import opened StoreEvolution
  import opened Lifecycle
  import opened BrokerInvariant
  import opened BrokerSafety
  import opened BrokerGuarantees
  import opened ReceiptChain

  /** The attempt ended: its effect is terminal and its packet's receipt names the attempt and that outcome. */
  predicate EndedAs(st: Store, row: PendingAttempt, state: RowState) {
    && row.effect in st.effects
    && st.effects[row.effect].active.None?
    && st.effects[row.effect].state == EffectStateOf(state)
    && var ending := RowOf(st.receipts, row.packetId);
    && ending.Some?
    && ending.value.effect == Some(row.effect)
    && ending.value.state == state
    && ending.value.receipt.mutation.operationId == row.attempt
  }

  /** The attempt was found to have had no effect, and one more may be charged. */
  predicate ClearedAsAbsent(st: Store, row: PendingAttempt) {
    && row.effect in st.effects
    && var effect := st.effects[row.effect];
    && effect.state == Pending && effect.active.None? && effect.absence.Some?
    && effect.absence.value.attempt == row.attempt && effect.absence.value.packetId == row.packetId
    && effect.attempts == row.attempts < 2
  }

  /** What recovery read shows the attempt unexpired, retriable and strictly evaluated as unsatisfied. */
  predicate Awaited(cfg: Config, packet: Packet, row: PendingAttempt, fetch: Fetch, now: int) {
    fetch.Seen? && AcceptedAsAbsent(cfg, packet, fetch.snapshot) && now < packet.expiresAt && row.attempts < 2
  }

  /** What recovery read shows the requested state, authorized. */
  predicate ShownSatisfied(cfg: Config, packet: Packet, fetch: Fetch) {
    fetch.Seen? && AcceptedAsSatisfied(cfg, packet, fetch.snapshot)
  }

  /** How a pending attempt comes out of recovery, given the snapshot and the clock its step read. */
  predicate Resolved(cfg: Config, packet: Packet, after: Store, row: PendingAttempt, retryId: string, fetch: Fetch, now: int) {
    if !Awaited(cfg, packet, row, fetch, now) then
      EndedAs(after, row, if ShownSatisfied(cfg, packet, fetch) then RowReconciled else RowIndeterminate)
    else if row.packetId == retryId then ClearedAsAbsent(after, row)
    else ListsAttempt(after, row)
  }

  /** Observing live state and committing the decision for the head of the queue. */
  function RecoverHead(cfg: Config, s: System, fetch: Fetch, now: int, later: int): System {
    Next(cfg, Next(cfg, s, ObserveRecovery(fetch, now)), CommitRecovery(later))
  }

  lemma TerminalizeStepEnds(cfg: Config, s: System, row: PendingAttempt, packet: Packet, state: RowState, draft: Draft,
                            evidence: Option<Snapshot>, now: int)
    requires Core(cfg, s.store, s.log) && ValidConfig(cfg) && ListsAttempt(s.store, row)
    requires packet == s.store.packets[row.packetId] && packet.id == row.packetId
    requires state in {RowReconciled, RowIndeterminate} && draft.mutation.operationId == row.attempt
    ensures var step := TerminalizeStep(cfg, s, row.effect, packet, row.attempt, state, draft, evidence, now);
            step.Some? ==>
              && EndedAs(step.value.store, row, state)
              && (forall other | other != row.effect :: RowAt(step.value.store, other) == RowAt(s.store, other))
  {
    hide LogOk, PhasesMatch, CircuitsMatch, StoreOk, Build, BelongsTo, PacketsWellFormed, LoggedRows, LoggedCharges, LedgerCharges, RowOf;
    var built := Build(cfg, packet, draft, HeadDigest(s.store.receipts));
    if built.Ok? {
      BuildKeepsDraft(cfg, packet, draft, HeadDigest(s.store.receipts));
      var ending := ReceiptRow(packet.id, Some(row.effect), state, built.value);
      RowAppended(s.store.receipts, ending);
    }
  }

  /** Which decision recovery takes, said of what it read. */
  lemma DecisionFollows(cfg: Config, packet: Packet, row: PendingAttempt, retryId: string, fetch: Fetch, now: int)
    ensures var decision := Decide(cfg, packet, row, retryId, fetch, now);
            && decision.Some?
            && (decision.value.Absent? <==> Awaited(cfg, packet, row, fetch, now) && row.packetId == retryId)
            && (decision.value.Leave? <==> Awaited(cfg, packet, row, fetch, now) && row.packetId != retryId)
            && (decision.value.Confirm? <==> ShownSatisfied(cfg, packet, fetch))
  {
    hide Evaluate, Desired;
    if fetch.Seen? {
      if Evaluate(cfg, packet, fetch.snapshot, true).Ok? {
        SatisfiedIffDesired(cfg, packet, fetch.snapshot);
      }
      if Evaluate(cfg, packet, fetch.snapshot, false).Ok? {
        StrictImpliesLenient(cfg, packet, fetch.snapshot);
      }
    }
  }

  /** Committing the decision resolves the head of the queue. */
  lemma CommitResolves(cfg: Config, s: System, fetch: Fetch, at: int, now: int)
    requires Inv(cfg, s) && ValidConfig(cfg) && s.pc.Decided? && s.pc.queue != []
    requires var row := s.pc.queue[0];
             row.packetId in s.store.packets &&
             Decide(cfg, s.store.packets[row.packetId], row, s.pc.request.packet.id, fetch, at) == Some(s.pc.decision)
    ensures var row := s.pc.queue[0];
            var after := OnCommitRecovery(cfg, s, now);
            after.pc.Idle? ||
            (&& after.pc == Recovering(s.pc.request, s.pc.queue[1..])
             && Resolved(cfg, s.store.packets[row.packetId], after.store, row, s.pc.request.packet.id, fetch, at)
             && (forall other | other != row.effect :: RowAt(after.store, other) == RowAt(s.store, other)))
  {
    hide LogOk, PhasesMatch, CircuitsMatch, RowsBound, ChargesAccounted, BudgetLedger, TerminalizeStep, ReceiptLog, Covers,
         EndedAs, Awaited, ShownSatisfied, Decide;
    var row := s.pc.queue[0];
    assert ListsAttempt(s.store, row);
    assert EffectOk(s.store, row.effect);
    var packet := s.store.packets[row.packetId];
    assert packet.id == row.packetId;
    DecisionFollows(cfg, packet, row, s.pc.request.packet.id, fetch, at);
    var read := s.(clock := now);
    match s.pc.decision {
      case Leave =>
      case Absent(_) =>
      case Unsure(_, readback) =>
        TerminalizeStepEnds(cfg, read, row, packet, RowIndeterminate, RecoveryDraft(packet, row, s.pc.decision, now), readback, now);
      case Confirm(live) =>
        TerminalizeStepEnds(cfg, read, row, packet, RowReconciled, RecoveryDraft(packet, row, s.pc.decision, now), Some(live), now);
    }
  }

  /**
   A recovery step that does not raise resolves the head of the queue by the snapshot and clock it read, and
   touches no other effect.  An attempt that they show unexpired, retriable and strictly unsatisfied is
   reconciled absent if it is the requester's and left alone otherwise; any other ends with a receipt,
   reconciled if they show the requested state and indeterminate if not.
   */
  lemma RecoveryResolves(cfg: Config, s: System, fetch: Fetch, now: int, later: int)
    requires Inv(cfg, s) && ValidConfig(cfg) && s.pc.Recovering? && s.pc.queue != []
    ensures var row := s.pc.queue[0];
            var after := RecoverHead(cfg, s, fetch, now, later);
            row.packetId in s.store.packets &&
            (after.pc.Idle? ||
             (&& after.pc == Recovering(s.pc.request, s.pc.queue[1..])
              && Resolved(cfg, s.store.packets[row.packetId], after.store, row, s.pc.request.packet.id, fetch, now)
              && (forall other | other != row.effect :: RowAt(after.store, other) == RowAt(s.store, other))))
    ensures Extends(s.store, RecoverHead(cfg, s, fetch, now, later).store)
  {
    hide Core, QueueOk, Covers, Decide, Resolved, OnCommitRecovery, OnConclude, OnAdmit, OnBegin, OnObserveLive, OnSubmit;
    HeadListed(cfg, s);
    var mid := Next(cfg, s, ObserveRecovery(fetch, now));
    ObserveRecoveryKeeps(cfg, s, fetch, now);
    StepExtends(cfg, mid, CommitRecovery(later));
    if mid.pc.Decided? {
      CommitResolves(cfg, mid, fetch, now, later);
    }
  }

  lemma HeadListed(cfg: Config, s: System)
    requires Inv(cfg, s) && s.pc.Recovering? && s.pc.queue != []
    ensures var row := s.pc.queue[0];
            ListsAttempt(s.store, row) && s.store.packets[row.packetId].id == row.packetId
  {
  }

  /** A resolved attempt stays resolved while recovery goes on to other effects. */
  lemma ResolutionPersists(cfg: Config, packet: Packet, before: Store, after: Store, row: PendingAttempt, retryId: string,
                           fetch: Fetch, now: int)
    requires Resolved(cfg, packet, before, row, retryId, fetch, now) && Extends(before, after) && ReceiptLog(after.receipts)
    requires RowAt(after, row.effect) == RowAt(before, row.effect)
    ensures Resolved(cfg, packet, after, row, retryId, fetch, now)
  {
    if !Awaited(cfg, packet, row, fetch, now) {
      RowPersists(before.receipts, after.receipts, row.packetId);
    }
  }
}
