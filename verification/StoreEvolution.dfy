/** How a database may differ from an earlier one: records are kept, and attempts only end unless one is charged. */
module StoreEvolution {
  import opened Outcomes
  import opened Packets
  import opened Actions
  import opened Receipts
  import opened StoreState
  import opened StoreInvariants
  import opened Lifecycle

  /** A later database keeps every packet and every receipt row where it was. */
  predicate Extends(earlier: Store, later: Store) {
    && (forall id | id in earlier.packets :: id in later.packets && later.packets[id] == earlier.packets[id])
    && earlier.receipts <= later.receipts
  }

  /** No attempt starts: each effect keeps its active attempt or loses it. */
  ghost predicate StartsNothing(earlier: Store, later: Store) {
    forall effect :: RowAt(later, effect).active.None? || RowAt(later, effect).active == RowAt(earlier, effect).active
  }

  ghost predicate Evolves(earlier: Store, later: Store) {
    Extends(earlier, later) && StartsNothing(earlier, later)
  }

  lemma ReserveEvolves(st: Store, packet: Packet, limits: Limits, now: int)
    ensures Reserve(st, packet, limits, now).Ok? ==> Evolves(st, Reserve(st, packet, limits, now).value.0)
  {
  }

  lemma BeginExtends(st: Store, effect: EffectKey, id: string, attempt: string, precondition: Precondition, limits: Limits, now: int)
    ensures var begun := BeginMutation(st, effect, id, attempt, precondition, limits, now);
            begun.Ok? ==> Extends(st, begun.value.0)
  {
  }

  /** The only attempt a start can introduce is its own, for a packet still acceptable to the store. */
  lemma BeginStartsOwn(st: Store, effect: EffectKey, id: string, attempt: string, precondition: Precondition, limits: Limits, now: int)
    ensures var begun := BeginMutation(st, effect, id, attempt, precondition, limits, now);
            begun.Ok? ==>
              forall other :: RowAt(begun.value.0, other).active == RowAt(st, other).active
                              || (&& RowAt(begun.value.0, other).active == Some(Attempt(attempt, id, precondition, now))
                                  && id in st.packets && now < st.packets[id].expiresAt)
  {
  }

  lemma AbsentEvolves(st: Store, effect: EffectKey, id: string, attempt: string, head: string, now: int)
    ensures var absent := ReconcileAbsent(st, effect, id, attempt, head, now);
            absent.Ok? ==> Evolves(st, absent.value)
  {
  }

  lemma TerminalizeEvolves(st: Store, effect: EffectKey, id: string, attempt: string, state: RowState, receipt: Receipt,
                           limits: Limits, now: int)
    ensures var ended := Terminalize(st, effect, id, attempt, state, receipt, limits, now);
            ended.Ok? ==> Evolves(st, ended.value.0)
  {
  }

  lemma RecordEvolves(st: Store, id: string, state: RowState, receipt: Receipt, effect: Option<EffectKey>, limits: Limits, now: int)
    ensures var recorded := RecordPacketReceipt(st, id, state, receipt, effect, limits, now);
            recorded.Ok? ==> Evolves(st, recorded.value.0)
  {
  }

  lemma TerminalizeStepEvolves(cfg: Config, s: System, effect: EffectKey, packet: Packet, attempt: string, state: RowState,
                               draft: Draft, evidence: Option<Snapshot>, now: int)
    requires Decisive(state)
    ensures var step := TerminalizeStep(cfg, s, effect, packet, attempt, state, draft, evidence, now);
            step.Some? ==> Evolves(s.store, step.value.store) && step.value.clock == s.clock
  {
    var built := Build(cfg, packet, draft, HeadDigest(s.store.receipts));
    if built.Ok? {
      TerminalizeEvolves(s.store, effect, packet.id, attempt, state, built.value, cfg.limits, now);
    }
  }

  lemma RecordStepEvolves(cfg: Config, s: System, packet: Packet, state: RowState, effect: Option<EffectKey>,
                          draft: Draft, evidence: Option<Snapshot>, now: int)
    ensures var after := RecordStep(cfg, s, packet, state, effect, draft, evidence, now);
            Evolves(s.store, after.store) && after.clock == s.clock && after.pc == Idle
  {
    var built := Build(cfg, packet, draft, HeadDigest(s.store.receipts));
    if built.Ok? {
      RecordEvolves(s.store, packet.id, state, built.value, effect, cfg.limits, now);
    }
  }

  lemma ConcludeEvolves(cfg: Config, s: System, now: int)
    requires (s.pc.Rejecting? || s.pc.Satisfying? || s.pc.Finishing?) && TargetsFitAction(s.pc.request.packet)
    ensures var after := OnConclude(cfg, s, now);
            Evolves(s.store, after.store) && after.clock == now && after.pc == Idle
  {
    hide RecordStep, TerminalizeStep;
    var packet := s.pc.request.packet;
    var read := s.(clock := now);
    match s.pc {
      case Rejecting(request, effect, reason, precondition) =>
        RecordStepEvolves(cfg, read, packet, RowRejected, effect,
                          RejectionDraft(request.started, now, reason, precondition), None, now);
      case Satisfying(request, evaluated, live) =>
        RecordStepEvolves(cfg, read, packet, RowReconciled, Some(EffectOf(packet)),
                          SatisfiedDraft(packet, request.started, now, evaluated, live), Some(live), now);
      case Finishing(_, _, _, _, execution) =>
        var state := if execution.Verified? then RowCompleted else RowIndeterminate;
        var evidence := if execution.Verified? then Some(execution.after) else None;
        TerminalizeStepEvolves(cfg, read, EffectOf(packet), packet, s.pc.attempt, state,
                               FinishDraft(packet, s.pc, now), evidence, now);
    }
  }

  lemma CommitRecoveryEvolves(cfg: Config, s: System, now: int)
    requires s.pc.Decided? && s.pc.queue != []
    ensures var after := OnCommitRecovery(cfg, s, now);
            && Evolves(s.store, after.store) && after.clock == now
            && (after.pc == Idle || after.pc == Recovering(s.pc.request, s.pc.queue[1..]))
  {
    var row := s.pc.queue[0];
    var read := s.(clock := now);
    if row.packetId in s.store.packets {
      var packet := s.store.packets[row.packetId];
      match s.pc.decision {
        case Unsure(_, readback) =>
          TerminalizeStepEvolves(cfg, read, row.effect, packet, row.attempt, RowIndeterminate,
                                 RecoveryDraft(packet, row, s.pc.decision, now), readback, now);
        case Confirm(live) =>
          TerminalizeStepEvolves(cfg, read, row.effect, packet, row.attempt, RowReconciled,
                                 RecoveryDraft(packet, row, s.pc.decision, now), Some(live), now);
        case Absent(_) =>
          AbsentEvolves(s.store, row.effect, row.packetId, row.attempt, row.head, now);
        case Leave =>
      }
    }
  }

  lemma AdmitEvolves(cfg: Config, s: System)
    requires s.pc.Recovering? && s.pc.queue == []
    ensures var after := OnAdmit(cfg, s);
            && Evolves(s.store, after.store) && after.clock == s.clock
            && (after.pc == Idle || after.pc.Admitted? || after.pc.Rejecting?)
            && (after.pc != Idle ==> after.pc.request == s.pc.request)
  {
    ReserveEvolves(s.store, s.pc.request.packet, cfg.limits, s.pc.request.started);
  }

  /** Every step keeps what is stored. */
  lemma StepExtends(cfg: Config, s: System, input: Input)
    ensures Extends(s.store, Next(cfg, s, input).store)
  {
    hide OnCommitRecovery, OnAdmit, OnConclude, BeginMutation, StartsNothing;
    match input {
      case CommitRecovery(now) => if s.pc.Decided? && s.pc.queue != [] { CommitRecoveryEvolves(cfg, s, now); }
      case Admit =>
        if s.pc.Recovering? && s.pc.queue == [] {
          AdmitEvolves(cfg, s);
        }
      case Begin(attempt, now) =>
        if s.pc.Ready? && TargetsFitAction(s.pc.request.packet) {
          BeginExtends(s.store, EffectOf(s.pc.request.packet), s.pc.request.packet.id, attempt,
                       EvaluatedBefore(s.pc.evaluated.before), cfg.limits, now);
        }
      case Conclude(now) =>
        if (s.pc.Rejecting? || s.pc.Satisfying? || s.pc.Finishing?) && TargetsFitAction(s.pc.request.packet) {
          ConcludeEvolves(cfg, s, now);
        }
      case _ =>
    }
  }
}
