/** The packets that the log names are the stored ones, and every charge and call is of an effect its packet asks for. */
module LoggedPackets {
  import opened Outcomes
  import opened Packets
  import opened Actions
  import opened Receipts
  import opened StoreState
  import opened StoreInvariants
  import opened StoreEvolution
  import opened Lifecycle
  import opened BrokerInvariant
  import opened BrokerSafety

  predicate IsAskedBy(st: Store, packetId: string, effect: EffectKey) {
    packetId in st.packets && TargetsFitAction(st.packets[packetId]) && EffectOf(st.packets[packetId]) == effect
  }

  predicate NamesStoredPacket(st: Store, event: Event) {
    match event
    case Recorded(row, packet, _) => row.packetId in st.packets && st.packets[row.packetId] == packet
    case FoundAbsent(_, packetId, _, packet, _) => packetId in st.packets && st.packets[packetId] == packet
    case Charged(effect, _, packetId, _) => IsAskedBy(st, packetId, effect)
    case Called(effect, packetId, _) => IsAskedBy(st, packetId, effect)
    case _ => true
  }

  predicate NameStoredPackets(st: Store, log: seq<Event>) {
    forall i | 0 <= i < |log| :: NamesStoredPacket(st, log[i])
  }

  lemma StoredPacketsStayNamed(st: Store, after: Store, log: seq<Event>)
    requires NameStoredPackets(st, log) && Extends(st, after)
    ensures NameStoredPackets(after, log)
  {
    forall i | 0 <= i < |log| ensures NamesStoredPacket(after, log[i]) {
      assert NamesStoredPacket(st, log[i]);
    }
  }

  lemma TerminalizeStepNames(cfg: Config, s: System, effect: EffectKey, packet: Packet, attempt: string, state: RowState,
                             draft: Draft, evidence: Option<Snapshot>, now: int)
    requires Decisive(state) && NameStoredPackets(s.store, s.log)
    requires packet.id in s.store.packets && s.store.packets[packet.id] == packet
    ensures var step := TerminalizeStep(cfg, s, effect, packet, attempt, state, draft, evidence, now);
            step.Some? ==> NameStoredPackets(step.value.store, step.value.log) && step.value.store.packets == s.store.packets
  {
    hide Build, BelongsTo, Extends;
    var step := TerminalizeStep(cfg, s, effect, packet, attempt, state, draft, evidence, now);
    if step.Some? {
      SamePacketsStayNamed(s.store, step.value.store, s.log);
    }
  }

  lemma SamePacketsStayNamed(st: Store, after: Store, log: seq<Event>)
    requires NameStoredPackets(st, log) && (after.packets == st.packets)
    ensures NameStoredPackets(after, log)
  {
    forall i | 0 <= i < |log| ensures NamesStoredPacket(after, log[i]) {
      assert NamesStoredPacket(st, log[i]);
    }
  }

  lemma RecordStepNames(cfg: Config, s: System, packet: Packet, state: RowState, effect: Option<EffectKey>,
                        draft: Draft, evidence: Option<Snapshot>, now: int)
    requires NameStoredPackets(s.store, s.log)
    requires packet.id in s.store.packets && s.store.packets[packet.id] == packet
    ensures var after := RecordStep(cfg, s, packet, state, effect, draft, evidence, now);
            NameStoredPackets(after.store, after.log)
  {
    hide Build, PacketOutcomeAllowed;
    var after := RecordStep(cfg, s, packet, state, effect, draft, evidence, now);
    SamePacketsStayNamed(s.store, after.store, s.log);
  }

  lemma CommitRecoveryNames(cfg: Config, s: System, now: int)
    requires Inv(cfg, s) && NameStoredPackets(s.store, s.log) && s.pc.Decided? && s.pc.queue != []
    ensures NameStoredPackets(OnCommitRecovery(cfg, s, now).store, OnCommitRecovery(cfg, s, now).log)
  {
    hide Core, Build, Evaluate, TerminalizeStep, NameStoredPackets, RecoveryDraft;
    var row := s.pc.queue[0];
    DecidedHeadIsStored(cfg, s);
    var packet := s.store.packets[row.packetId];
    var read := s.(clock := now);
    match s.pc.decision {
      case Leave =>
      case Absent(live) =>
        var absent := ReconcileAbsent(s.store, row.effect, row.packetId, row.attempt, row.head, now);
        if absent.Ok? {
          SamePacketsStayNamed(s.store, absent.value, s.log);
          OneMoreNamed(absent.value, s.log, FoundAbsent(row.effect, row.packetId, row.attempt, packet, live));
        }
      case Unsure(_, readback) =>
        TerminalizeStepNames(cfg, read, row.effect, packet, row.attempt, RowIndeterminate,
                             RecoveryDraft(packet, row, s.pc.decision, now), readback, now);
      case Confirm(live) =>
        TerminalizeStepNames(cfg, read, row.effect, packet, row.attempt, RowReconciled,
                             RecoveryDraft(packet, row, s.pc.decision, now), Some(live), now);
    }
  }

  lemma OneMoreNamed(st: Store, log: seq<Event>, event: Event)
    requires NameStoredPackets(st, log) && NamesStoredPacket(st, event)
    ensures NameStoredPackets(st, log + [event])
  {
  }

  lemma DecidedHeadIsStored(cfg: Config, s: System)
    requires Inv(cfg, s) && s.pc.Decided? && s.pc.queue != []
    ensures var row := s.pc.queue[0]; row.packetId in s.store.packets && s.store.packets[row.packetId].id == row.packetId
  {
    assert ListsAttempt(s.store, s.pc.queue[0]);
  }

  lemma ConcludeNames(cfg: Config, s: System, now: int)
    requires Inv(cfg, s) && NameStoredPackets(s.store, s.log)
    requires s.pc.Rejecting? || s.pc.Satisfying? || s.pc.Finishing?
    requires TargetsFitAction(s.pc.request.packet)
    ensures NameStoredPackets(OnConclude(cfg, s, now).store, OnConclude(cfg, s, now).log)
  {
    hide Core, Build, Evaluate, TerminalizeStep, RecordStep, NameStoredPackets, FinishDraft;
    var read := s.(clock := now);
    var request := s.pc.request;
    match s.pc {
      case Rejecting(_, effect, reason, precondition) =>
        RecordStepNames(cfg, read, request.packet, RowRejected, effect,
                        RejectionDraft(request.started, now, reason, precondition), None, now);
      case Satisfying(_, evaluated, live) =>
        RecordStepNames(cfg, read, request.packet, RowReconciled, Some(EffectOf(request.packet)),
                        SatisfiedDraft(request.packet, request.started, now, evaluated, live), Some(live), now);
      case Finishing(_, _, attempt, _, execution) =>
        var state := if execution.Verified? then RowCompleted else RowIndeterminate;
        var evidence := if execution.Verified? then Some(execution.after) else None;
        TerminalizeStepNames(cfg, read, EffectOf(request.packet), request.packet, attempt, state,
                             FinishDraft(request.packet, s.pc, now), evidence, now);
        var step := TerminalizeStep(cfg, read, EffectOf(request.packet), request.packet, attempt, state,
                                    FinishDraft(request.packet, s.pc, now), evidence, now);
        if step.Some? {
          ReplyNames(step.value, request.packet);
        }
    }
  }

  /** Sending a reply, or not, names no packet. */
  lemma ReplyNames(s: System, packet: Packet)
    requires NameStoredPackets(s.store, s.log)
    ensures forall receipt :: NameStoredPackets(Reply(s, packet, receipt).store, Reply(s, packet, receipt).log)
  {
    forall receipt ensures NameStoredPackets(Reply(s, packet, receipt).store, Reply(s, packet, receipt).log) {
      OneMoreNamed(s.store, s.log, Replied(packet.id, receipt));
    }
  }

  /** A step that logs nothing but charges, calls, replies and closings. */
  lemma OtherStepNames(cfg: Config, s: System, input: Input)
    requires Inv(cfg, s) && NameStoredPackets(s.store, s.log) && !input.CommitRecovery? && !input.Conclude?
    ensures var after := Next(cfg, s, input); NameStoredPackets(after.store, after.log)
  {
    hide Core, PcOk, NameStoredPackets, Evaluate, Desired, BeginMutation, Reserve, OnConclude, OnCommitRecovery, Extends, IsPendingListing, IsAskedBy;
    var after := Next(cfg, s, input);
    StepExtends(cfg, s, input);
    StoredPacketsStayNamed(s.store, after.store, s.log);
    AtRest(cfg, s);
    if s.pc.Ready? || s.pc.Charging? {
      StaysAsked(s.store, after.store, s.pc.request.packet.id, EffectOf(s.pc.request.packet));
    }
    if after.log != s.log {
      assert after.log == s.log + [after.log[|after.log| - 1]];
      OneMoreNamed(after.store, s.log, after.log[|after.log| - 1]);
    }
  }

  /** A request at the points before its charge and its call is for a stored packet. */
  lemma AtRest(cfg: Config, s: System)
    requires Inv(cfg, s)
    ensures s.pc.Ready? || s.pc.Charging? ==>
              TargetsFitAction(s.pc.request.packet) && IsAskedBy(s.store, s.pc.request.packet.id, EffectOf(s.pc.request.packet))
  {
    hide Core;
  }

  lemma StaysAsked(st: Store, after: Store, packetId: string, effect: EffectKey)
    requires IsAskedBy(st, packetId, effect) && Extends(st, after)
    ensures IsAskedBy(after, packetId, effect)
  {
  }

  lemma NextNames(cfg: Config, s: System, input: Input)
    requires Inv(cfg, s) && NameStoredPackets(s.store, s.log)
    ensures var after := Next(cfg, s, input); NameStoredPackets(after.store, after.log)
  {
    hide Inv, NameStoredPackets, OnConclude, OnCommitRecovery, OnAdmit, OnBegin, OnSubmit, OnObserveLive, OnObserveRecovery;
    match input {
      case CommitRecovery(now) => if s.pc.Decided? && s.pc.queue != [] { CommitRecoveryNames(cfg, s, now); }
      case Conclude(now) =>
        if (s.pc.Rejecting? || s.pc.Satisfying? || s.pc.Finishing?) && TargetsFitAction(s.pc.request.packet) {
          ConcludeNames(cfg, s, now);
        }
      case _ => OtherStepNames(cfg, s, input);
    }
  }

  lemma {:induction false} EveryRunNames(cfg: Config, inputs: seq<Input>)
    requires ValidConfig(cfg)
    ensures NameStoredPackets(Exec(cfg, inputs).store, Exec(cfg, inputs).log)
  {
    hide Next, Inv;
    if inputs != [] {
      EveryRun(cfg, inputs[..|inputs| - 1]);
      EveryRunNames(cfg, inputs[..|inputs| - 1]);
      NextNames(cfg, Exec(cfg, inputs[..|inputs| - 1]), inputs[|inputs| - 1]);
    }
  }

  /** In every reachable state, a logged outcome or absence names the stored packet it is about, and a charge or call one that asks for it. */
  lemma LogNamesStoredPackets(cfg: Config, s: System)
    requires ValidConfig(cfg) && Reachable(cfg, s)
    ensures NameStoredPackets(s.store, s.log)
  {
    hide Next, Exec, NameStoredPackets, IsRun;
    ReachableIffExec(cfg, s);
    var inputs :| Exec(cfg, inputs) == s;
    EveryRunNames(cfg, inputs);
  }
}
