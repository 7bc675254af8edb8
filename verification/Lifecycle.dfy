/**
 The broker service as a machine of single steps (broker/john_lomein_broker_service.py).

 A step is one external read, one store transaction or one external call; between any two steps
 the process may crash, an exception may escape, or an operator may close a circuit.  The
 environment's choices (packets, clock readings, snapshots, responses, attempt ids, crashes) are
 the inputs, so a run is a sequence of inputs and a statement about all runs quantifies over them.
 The log records what happened; no step reads it.
 */
module Lifecycle {
  import opened Outcomes
  import opened Packets
  import opened Actions
  import opened Receipts
  import opened StoreState

  datatype Event =
    | Charged(effect: EffectKey, slug: string, packetId: string, attempt: string)
    | Called(effect: EffectKey, packetId: string, attempt: string)
    | FoundAbsent(effect: EffectKey, packetId: string, attempt: string, packet: Packet, live: Snapshot)
    | Settled(effect: EffectKey, slug: string, ended: Option<string>, state: EffectState)
    | Recorded(row: ReceiptRow, packet: Packet, evidence: Option<Snapshot>)
    | CircuitClosed(slug: string, action: Action)
    | Replied(packetId: string, receipt: Receipt)

  /** What recovery decides about one pending attempt after reading live state. */
  datatype Decision =
    | Unsure(reason: RecoveryReason, readback: Option<Snapshot>)
    | Confirm(live: Snapshot)
    | Absent(live: Snapshot)
    | Leave

  datatype Request = Request(packet: Packet, started: int)

  datatype Pc =
    | Idle
    | Started(request: Request)
    | Recovering(request: Request, queue: seq<PendingAttempt>)
    | Decided(request: Request, queue: seq<PendingAttempt>, decision: Decision)
    | Admitted(request: Request, completed: bool)
    | Rejecting(request: Request, effect: Option<EffectKey>, reason: Reason, precondition: Precondition)
    | Satisfying(request: Request, evaluated: Evaluated, live: Snapshot)
    | Ready(request: Request, evaluated: Evaluated)
    | Charging(request: Request, evaluated: Evaluated, attempt: string, attemptedAt: int)
    | Calling(request: Request, evaluated: Evaluated, attempt: string, attemptedAt: int)
    | Finishing(request: Request, evaluated: Evaluated, attempt: string, attemptedAt: int, execution: Execution)

  /** `clock` is the last reading taken; it constrains nothing unless a theorem says so. */
  datatype System = System(store: Store, log: seq<Event>, pc: Pc, clock: int)

  datatype Input =
    | Submit(packet: Packet, now: int)
    | ListPending(queue: seq<PendingAttempt>)
    | ObserveRecovery(fetch: Fetch, now: int)
    | CommitRecovery(now: int)
    | Admit
    | ObserveLive(fetch: Fetch)
    | Begin(attempt: string, now: int)
    | CallGitHub
    | ReadBack(response: Response, readback: Fetch)
    | Conclude(now: int)
    | Crash
    | OperatorCloses(slug: string, action: Action)

  const INITIAL := System(EMPTY_STORE, [], Idle, 0)

  function Abort(s: System): System {
    s.(pc := Idle)
  }

  /** Returning a receipt to the client; a stored packet that differs from the submitted one is refused instead. */
  function Reply(s: System, packet: Packet, receipt: Receipt): System {
    if packet.id in s.store.packets && s.store.packets[packet.id] == packet
    then s.(pc := Idle, log := s.log + [Replied(packet.id, receipt)])
    else Abort(s)
  }

  // ----- handle: replay, then recovery ---------------------------------------------------------

  function OnSubmit(cfg: Config, s: System, packet: Packet, now: int): System {
    var read := s.(clock := now);
    if !WellFormed(cfg, packet) then read
    else
      var row := RowOf(s.store.receipts, packet.id);
      if row.Some? then Reply(read, packet, row.value.receipt)
      else read.(pc := Started(Request(packet, now)))
  }

  /** _recover_one up to its store transaction; None stands for the "inconsistent" error. */
  function Decide(cfg: Config, packet: Packet, row: PendingAttempt, retryId: string, fetch: Fetch, now: int): Option<Decision> {
    match fetch
    case Unavailable => Some(Unsure(RecoveryUnavailable, None))
    case Seen(live) =>
      if Desired(packet, live) then
        match Evaluate(cfg, packet, live, true)
        case Err(_) => Some(Unsure(RecoveryStateMismatch, Some(live)))
        case Ok(evaluated) => if evaluated.alreadySatisfied then Some(Confirm(live)) else None
      else if Evaluate(cfg, packet, live, false).Err? then Some(Unsure(RecoveryHeadOrStateChanged, Some(live)))
      else if now >= packet.expiresAt then Some(Unsure(PacketExpiredBeforeRetry, Some(live)))
      else if row.attempts >= 2 then Some(Unsure(RetryExhausted, Some(live)))
      else if row.packetId != retryId then Some(Leave)
      else Some(Absent(live))
  }

  function OnObserveRecovery(cfg: Config, s: System, fetch: Fetch, now: int): System
    requires s.pc.Recovering? && s.pc.queue != []
  {
    var read := s.(clock := now);
    var row := s.pc.queue[0];
    if row.packetId !in s.store.packets then Abort(read)
    else match Decide(cfg, s.store.packets[row.packetId], row, s.pc.request.packet.id, fetch, now)
      case None => Abort(read)
      case Some(decision) => read.(pc := Decided(s.pc.request, s.pc.queue, decision))
  }

  /** The receipt a recovery outcome records. */
  function RecoveryDraft(packet: Packet, row: PendingAttempt, decision: Decision, now: int): Draft
    requires decision.Unsure? || decision.Confirm?
  {
    match decision
    case Unsure(reason, readback) =>
      IndeterminateDraft(packet, row.startedAt, row.startedAt, now, row.attempt, row.precondition,
                         IndeterminateRecovery(reason), readback)
    case Confirm(live) => RecoveredDraft(packet, row.startedAt, now, row.attempt, row.precondition, live)
  }

  /** Signing a receipt for an attempt and making its effect terminal, in one transaction. */
  function TerminalizeStep(cfg: Config, s: System, effect: EffectKey, packet: Packet, attempt: string, state: RowState,
                           draft: Draft, evidence: Option<Snapshot>, now: int): Option<System>
    requires Decisive(state)
  {
    match Build(cfg, packet, draft, HeadDigest(s.store.receipts))
    case Err(_) => None
    case Ok(receipt) =>
      match Terminalize(s.store, effect, packet.id, attempt, state, receipt, cfg.limits, now)
      case Err(_) => None
      case Ok((store, Replayed(_))) => Some(s)
      case Ok((store, Inserted)) =>
        var row := ReceiptRow(packet.id, Some(effect), state, receipt);
        var slug := s.store.effects[effect].slug;
        Some(s.(store := store,
                log := s.log + [Settled(effect, slug, Some(attempt), EffectStateOf(state))] + [Recorded(row, packet, evidence)]))
  }

  function OnCommitRecovery(cfg: Config, s: System, now: int): System
    requires s.pc.Decided? && s.pc.queue != []
  {
    var read := s.(clock := now);
    var row := s.pc.queue[0];
    var next := Recovering(s.pc.request, s.pc.queue[1..]);
    if row.packetId !in s.store.packets then Abort(read)
    else
      var packet := s.store.packets[row.packetId];
      match s.pc.decision
      case Leave => read.(pc := next)
      case Absent(live) =>
        (match ReconcileAbsent(s.store, row.effect, row.packetId, row.attempt, row.head, now)
         case Err(_) => Abort(read)
         case Ok(store) =>
           read.(store := store, pc := next,
                 log := s.log + [FoundAbsent(row.effect, row.packetId, row.attempt, packet, live)]))
      case Unsure(_, readback) =>
        (match TerminalizeStep(cfg, read, row.effect, packet, row.attempt, RowIndeterminate,
                               RecoveryDraft(packet, row, s.pc.decision, now), readback, now)
         case None => Abort(read)
         case Some(done) => done.(pc := next))
      case Confirm(live) =>
        (match TerminalizeStep(cfg, read, row.effect, packet, row.attempt, RowReconciled,
                               RecoveryDraft(packet, row, s.pc.decision, now), Some(live), now)
         case None => Abort(read)
         case Some(done) => done.(pc := next))
  }

  // ----- handle: admission and live preconditions ----------------------------------------------

  function Reject(request: Request, effect: Option<EffectKey>, reason: Reason, precondition: Precondition): Pc {
    Rejecting(request, effect, reason, precondition)
  }

  function RejectFor(request: Request, effect: EffectKey, reason: Reason): Pc {
    Rejecting(request, Some(effect), reason, EffectCondition(reason))
  }

  function OnAdmit(cfg: Config, s: System): System
    requires s.pc.Recovering? && s.pc.queue == []
  {
    var request := s.pc.request;
    var packet := request.packet;
    var row := RowOf(s.store.receipts, packet.id);
    if row.Some? then Reply(s, packet, row.value.receipt)
    else if !Accepted(cfg, packet, request.started) then Abort(s)
    else OnReserved(s, Reserve(s.store, packet, cfg.limits, request.started))
  }

  /** What a reservation leads to; a store error escapes as an exception. */
  function OnReserved(s: System, result: Result<(Store, Reservation), StoreError>): System
    requires s.pc.Recovering? && TargetsFitAction(s.pc.request.packet)
  {
    var request := s.pc.request;
    match result
    case Err(_) => Abort(s)
    case Ok((store, disposition)) =>
      var reserved := s.(store := store);
      match disposition
      case ReceiptReplay(receipt) => Reply(reserved, request.packet, receipt)
      case SemanticIndeterminateEffect =>
        reserved.(pc := RejectFor(request, EffectOf(request.packet), CircuitRefused(SemanticIndeterminate)))
      case SemanticCompleted => reserved.(pc := Admitted(request, true))
      case Reserved => reserved.(pc := Admitted(request, false))
      case DuplicatePending => reserved.(pc := Admitted(request, false))
  }

  function OnObserveLive(cfg: Config, s: System, fetch: Fetch): System
    requires s.pc.Admitted? && TargetsFitAction(s.pc.request.packet)
  {
    var request := s.pc.request;
    var effect := EffectOf(request.packet);
    match fetch
    case Unavailable =>
      var why := LiveStateUnavailable;
      s.(pc := Reject(request, Some(effect), PreconditionFailed(why), RefusedPacket(request.packet.digest, why)))
    case Seen(live) =>
      match Evaluate(cfg, request.packet, live, true)
      case Err(error) =>
        var why := ActionRefused(error);
        s.(pc := Reject(request, Some(effect), PreconditionFailed(why), RefusedPacket(request.packet.digest, why)))
      case Ok(evaluated) =>
        if evaluated.alreadySatisfied then s.(pc := Satisfying(request, evaluated, live))
        else if s.pc.completed then
          s.(pc := Reject(request, Some(effect), PreconditionFailed(SemanticStateDrift), EvaluatedBefore(evaluated.before)))
        else s.(pc := Ready(request, evaluated))
  }

  // ----- handle: the mutation ------------------------------------------------------------------

  function OnBegin(cfg: Config, s: System, attempt: string, now: int): System
    requires s.pc.Ready? && TargetsFitAction(s.pc.request.packet)
  {
    var read := s.(clock := now);
    var request := s.pc.request;
    var packet := request.packet;
    var effect := EffectOf(packet);
    var precondition := EvaluatedBefore(s.pc.evaluated.before);
    OnBegun(read, BeginMutation(s.store, effect, packet.id, attempt, precondition, cfg.limits, now), attempt, now)
  }

  /** What the charging transaction leads to: the call, a signed rejection, or an escaping exception. */
  function OnBegun(s: System, result: Result<(Store, Start), StoreError>, attempt: string, now: int): System
    requires s.pc.Ready? && TargetsFitAction(s.pc.request.packet)
    requires result.Ok? && result.value.1 == ChargedNow ==> EffectOf(s.pc.request.packet) in s.store.effects
  {
    var request := s.pc.request;
    var packet := request.packet;
    var effect := EffectOf(packet);
    match result
    case Err(BudgetExceeded(budget)) => s.(pc := RejectFor(request, effect, BudgetExhausted(budget)))
    case Err(CircuitOpen) => s.(pc := RejectFor(request, effect, CircuitRefused(ActionOpen)))
    case Err(PendingRecoveryError) =>
      var reason := CircuitRefused(SemanticPending);
      s.(pc := Reject(request, None, reason, EffectCondition(reason)))
    case Err(_) => Abort(s)
    case Ok((store, start)) =>
      match start
      case StartReplay(receipt) => Reply(s, packet, receipt)
      case StartIndeterminate => s.(pc := RejectFor(request, effect, CircuitRefused(SemanticIndeterminate)))
      case StartCompleted =>
        s.(pc := Reject(request, Some(effect), PreconditionFailed(SemanticStateDrift), EvaluatedBefore(s.pc.evaluated.before)))
      case ChargedNow =>
        s.(store := store, pc := Charging(request, s.pc.evaluated, attempt, now),
           log := s.log + [Charged(effect, s.store.effects[effect].slug, packet.id, attempt)])
      case AlreadyCharged => s.(pc := Charging(request, s.pc.evaluated, attempt, now))
  }

  function OnCall(s: System): System
    requires s.pc.Charging? && TargetsFitAction(s.pc.request.packet)
  {
    var packet := s.pc.request.packet;
    s.(pc := Calling(s.pc.request, s.pc.evaluated, s.pc.attempt, s.pc.attemptedAt),
       log := s.log + [Called(EffectOf(packet), packet.id, s.pc.attempt)])
  }

  function OnReadBack(cfg: Config, s: System, response: Response, readback: Fetch): System
    requires s.pc.Calling?
  {
    var execution := JudgeExecution(cfg, s.pc.request.packet, s.pc.evaluated, response, readback);
    s.(pc := Finishing(s.pc.request, s.pc.evaluated, s.pc.attempt, s.pc.attemptedAt, execution))
  }

  // ----- handle: the outcome -------------------------------------------------------------------

  /** Signing a packet outcome that made no call, and recording it. */
  function RecordStep(cfg: Config, s: System, packet: Packet, state: RowState, effect: Option<EffectKey>,
                      draft: Draft, evidence: Option<Snapshot>, now: int): System
  {
    match Build(cfg, packet, draft, HeadDigest(s.store.receipts))
    case Err(_) => Abort(s)
    case Ok(receipt) =>
      match RecordPacketReceipt(s.store, packet.id, state, receipt, effect, cfg.limits, now)
      case Err(_) => Abort(s)
      case Ok((store, Replayed(existing))) => Reply(s, packet, existing)
      case Ok((store, Inserted)) =>
        var row := ReceiptRow(packet.id, effect, state, receipt);
        var settles := state == RowReconciled && effect.Some? && effect.value in s.store.effects
                       && s.store.effects[effect.value].state == Pending;
        var settled := if settles then [Settled(effect.value, s.store.effects[effect.value].slug, None, Reconciled)] else [];
        Reply(s.(store := store, log := s.log + settled + [Recorded(row, packet, evidence)]), packet, receipt)
  }

  function FinishDraft(packet: Packet, pc: Pc, now: int): Draft
    requires pc.Finishing?
  {
    match pc.execution
    case Verified(after) => AppliedDraft(pc.request.started, pc.attemptedAt, now, pc.attempt, pc.evaluated, after)
    case Doubtful(doubt) =>
      IndeterminateDraft(packet, pc.request.started, pc.attemptedAt, now, pc.attempt,
                         EvaluatedBefore(pc.evaluated.before), IndeterminateExecution(doubt), None)
  }

  function OnFinish(cfg: Config, s: System, now: int): System
    requires s.pc.Finishing? && TargetsFitAction(s.pc.request.packet)
  {
    var packet := s.pc.request.packet;
    var verified := s.pc.execution.Verified?;
    var state := if verified then RowCompleted else RowIndeterminate;
    var evidence := if verified then Some(s.pc.execution.after) else None;
    var draft := FinishDraft(packet, s.pc, now);
    match TerminalizeStep(cfg, s, EffectOf(packet), packet, s.pc.attempt, state, draft, evidence, now)
    case None => Abort(s)
    case Some(done) =>
      var row := RowOf(done.store.receipts, packet.id);
      if row.Some? then Reply(done, packet, row.value.receipt) else Abort(done)
  }

  function OnConclude(cfg: Config, s: System, now: int): System
    requires s.pc.Rejecting? || s.pc.Satisfying? || s.pc.Finishing?
    requires TargetsFitAction(s.pc.request.packet)
  {
    var read := s.(clock := now);
    var request := s.pc.request;
    match s.pc
    case Rejecting(_, effect, reason, precondition) =>
      RecordStep(cfg, read, request.packet, RowRejected, effect,
                 RejectionDraft(request.started, now, reason, precondition), None, now)
    case Satisfying(_, evaluated, live) =>
      RecordStep(cfg, read, request.packet, RowReconciled, Some(EffectOf(request.packet)),
                 SatisfiedDraft(request.packet, request.started, now, evaluated, live), Some(live), now)
    case _ => OnFinish(cfg, read, now)
  }

  // ----- the machine ---------------------------------------------------------------------------

  /** One step; an input the control point does not expect changes nothing. */
  function Next(cfg: Config, s: System, input: Input): System {
    match input
    case Crash => Abort(s)
    case OperatorCloses(slug, action) =>
      s.(store := CloseCircuit(s.store, slug, action), log := s.log + [CircuitClosed(slug, action)])
    case Submit(packet, now) => if s.pc.Idle? then OnSubmit(cfg, s, packet, now) else s
    case ListPending(queue) =>
      if s.pc.Started? && IsPendingListing(s.store, queue) then s.(pc := Recovering(s.pc.request, queue)) else s
    case ObserveRecovery(fetch, now) =>
      if s.pc.Recovering? && s.pc.queue != [] then OnObserveRecovery(cfg, s, fetch, now) else s
    case CommitRecovery(now) => if s.pc.Decided? && s.pc.queue != [] then OnCommitRecovery(cfg, s, now) else s
    case Admit => if s.pc.Recovering? && s.pc.queue == [] then OnAdmit(cfg, s) else s
    case ObserveLive(fetch) =>
      if s.pc.Admitted? && TargetsFitAction(s.pc.request.packet) then OnObserveLive(cfg, s, fetch) else s
    case Begin(attempt, now) =>
      if s.pc.Ready? && TargetsFitAction(s.pc.request.packet) then OnBegin(cfg, s, attempt, now) else s
    case CallGitHub => if s.pc.Charging? && TargetsFitAction(s.pc.request.packet) then OnCall(s) else s
    case ReadBack(response, readback) => if s.pc.Calling? then OnReadBack(cfg, s, response, readback) else s
    case Conclude(now) =>
      if (s.pc.Rejecting? || s.pc.Satisfying? || s.pc.Finishing?) && TargetsFitAction(s.pc.request.packet)
      then OnConclude(cfg, s, now) else s
  }

  /** The state a run reaches from an empty database. */
  function Exec(cfg: Config, inputs: seq<Input>): System {
    if inputs == [] then INITIAL
    else Next(cfg, Exec(cfg, inputs[..|inputs| - 1]), inputs[|inputs| - 1])
  }

  /** A run with all the states it passes through. */
  datatype Run = Run(inputs: seq<Input>, states: seq<System>)

  predicate IsRun(cfg: Config, run: Run) {
    && |run.states| == |run.inputs| + 1
    && run.states[0] == INITIAL
    && forall i {:trigger run.inputs[i]} | 0 <= i < |run.inputs| :: run.states[i + 1] == Next(cfg, run.states[i], run.inputs[i])
  }

  /** A state that some run ends in. */
  ghost predicate Reachable(cfg: Config, s: System) {
    exists run :: IsRun(cfg, run) && run.states[|run.inputs|] == s
  }

  lemma {:induction false} RunIsExec(cfg: Config, run: Run, n: nat)
    requires IsRun(cfg, run) && n <= |run.inputs|
    ensures run.states[n] == Exec(cfg, run.inputs[..n])
  {
    hide Next;
    if n > 0 {
      RunIsExec(cfg, run, n - 1);
      assert run.inputs[..n][..n - 1] == run.inputs[..n - 1];
      assert run.inputs[..n][n - 1] == run.inputs[n - 1];
    }
  }

  lemma {:induction false} ExecIsRun(cfg: Config, inputs: seq<Input>) returns (run: Run)
    ensures IsRun(cfg, run) && run.inputs == inputs && run.states[|inputs|] == Exec(cfg, inputs)
  {
    hide Next;
    if inputs == [] {
      run := Run([], [INITIAL]);
    } else {
      var before := ExecIsRun(cfg, inputs[..|inputs| - 1]);
      run := Run(inputs, before.states + [Exec(cfg, inputs)]);
      forall i | 0 <= i < |inputs| ensures run.states[i + 1] == Next(cfg, run.states[i], inputs[i]) {
        if i < |inputs| - 1 {
          assert before.inputs[i] == inputs[i];
        }
      }
    }
  }

  /** The two ways of speaking about runs agree. */
  lemma ReachableIffExec(cfg: Config, s: System)
    ensures Reachable(cfg, s) <==> exists inputs :: Exec(cfg, inputs) == s
  {
    hide Next, Exec;
    if Reachable(cfg, s) {
      var run :| IsRun(cfg, run) && run.states[|run.inputs|] == s;
      RunIsExec(cfg, run, |run.inputs|);
      assert run.inputs[..|run.inputs|] == run.inputs;
    }
    if exists inputs :: Exec(cfg, inputs) == s {
      var inputs :| Exec(cfg, inputs) == s;
      var run := ExecIsRun(cfg, inputs);
      assert IsRun(cfg, run) && run.states[|run.inputs|] == s;
    }
  }
}
