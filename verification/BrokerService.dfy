/**
 The broker service as the sequential program it is (broker/john_lomein_broker_service.py): methods
 that read the clock and GitHub, drive the database object and return a receipt or raise (None).

 A ghost history of machine inputs grows by one at each durable or external step, and `Valid`
 ties the database to the state that history reaches.  Every guarantee proved of the machine's runs
 therefore holds of this program at each of those steps.
 */
module BrokerService {
  import opened Outcomes
  import opened Packets
  import opened Actions
  import opened Receipts
  import opened StoreState
  import opened StoreInvariants
  import opened StoreEvolution
  import opened Lifecycle
  import opened BrokerInvariant
  import opened BrokerSafety
  import opened ReceiptChain
  import opened Recovery
  import opened BrokerStore

  // ----- replies in the log --------------------------------------------------------------------

  /** The log grew without a reply. */
  predicate Quiet(before: seq<Event>, after: seq<Event>) {
    before <= after && forall i | |before| <= i < |after| :: !after[i].Replied?
  }

  /** The log grew by exactly one reply, at its end; None stands for no reply at all. */
  predicate Answers(before: seq<Event>, after: seq<Event>, packetId: string, reply: Option<Receipt>) {
    match reply
    case None => Quiet(before, after)
    case Some(receipt) =>
      && |before| < |after|
      && Quiet(before, after[..|after| - 1])
      && after[|after| - 1] == Replied(packetId, receipt)
  }

  // ----- the order of steps --------------------------------------------------------------------

  /** The input each control point waits for.  No control point waits for a crash, an operator or, before it is done, another submission. */
  predicate AwaitsInput(s: Lifecycle.System, input: Input) {
    match input
    case ListPending(queue) => s.pc.Started? && IsPendingListing(s.store, queue)
    case ObserveRecovery(_, _) => s.pc.Recovering? && s.pc.queue != []
    case CommitRecovery(_) => s.pc.Decided? && s.pc.queue != []
    case Admit => s.pc.Recovering? && s.pc.queue == []
    case ObserveLive(_) => s.pc.Admitted?
    case Begin(_, _) => s.pc.Ready?
    case CallGitHub => s.pc.Charging?
    case ReadBack(_, _) => s.pc.Calling?
    case Conclude(_) => s.pc.Rejecting? || s.pc.Satisfying? || s.pc.Finishing?
    case Submit(_, _) => false
    case Crash => false
    case OperatorCloses(_, _) => false
  }

  /**
   From position `from` on, the history is the program's own course: each input is the one its control
   point was waiting for.  Only the environment's answers in it are free, so such a history up to an idle
   service fixes every branch taken.
   */
  predicate InOrder(cfg: Config, history: seq<Input>, from: nat) {
    forall i {:trigger history[i]} | from <= i < |history| :: AwaitsInput(Exec(cfg, history[..i]), history[i])
  }

  lemma InOrderJoins(cfg: Config, middle: seq<Input>, history: seq<Input>, from: nat)
    requires from <= |middle| && middle <= history && InOrder(cfg, middle, from) && InOrder(cfg, history, |middle|)
    ensures InOrder(cfg, history, from)
  {
    hide Exec, AwaitsInput;
    forall i | from <= i < |history| ensures AwaitsInput(Exec(cfg, history[..i]), history[i]) {
      if i < |middle| {
        assert history[..i] == middle[..i] && history[i] == middle[i];
      }
    }
  }

  /** Inputs after a charging transaction: the call to its conclusion, a signed rejection, or nothing. */
  function StepsAfter(begun: Result<(Store, Start), StoreError>): nat {
    match begun
    case Ok((_, ChargedNow)) => 3
    case Ok((_, AlreadyCharged)) => 3
    case Ok((_, StartReplay(_))) => 0
    case Ok(_) => 1
    case Err(BudgetExceeded(_)) => 1
    case Err(CircuitOpen) => 1
    case Err(PendingRecoveryError) => 1
    case Err(_) => 0
  }

  class Service {
    const cfg: Config
    const store: Database
    ghost var history: seq<Input>

    constructor (cfg: Config)
      requires ValidConfig(cfg)
      ensures Valid() && fresh(store) && this.cfg == cfg && history == []
    {
      this.cfg := cfg;
      this.store := new Database(cfg.limits);
      history := [];
    }

    /** The machine state this program has reached. */
    ghost function System(): System
      reads this
    {
      Exec(cfg, history)
    }

    ghost predicate Valid()
      reads this, store
    {
      && ValidConfig(cfg)
      && store.limits == cfg.limits
      && System().store == store.State()
    }

    /** The step just taken is a step of the machine. */
    ghost method Took(input: Input)
      requires ValidConfig(cfg) && store.limits == cfg.limits
      requires Next(cfg, System(), input).store == store.State()
      modifies this`history
      ensures Valid()
      ensures history == old(history) + [input]
      ensures System() == Next(cfg, old(System()), input)
      ensures AwaitsInput(old(System()), input) ==> InOrder(cfg, history, |old(history)|)
    {
      hide Next;
      assert (history + [input])[..|history|] == history;
      history := history + [input];
    }

    // ----- the environment ---------------------------------------------------------------------

    method Clock() returns (now: int) {
      now := *;
    }

    method FetchSnapshot() returns (fetch: Fetch) {
      fetch := *;
    }

    method Mutate() returns (response: Response) {
      response := *;
    }

    method NewAttemptId() returns (attempt: string) {
      attempt := *;
    }

    // ----- recording outcomes ------------------------------------------------------------------

    /** Signs the outcome of an attempt and makes its effect terminal. */
    method SignAndTerminalize(effect: EffectKey, packet: Packet, attempt: string, state: RowState, draft: Draft, now: int)
      returns (reply: Option<Receipt>)
      requires Decisive(state) && store.limits == cfg.limits
      modifies store
      ensures match Build(cfg, packet, draft, HeadDigest(old(store.State()).receipts))
              case Err(_) => reply == None && store.State() == old(store.State())
              case Ok(receipt) =>
                match Terminalize(old(store.State()), effect, packet.id, attempt, state, receipt, cfg.limits, now)
                case Err(_) => reply == None && store.State() == old(store.State())
                case Ok((after, _)) => reply == Some(receipt) && store.State() == after
    {
      var previous := store.LatestReceiptDigest();
      var signed := Build(cfg, packet, draft, previous);
      if signed.Err? {
        return None;
      }
      var recorded := store.Terminalize(effect, packet.id, attempt, state, signed.value, now);
      if recorded.Err? {
        return None;
      }
      return Some(signed.value);
    }

    /** Signs the outcome of a packet that made no call, and records it. */
    method SignAndRecord(packet: Packet, state: RowState, effect: Option<EffectKey>, draft: Draft, now: int)
      returns (reply: Option<Receipt>)
      requires store.limits == cfg.limits
      modifies store
      ensures match Build(cfg, packet, draft, HeadDigest(old(store.State()).receipts))
              case Err(_) => reply == None && store.State() == old(store.State())
              case Ok(receipt) =>
                match RecordPacketReceipt(old(store.State()), packet.id, state, receipt, effect, cfg.limits, now)
                case Err(_) => reply == None && store.State() == old(store.State())
                case Ok((after, _)) => reply == Some(receipt) && store.State() == after
    {
      var previous := store.LatestReceiptDigest();
      var signed := Build(cfg, packet, draft, previous);
      if signed.Err? {
        return None;
      }
      var recorded := store.RecordPacketReceipt(packet.id, state, signed.value, effect, now);
      if recorded.Err? {
        return None;
      }
      return Some(signed.value);
    }

    // ----- recovery ----------------------------------------------------------------------------

    /** Records an indeterminate or confirmed outcome for the attempt at the head of the queue. */
    method RecordRecovery(row: PendingAttempt, packet: Packet, ghost fetch: Fetch, ghost decidedAt: int, ghost decision: Decision,
                          state: RowState, draft: Draft, now: int) returns (ok: bool)
      requires Valid() && System().pc.Recovering? && System().pc.queue != [] && System().pc.queue[0] == row
      requires row.packetId in store.packets && store.packets[row.packetId] == packet && packet.id == row.packetId
      requires Decide(cfg, packet, row, System().pc.request.packet.id, fetch, decidedAt) == Some(decision)
      requires decision.Unsure? || decision.Confirm?
      requires draft == RecoveryDraft(packet, row, decision, now)
      requires state == if decision.Confirm? then RowReconciled else RowIndeterminate
      modifies store, this`history
      ensures Valid()
      ensures history == old(history) + [ObserveRecovery(fetch, decidedAt), CommitRecovery(now)]
      ensures System() == RecoverHead(cfg, old(System()), fetch, decidedAt, now)
      ensures InOrder(cfg, history, |old(history)|)
      ensures ok <==> !System().pc.Idle?
    {
      hide Build, Decide, Evaluate, RecoveryDraft, BelongsTo, SettleEffect, OnConclude, OnAdmit, OnBegin, InOrder, Exec;
      Took(ObserveRecovery(fetch, decidedAt));
      ghost var observed := history;
      var recorded := SignAndTerminalize(row.effect, packet, row.attempt, state, draft, now);
      Took(CommitRecovery(now));
      InOrderJoins(cfg, observed, history, |old(history)|);
      return recorded.Some?;
    }

    /** Reconciles one pending attempt against live state; false stands for an escaping exception. */
    method RecoverOne(row: PendingAttempt, retryId: string) returns (ok: bool, ghost fetch: Fetch, ghost now: int, ghost later: int)
      requires Valid() && System().pc.Recovering? && System().pc.queue != []
      requires row == System().pc.queue[0] && retryId == System().pc.request.packet.id
      modifies store, this`history
      ensures Valid()
      ensures history == old(history) + [ObserveRecovery(fetch, now), CommitRecovery(later)]
      ensures System() == RecoverHead(cfg, old(System()), fetch, now, later)
      ensures InOrder(cfg, history, |old(history)|)
      ensures ok <==> !System().pc.Idle?
    {
      hide InOrder, Build, Evaluate, Desired, OnConclude, OnAdmit, OnBegin, OnSubmit, OnObserveLive, Exec, Inv, Core, PcOk,
           TerminalizeStep, Normalize, BelongsTo, RecoveryDraft, TargetsFitAction, Track, TrailingRun;
      EveryRun(cfg, history);
      HeadListed(cfg, System());
      var packet := store.packets[row.packetId];
      var read := FetchSnapshot();
      fetch := read;
      if read.Unavailable? {
        var completed := Clock();
        now, later := completed, completed;
        ok := RecordRecovery(row, packet, fetch, now, Unsure(RecoveryUnavailable, None), RowIndeterminate,
                             RecoveryDraft(packet, row, Unsure(RecoveryUnavailable, None), completed), completed);
        return;
      }
      var live := read.snapshot;
      if Desired(packet, live) {
        var evaluated := Evaluate(cfg, packet, live, true);
        var completed := Clock();
        now, later := completed, completed;
        if evaluated.Err? {
          var unsure := Unsure(RecoveryStateMismatch, Some(live));
          ok := RecordRecovery(row, packet, fetch, now, unsure, RowIndeterminate,
                               RecoveryDraft(packet, row, unsure, completed), completed);
          return;
        }
        // the "inconsistent" error would be raised here; it cannot be
        SatisfiedIffDesired(cfg, packet, live);
        ok := RecordRecovery(row, packet, fetch, now, Confirm(live), RowReconciled,
                             RecoveryDraft(packet, row, Confirm(live), completed), completed);
        return;
      }
      if Evaluate(cfg, packet, live, false).Err? {
        var completed := Clock();
        now, later := completed, completed;
        var unsure := Unsure(RecoveryHeadOrStateChanged, Some(live));
        ok := RecordRecovery(row, packet, fetch, now, unsure, RowIndeterminate,
                             RecoveryDraft(packet, row, unsure, completed), completed);
        return;
      }
      var reading := Clock();
      now := reading;
      if reading >= packet.expiresAt || row.attempts >= 2 {
        var unsure := Unsure(if reading >= packet.expiresAt then PacketExpiredBeforeRetry else RetryExhausted, Some(live));
        var completed := Clock();
        later := completed;
        ok := RecordRecovery(row, packet, fetch, now, unsure, RowIndeterminate,
                             RecoveryDraft(packet, row, unsure, completed), completed);
        return;
      }
      Took(ObserveRecovery(fetch, now));
      ghost var decided := history;
      if row.packetId != retryId {
        later := now;
        Took(CommitRecovery(later));
        InOrderJoins(cfg, decided, history, |old(history)|);
        return true, fetch, now, later;
      }
      var observed := Clock();
      later := observed;
      var absent := store.ReconcileAbsent(row.effect, row.packetId, row.attempt, row.head, observed);
      Took(CommitRecovery(later));
      InOrderJoins(cfg, decided, history, |old(history)|);
      ok := absent.Ok?;
    }

    /**
     Reconciles every pending attempt, oldest first; false stands for an escaping exception.  If it returns,
     each attempt that was pending is resolved by what its own step of the pass read.
     */
    method RecoverPending(retryId: string) returns (ok: bool, ghost rows: seq<PendingAttempt>)
      requires Valid() && System().pc.Started? && System().pc.request.packet.id == retryId
      modifies store, this`history
      ensures Valid() && old(history) <= history
      ensures InOrder(cfg, history, |old(history)|)
      ensures Quiet(old(System().log), System().log)
      ensures System().pc == if ok then Recovering(old(System().pc.request), []) else Idle
      ensures forall row | ListsAttempt(old(store.State()), row) :: row in rows
      ensures ok ==> |history| == |old(history)| + 1 + 2 * |rows|
      ensures ok ==> forall i | 0 <= i < |rows| ::
                ResolvedBy(cfg, old(store.State()), store.State(), rows[i], retryId, history[|old(history)| + 1 + 2 * i])
    {
      hide Exec, Next, ResolvedBy, Inv, InOrder, AwaitsInput, Quiet, Extends, RecoverHead, IsPendingListing, ListsAttempt, RowAt;
      ghost var before := store.State();
      ghost var request := System().pc.request;
      var listed := store.PendingRecovery();
      rows := listed;
      ListPendingStep(cfg, System(), listed);
      Took(ListPending(listed));
      ListingIsComplete(before, rows);
      ghost var seen: seq<Input> := [];
      var n := 0;
      assert rows[0..] == rows;
      while n < |listed|
        invariant 0 <= n <= |rows| && |seen| == n
        invariant Valid() && old(history) <= history && |history| == |old(history)| + 1 + 2 * n
        invariant InOrder(cfg, history, |old(history)|)
        invariant System().pc == Recovering(request, rows[n..])
        invariant Quiet(old(System().log), System().log)
        invariant Extends(before, store.State())
        invariant forall i | n <= i < |rows| :: RowAt(store.State(), rows[i].effect) == RowAt(before, rows[i].effect)
        invariant forall i | 0 <= i < n :: history[|old(history)| + 1 + 2 * i] == seen[i]
        invariant forall i | 0 <= i < n :: ResolvedBy(cfg, before, store.State(), rows[i], retryId, seen[i])
      {
        ghost var s := System();
        ghost var earlier := history;
        EveryRun(cfg, history);
        ghost var fetch, now, later;
        ok, fetch, now, later := RecoverOne(listed[n], retryId);
        RecoveryIsQuiet(cfg, s, fetch, now, later);
        StaysQuiet(old(System().log), s.log, System().log);
        InOrderJoins(cfg, earlier, history, |old(history)|);
        if !ok {
          return false, rows;
        }
        EveryRun(cfg, history);
        RecoveryStep(cfg, before, s, fetch, now, later, rows, seen);
        seen := seen + [ObserveRecovery(fetch, now)];
        n := n + 1;
      }
      return true, rows;
    }

    // ----- outcomes of a request that makes no call --------------------------------------------

    method RecordRejection(packet: Packet, effect: Option<EffectKey>, started: int, reason: Reason, precondition: Precondition)
      returns (reply: Option<Receipt>)
      requires Valid() && System().pc == Rejecting(Request(packet, started), effect, reason, precondition)
      modifies store, this`history
      ensures Valid() && System().pc.Idle? && old(history) <= history
      ensures exists completed :: history == old(history) + [Conclude(completed)]
      ensures InOrder(cfg, history, |old(history)|)
      ensures Answers(old(System().log), System().log, packet.id, reply)
    {
      hide Build, Exec, Core, BelongsTo, SettleEffect, OnFinish, OnCommitRecovery, OnAdmit, OnBegin, OnSubmit, OnObserveLive, InOrder;
      EveryRun(cfg, history);
      var completed := Clock();
      reply := SignAndRecord(packet, RowRejected, effect, RejectionDraft(started, completed, reason, precondition), completed);
      Took(Conclude(completed));
    }

    method RecordAlreadySatisfied(packet: Packet, evaluated: Evaluated, live: Snapshot, started: int)
      returns (reply: Option<Receipt>)
      requires Valid() && System().pc == Satisfying(Request(packet, started), evaluated, live)
      modifies store, this`history
      ensures Valid() && System().pc.Idle? && old(history) <= history
      ensures exists completed :: history == old(history) + [Conclude(completed)]
      ensures InOrder(cfg, history, |old(history)|)
      ensures Answers(old(System().log), System().log, packet.id, reply)
    {
      hide Build, Exec, Core, BelongsTo, SettleEffect, OnFinish, OnCommitRecovery, OnAdmit, OnBegin, OnSubmit, OnObserveLive, Evaluate,
           InOrder;
      EveryRun(cfg, history);
      var completed := Clock();
      reply := SignAndRecord(packet, RowReconciled, Some(EffectOf(packet)),
                             SatisfiedDraft(packet, started, completed, evaluated, live), completed);
      RecordStepAnswers(cfg, System().(clock := completed), packet, RowReconciled, Some(EffectOf(packet)),
                        SatisfiedDraft(packet, started, completed, evaluated, live), Some(live), completed);
      Took(Conclude(completed));
    }

    // ----- the mutation ------------------------------------------------------------------------

    /** Issues the call, reads live state back and judges what the two together prove. */
    method ExecuteEvaluatedAction(packet: Packet, evaluated: Evaluated) returns (execution: Execution)
      requires Valid() && System().pc.Charging? && TargetsFitAction(packet)
      requires System().pc.request.packet == packet && System().pc.evaluated == evaluated
      modifies this`history
      ensures Valid() && old(history) <= history
      ensures var before := old(System());
              && System().pc == Finishing(before.pc.request, evaluated, before.pc.attempt, before.pc.attemptedAt, execution)
              && System().log == before.log + [Called(EffectOf(packet), packet.id, before.pc.attempt)]
      ensures exists response, readback :: history == old(history) + [CallGitHub, ReadBack(response, readback)]
      ensures InOrder(cfg, history, |old(history)|)
    {
      hide Exec, Evaluate, Desired, ResponseMatches, OnFinish, OnConclude, OnAdmit, OnBegin, OnSubmit, OnObserveLive, OnCommitRecovery,
           InOrder;
      Took(CallGitHub);
      ghost var called := history;
      var response := Mutate();
      if response.TransportFailure? {
        Took(ReadBack(response, Unavailable));
        InOrderJoins(cfg, called, history, |old(history)|);
        return Doubtful(TransportIndeterminate);
      }
      if !ResponseMatches(evaluated, response) {
        Took(ReadBack(response, Unavailable));
        InOrderJoins(cfg, called, history, |old(history)|);
        return Doubtful(Doubt.ResponseMismatch);
      }
      var readback := FetchSnapshot();
      Took(ReadBack(response, readback));
      InOrderJoins(cfg, called, history, |old(history)|);
      if readback.Unavailable? {
        return Doubtful(ReadbackUnavailable);
      }
      var after := readback.snapshot;
      if || after.pr.nodeId != evaluated.prNodeId
         || after.pr.number != evaluated.prNumber
         || after.pr.url != packet.pr.url
         || after.pr.state != Open
         || after.pr.head != evaluated.head
      {
        return Doubtful(HeadChangedDuringMutation);
      }
      var confirmed := Evaluate(cfg, packet, after, true);
      if confirmed.Err? {
        return Doubtful(ReadbackPreconditionsChanged);
      }
      if !confirmed.value.alreadySatisfied || !Desired(packet, after) {
        return Doubtful(ReadbackNotSatisfied);
      }
      return Verified(after);
    }

    /** From a committed charge to the signed outcome of its attempt. */
    method PerformMutation(packet: Packet, evaluated: Evaluated, started: int, attempt: string, attemptedAt: int)
      returns (reply: Option<Receipt>)
      requires Valid() && System().pc == Charging(Request(packet, started), evaluated, attempt, attemptedAt)
      modifies store, this`history
      ensures Valid() && System().pc.Idle? && old(history) <= history
      ensures exists response, readback, completed ::
                history == old(history) + [CallGitHub, ReadBack(response, readback), Conclude(completed)]
      ensures InOrder(cfg, history, |old(history)|)
      ensures Answers(old(System().log), System().log, packet.id, reply)
    {
      hide Build, Exec, Core, BelongsTo, OnCommitRecovery, OnAdmit, OnBegin, OnSubmit, OnObserveLive, Evaluate, Next, InOrder,
           Terminalize, LogOk, Track;
      EveryRun(cfg, history);
      var effect := EffectOf(packet);
      var execution := ExecuteEvaluatedAction(packet, evaluated);
      ghost var executed := history;
      EveryRun(cfg, history);
      ghost var s := System();
      var completed := Clock();
      match execution {
        case Doubtful(doubt) =>
          reply := SignAndTerminalize(effect, packet, attempt, RowIndeterminate,
                                      IndeterminateDraft(packet, started, attemptedAt, completed, attempt,
                                                         EvaluatedBefore(evaluated.before), IndeterminateExecution(doubt), None),
                                      completed);
        case Verified(after) =>
          reply := SignAndTerminalize(effect, packet, attempt, RowCompleted,
                                      AppliedDraft(started, attemptedAt, completed, attempt, evaluated, after), completed);
      }
      FinishAnswersOnce(cfg, s, completed);
      Took(Conclude(completed));
      InOrderJoins(cfg, executed, history, |old(history)|);
    }

    /** Charges the attempt, then performs it; budget, circuit and pending errors become signed rejections. */
    method MutateReady(packet: Packet, evaluated: Evaluated, started: int) returns (reply: Option<Receipt>)
      requires Valid() && System().pc == Ready(Request(packet, started), evaluated) && TargetsFitAction(packet)
      modifies store, this`history
      ensures Valid() && System().pc.Idle? && old(history) <= history
      ensures |history| > |old(history)| && history[|old(history)|].Begin?
      ensures var begin := history[|old(history)|];
              var begun := BeginMutation(old(store.State()), EffectOf(packet), packet.id, begin.attempt,
                                         EvaluatedBefore(evaluated.before), cfg.limits, begin.now);
              |history| == |old(history)| + 1 + StepsAfter(begun)
      ensures InOrder(cfg, history, |old(history)|)
      ensures Answers(old(System().log), System().log, packet.id, reply)
    {
      hide Build, Exec, OnCommitRecovery, OnAdmit, OnConclude, OnSubmit, OnObserveLive, OnCall, Evaluate,
           BeginMutation, Inv, Answers, Quiet, InOrder, Core, Next, EffectOf, TargetsFitAction, RowOf, IsPendingListing;
      EveryRun(cfg, history);
      ghost var s := System();
      var attempt := NewAttemptId();
      var now := Clock();
      BegunStep(cfg, s, attempt, now);
      LogAnswers(s.log, packet.id);
      var effect := EffectOf(packet);
      var begun := store.BeginMutation(effect, packet.id, attempt, EvaluatedBefore(evaluated.before), now);
      Took(Begin(attempt, now));
      ghost var charged := history;
      match begun {
        case Err(BudgetExceeded(budget)) =>
          var reason := BudgetExhausted(budget);
          reply := RecordRejection(packet, Some(effect), started, reason, EffectCondition(reason));
        case Err(CircuitOpen) =>
          var reason := CircuitRefused(ActionOpen);
          reply := RecordRejection(packet, Some(effect), started, reason, EffectCondition(reason));
        case Err(PendingRecoveryError) =>
          var reason := CircuitRefused(SemanticPending);
          reply := RecordRejection(packet, None, started, reason, EffectCondition(reason));
        case Err(_) =>
          reply := None;
        case Ok(StartReplay(receipt)) =>
          reply := Some(receipt);
        case Ok(StartIndeterminate) =>
          var reason := CircuitRefused(SemanticIndeterminate);
          reply := RecordRejection(packet, Some(effect), started, reason, EffectCondition(reason));
        case Ok(StartCompleted) =>
          reply := RecordRejection(packet, Some(effect), started, PreconditionFailed(SemanticStateDrift),
                                   EvaluatedBefore(evaluated.before));
        case Ok(_) =>
          ghost var middle := System().log;
          reply := PerformMutation(packet, evaluated, started, attempt, now);
          QuietThenAnswers(s.log, middle, System().log, packet.id, reply);
      }
      if |history| > |charged| {
        InOrderJoins(cfg, charged, history, |old(history)|);
      }
    }

    // ----- handle ------------------------------------------------------------------------------

    /** A reserved request: live preconditions first, then the mutation if the state still asks for it. */
    method Authorize(packet: Packet, started: int, completed: bool) returns (reply: Option<Receipt>)
      requires Valid() && System().pc == Admitted(Request(packet, started), completed) && TargetsFitAction(packet)
      modifies store, this`history
      ensures Valid() && System().pc.Idle? && old(history) <= history
      ensures |history| > |old(history)| && history[|old(history)|].ObserveLive?
      ensures InOrder(cfg, history, |old(history)|)
      ensures Answers(old(System().log), System().log, packet.id, reply)
    {
      hide InOrder, Exec, OnCommitRecovery, OnAdmit, OnConclude, OnSubmit, OnBegin, Evaluate;
      var effect := EffectOf(packet);
      var fetch := FetchSnapshot();
      Took(ObserveLive(fetch));
      ghost var observed := history;
      if fetch.Unavailable? {
        reply := RecordRejection(packet, Some(effect), started, PreconditionFailed(LiveStateUnavailable),
                                 RefusedPacket(packet.digest, LiveStateUnavailable));
        InOrderJoins(cfg, observed, history, |old(history)|);
        return;
      }
      var result := Evaluate(cfg, packet, fetch.snapshot, true);
      if result.Err? {
        var why := ActionRefused(result.error);
        reply := RecordRejection(packet, Some(effect), started, PreconditionFailed(why), RefusedPacket(packet.digest, why));
        InOrderJoins(cfg, observed, history, |old(history)|);
        return;
      }
      var evaluated := result.value;
      if completed && !evaluated.alreadySatisfied {
        reply := RecordRejection(packet, Some(effect), started, PreconditionFailed(SemanticStateDrift),
                                 EvaluatedBefore(evaluated.before));
      } else if evaluated.alreadySatisfied {
        reply := RecordAlreadySatisfied(packet, evaluated, fetch.snapshot, started);
      } else {
        reply := MutateReady(packet, evaluated, started);
      }
      InOrderJoins(cfg, observed, history, |old(history)|);
    }

    /** After recovery: a replay, a refusal, or a reservation and what follows from it. */
    method AdmitRequest(packet: Packet, started: int) returns (reply: Option<Receipt>)
      requires Valid() && System().pc == Recovering(Request(packet, started), [])
      modifies store, this`history
      ensures Valid() && System().pc.Idle? && old(history) <= history
      ensures |history| > |old(history)| && history[|old(history)|] == Admit
      ensures InOrder(cfg, history, |old(history)|)
      ensures Answers(old(System().log), System().log, packet.id, reply)
    {
      hide InOrder, Exec, OnCommitRecovery, OnConclude, OnSubmit, OnBegin, OnObserveLive, Core, Accepted, Reserve;
      EveryRun(cfg, history);
      ghost var s := System();
      var recovered := store.LoadReceipt(packet.id);
      if recovered.Some? {
        Took(Admit);
        return if packet.id in store.packets && store.packets[packet.id] == packet then Some(recovered.value.receipt) else None;
      }
      if !Accepted(cfg, packet, started) {
        Took(Admit);
        return None;
      }
      ReservationStep(cfg, s);
      var reservation := store.Reserve(packet, started);
      Took(Admit);
      ghost var admitted := history;
      match reservation {
        case Err(_) =>
          reply := None;
        case Ok(ReceiptReplay(receipt)) =>
          reply := Some(receipt);
        case Ok(SemanticIndeterminateEffect) =>
          var reason := CircuitRefused(SemanticIndeterminate);
          reply := RecordRejection(packet, Some(EffectOf(packet)), started, reason, EffectCondition(reason));
        case Ok(SemanticCompleted) =>
          reply := Authorize(packet, started, true);
        case Ok(_) =>
          reply := Authorize(packet, started, false);
      }
      if |history| > |admitted| {
        InOrderJoins(cfg, admitted, history, |old(history)|);
      }
    }

    /** Handles one submission: returns the packet's signed receipt, or None where the program raises. */
    method Handle(packet: Packet) returns (reply: Option<Receipt>)
      requires Valid() && System().pc.Idle?
      modifies store, this`history
      ensures Valid() && System().pc.Idle? && old(history) <= history
      ensures |history| > |old(history)| && history[|old(history)|].Submit? && history[|old(history)|].packet == packet
      ensures InOrder(cfg, history, |old(history)| + 1)
      ensures Answers(old(System().log), System().log, packet.id, reply)
      ensures reply.Some? ==>
                RowOf(store.receipts, packet.id).Some? && RowOf(store.receipts, packet.id).value.receipt == reply.value
      ensures var stored := old(RowOf(store.receipts, packet.id));
              stored.Some? && packet.id in old(store.packets) && old(store.packets)[packet.id] == packet ==>
                reply == Some(stored.value.receipt) && store.State() == old(store.State())
    {
      hide InOrder, Exec, OnCommitRecovery, OnConclude, OnAdmit, OnBegin, OnObserveLive, WellFormed, Core, AttemptRows;
      EveryRun(cfg, history);
      StoredAreWellFormed(cfg, System());
      var started := Clock();
      var existing := store.LoadReceipt(packet.id);
      Took(Submit(packet, started));
      ghost var submitted := history;
      NothingYet(cfg, history);
      if !WellFormed(cfg, packet) {
        return None;
      }
      if existing.Some? {
        return if packet.id in store.packets && store.packets[packet.id] == packet then Some(existing.value.receipt) else None;
      }
      var recovered, _ := RecoverPending(packet.id);
      if !recovered {
        return None;
      }
      ghost var middle := System().log;
      ghost var passed := history;
      reply := AdmitRequest(packet, started);
      InOrderJoins(cfg, passed, history, |submitted|);
      QuietThenAnswers(old(System().log), middle, System().log, packet.id, reply);
      EveryRun(cfg, history);
      if reply.Some? {
        LastReplyIsStored(cfg, System());
      }
    }
  }

  // ----- the machine's recovery steps, as the loop uses them -----------------------------------

  lemma NothingYet(cfg: Config, history: seq<Input>)
    ensures InOrder(cfg, history, |history|)
  {
  }

  lemma ListPendingStep(cfg: Config, s: Lifecycle.System, rows: seq<PendingAttempt>)
    requires s.pc.Started? && IsPendingListing(s.store, rows)
    ensures Next(cfg, s, ListPending(rows)) == s.(pc := Recovering(s.pc.request, rows))
    ensures AwaitsInput(s, ListPending(rows)) && Quiet(s.log, s.log) && Extends(s.store, s.store)
  {
  }

  lemma RecoveryIsQuiet(cfg: Config, s: Lifecycle.System, fetch: Fetch, now: int, later: int)
    requires s.pc.Recovering? && s.pc.queue != []
    ensures Quiet(s.log, RecoverHead(cfg, s, fetch, now, later).log)
  {
    hide Build, Terminalize, Evaluate, Desired, ReconcileAbsent, OnConclude, OnAdmit, OnBegin, OnSubmit, OnObserveLive;
  }

  lemma StaysQuiet(a: seq<Event>, b: seq<Event>, c: seq<Event>)
    requires Quiet(a, b) && Quiet(b, c)
    ensures Quiet(a, c)
  {
  }

  /** Recording an outcome of a stored packet sends the signed receipt, once, exactly when it was stored. */
  lemma RecordStepAnswers(cfg: Config, s: Lifecycle.System, packet: Packet, state: RowState, effect: Option<EffectKey>,
                          draft: Draft, evidence: Option<Snapshot>, now: int)
    requires packet.id in s.store.packets && s.store.packets[packet.id] == packet
    ensures var after := RecordStep(cfg, s, packet, state, effect, draft, evidence, now);
            after.pc.Idle? &&
            match Build(cfg, packet, draft, HeadDigest(s.store.receipts))
            case Err(_) => Answers(s.log, after.log, packet.id, None)
            case Ok(receipt) =>
              var stored := RecordPacketReceipt(s.store, packet.id, state, receipt, effect, cfg.limits, now).Ok?;
              Answers(s.log, after.log, packet.id, if stored then Some(receipt) else None)
  {
    hide Build, PacketOutcomeAllowed;
    var built := Build(cfg, packet, draft, HeadDigest(s.store.receipts));
    if built.Ok? {
      var after := RecordStep(cfg, s, packet, state, effect, draft, evidence, now);
      var recorded := RecordPacketReceipt(s.store, packet.id, state, built.value, effect, cfg.limits, now);
      if recorded.Ok? {
        assert after.log[|after.log| - 1] == Replied(packet.id, built.value);
        assert s.log <= after.log[..|after.log| - 1];
      }
    }
  }

  lemma StoredAreWellFormed(cfg: Config, s: Lifecycle.System)
    requires Inv(cfg, s)
    ensures forall id | id in s.store.packets :: WellFormed(cfg, s.store.packets[id])
  {
  }

  lemma LastReplyIsStored(cfg: Config, s: Lifecycle.System)
    requires Inv(cfg, s) && s.log != [] && s.log[|s.log| - 1].Replied?
    ensures var last := s.log[|s.log| - 1];
            RowOf(s.store.receipts, last.packetId).Some? && RowOf(s.store.receipts, last.packetId).value.receipt == last.receipt
  {
    ReplyMatchesRow(cfg, s.log, s.store.receipts, |s.log| - 1);
  }

  lemma QuietThenAnswers(a: seq<Event>, b: seq<Event>, c: seq<Event>, packetId: string, reply: Option<Receipt>)
    requires Quiet(a, b) && Answers(b, c, packetId, reply)
    ensures Answers(a, c, packetId, reply)
  {
  }

  /** Ending an attempt of a stored packet writes its row, and the step logs no reply of its own. */
  lemma TerminalizeStepStores(cfg: Config, s: Lifecycle.System, effect: EffectKey, packet: Packet, attempt: string, state: RowState,
                              draft: Draft, evidence: Option<Snapshot>, now: int)
    requires Decisive(state) && HoldsAttempt(s.store, effect, packet, attempt) && s.store.effects[effect].state == Pending
    ensures match Build(cfg, packet, draft, HeadDigest(s.store.receipts))
            case Err(_) => TerminalizeStep(cfg, s, effect, packet, attempt, state, draft, evidence, now) == None
            case Ok(receipt) =>
              match Terminalize(s.store, effect, packet.id, attempt, state, receipt, cfg.limits, now)
              case Err(_) => TerminalizeStep(cfg, s, effect, packet, attempt, state, draft, evidence, now) == None
              case Ok((store, _)) =>
                var step := TerminalizeStep(cfg, s, effect, packet, attempt, state, draft, evidence, now);
                && step.Some? && step.value.store == store && step.value.pc == s.pc && Quiet(s.log, step.value.log)
                && RowOf(store.receipts, packet.id) == Some(ReceiptRow(packet.id, Some(effect), state, receipt))
                && store.packets == s.store.packets
  {
    hide Build, BelongsTo, Track;
    var built := Build(cfg, packet, draft, HeadDigest(s.store.receipts));
    if built.Ok? {
      RowAppended(s.store.receipts, ReceiptRow(packet.id, Some(effect), state, built.value));
    }
  }

  /** The outcome of an attempt of a stored packet is sent once, exactly when it was stored. */
  lemma FinishAnswersOnce(cfg: Config, s: Lifecycle.System, now: int)
    requires Inv(cfg, s) && ValidConfig(cfg) && s.pc.Finishing? && TargetsFitAction(s.pc.request.packet)
    ensures var packet := s.pc.request.packet;
            var draft := FinishDraft(packet, s.pc, now);
            var state := if s.pc.execution.Verified? then RowCompleted else RowIndeterminate;
            var after := Next(cfg, s, Conclude(now));
            after.pc.Idle? &&
            match Build(cfg, packet, draft, HeadDigest(s.store.receipts))
            case Err(_) => after.store == s.store && Answers(s.log, after.log, packet.id, None)
            case Ok(receipt) =>
              match Terminalize(s.store, EffectOf(packet), packet.id, s.pc.attempt, state, receipt, cfg.limits, now)
              case Err(_) => after.store == s.store && Answers(s.log, after.log, packet.id, None)
              case Ok((store, _)) => after.store == store && Answers(s.log, after.log, packet.id, Some(receipt))
  {
    hide Build, LogOk, PhasesMatch, CircuitsMatch, RowsBound, ChargesAccounted, BudgetLedger, BelongsTo, OnCommitRecovery,
         OnAdmit, OnBegin, OnSubmit, OnObserveLive, RecordStep, TerminalizeStep, Terminalize, FinishDraft, RowOf;
    var packet := s.pc.request.packet;
    var verified := s.pc.execution.Verified?;
    assert EffectOk(s.store, EffectOf(packet));
    TerminalizeStepStores(cfg, s.(clock := now), EffectOf(packet), packet, s.pc.attempt,
                          if verified then RowCompleted else RowIndeterminate, FinishDraft(packet, s.pc, now),
                          if verified then Some(s.pc.execution.after) else None, now);
  }

  lemma LogAnswers(log: seq<Event>, packetId: string)
    ensures Answers(log, log, packetId, None)
    ensures forall receipt :: Answers(log, log + [Replied(packetId, receipt)], packetId, Some(receipt))
    ensures Quiet(log, log)
    ensures forall event: Event | !event.Replied? :: Quiet(log, log + [event])
  {
  }

  /** The packet of a stored request is the submitted one, so a replay found while charging is sent. */
  lemma BegunStep(cfg: Config, s: Lifecycle.System, attempt: string, now: int)
    requires Inv(cfg, s) && s.pc.Ready?
    ensures var packet := s.pc.request.packet;
            && TargetsFitAction(packet)
            && packet.id in s.store.packets && s.store.packets[packet.id] == packet
            && var begun := BeginMutation(s.store, EffectOf(packet), packet.id, attempt, EvaluatedBefore(s.pc.evaluated.before),
                                          cfg.limits, now);
               && (begun.Ok? && begun.value.1 != ChargedNow ==> begun.value.0 == s.store)
               && (begun.Ok? && begun.value.1 == ChargedNow ==> EffectOf(packet) in s.store.effects)
               && Next(cfg, s, Begin(attempt, now)) == OnBegun(s.(clock := now), begun, attempt, now)
  {
    hide Core, OnBegun;
  }

  /** Reserving stores exactly the submitted packet. */
  lemma ReservationStep(cfg: Config, s: Lifecycle.System)
    requires s.pc.Recovering?
    ensures var packet := s.pc.request.packet;
            var reserved := Reserve(s.store, packet, cfg.limits, s.pc.request.started);
            reserved.Ok? ==>
              packet.id in reserved.value.0.packets && reserved.value.0.packets[packet.id] == packet
  {
  }

  /** The step of a recovery pass that observed `input` resolved this row, by the snapshot and clock it read. */
  predicate ResolvedBy(cfg: Config, before: Store, after: Store, row: PendingAttempt, retryId: string, input: Input) {
    && input.ObserveRecovery?
    && row.packetId in before.packets
    && Resolved(cfg, before.packets[row.packetId], after, row, retryId, input.fetch, input.now)
  }

  /** One turn of the recovery loop: the head is resolved and everything resolved before stays so. */
  lemma RecoveryStep(cfg: Config, before: Store, s: Lifecycle.System, fetch: Fetch, now: int, later: int, rows: seq<PendingAttempt>,
                     seen: seq<Input>)
    requires ValidConfig(cfg) && Inv(cfg, s) && |seen| < |rows| && IsPendingListing(before, rows)
    requires s.pc.Recovering? && s.pc.queue == rows[|seen|..]
    requires Extends(before, s.store)
    requires var after := RecoverHead(cfg, s, fetch, now, later); !after.pc.Idle? && Inv(cfg, after)
    requires forall i | |seen| <= i < |rows| :: RowAt(s.store, rows[i].effect) == RowAt(before, rows[i].effect)
    requires forall i | 0 <= i < |seen| :: ResolvedBy(cfg, before, s.store, rows[i], s.pc.request.packet.id, seen[i])
    ensures var after := RecoverHead(cfg, s, fetch, now, later);
            && after.pc == Recovering(s.pc.request, rows[|seen| + 1..])
            && Extends(before, after.store)
            && (forall i | |seen| < i < |rows| :: RowAt(after.store, rows[i].effect) == RowAt(before, rows[i].effect))
            && (forall i | 0 <= i < |seen| :: ResolvedBy(cfg, before, after.store, rows[i], s.pc.request.packet.id, seen[i]))
            && ResolvedBy(cfg, before, after.store, rows[|seen|], s.pc.request.packet.id, ObserveRecovery(fetch, now))
  {
    hide RecoverHead, Resolved, Inv, ReceiptLog, Extends;
    var n := |seen|;
    var retryId := s.pc.request.packet.id;
    RecoveryResolves(cfg, s, fetch, now, later);
    var after := RecoverHead(cfg, s, fetch, now, later);
    ExtendsTransitively(before, s.store, after.store);
    assert rows[n..][0] == rows[n] && rows[n..][1..] == rows[n + 1..];
    ListedPacketStays(before, s.store, rows[n]);
    KeepsReceiptLog(cfg, after);
    forall i | 0 <= i < n ensures ResolvedBy(cfg, before, after.store, rows[i], retryId, seen[i]) {
      assert rows[i].effect != rows[n].effect;
      ResolutionPersists(cfg, before.packets[rows[i].packetId], s.store, after.store, rows[i], retryId, seen[i].fetch, seen[i].now);
    }
    forall i | n < i < |rows| ensures RowAt(after.store, rows[i].effect) == RowAt(before, rows[i].effect) {
      assert rows[n].effect != rows[i].effect;
    }
  }

  lemma ListedPacketStays(before: Store, after: Store, row: PendingAttempt)
    requires ListsAttempt(before, row) && Extends(before, after)
    ensures row.packetId in after.packets && after.packets[row.packetId] == before.packets[row.packetId]
  {
  }

  lemma KeepsReceiptLog(cfg: Config, s: Lifecycle.System)
    requires Inv(cfg, s)
    ensures ReceiptLog(s.store.receipts)
  {
  }

  lemma ListingIsComplete(st: Store, rows: seq<PendingAttempt>)
    requires IsPendingListing(st, rows)
    ensures forall row | ListsAttempt(st, row) :: row in rows
  {
  }
}
