/** The guarantees of the broker, each over every run: any inputs, any crashes, any clock, any live state. */
module BrokerGuarantees {
  import opened Outcomes
  import opened Packets
  import opened Actions
  import opened Receipts
  import opened StoreState
  import opened StoreInvariants
  import opened Lifecycle
  import opened BrokerInvariant
  import opened BrokerSafety
  import opened LoggedPackets
  import opened Counting
  import opened ActionLaws
  import opened StoreAdmission

  // ----- reading the history of one effect -----------------------------------------------------

  predicate CallOn(event: Event, effect: EffectKey) {
    event.Called? && event.effect == effect
  }

  function CallsOf(log: seq<Event>, effect: EffectKey): nat {
    if log == [] then 0
    else CallsOf(log[..|log| - 1], effect) + Indicator(CallOn(log[|log| - 1], effect))
  }

  lemma {:induction false} CallsAreCounted(log: seq<Event>, effect: EffectKey)
    ensures CallsOf(log, effect) == |set i | 0 <= i < |log| && log[i].Called? && log[i].effect == effect|
  {
    if log != [] {
      var n := |log| - 1;
      CallsAreCounted(log[..n], effect);
      var earlier := set i | 0 <= i < n && log[..n][i].Called? && log[..n][i].effect == effect;
      var all := set i | 0 <= i < |log| && log[i].Called? && log[i].effect == effect;
      OneMore(earlier, all, n);
    }
  }

  /** How many calls a phase can have behind it. */
  function CallBound(phase: Phase): nat {
    match phase
    case Fresh => 0
    case InFlight(nth, _, called) => if called || nth == 0 then nth else nth - 1
    case Cleared(_) => 1
    case _ => 2
  }

  lemma {:induction false} PhaseBoundsCalls(log: seq<Event>, effect: EffectKey)
    requires Track(log, effect) != Broken
    ensures CallsOf(log, effect) <= CallBound(Track(log, effect)) <= 2
    ensures Track(log, effect).InFlight? ==> 1 <= Track(log, effect).nth <= 2
  {
    if log != [] {
      PhaseBoundsCalls(log[..|log| - 1], effect);
    }
  }

  /** An event that was logged fits the log before it. */
  lemma {:induction false} LoggedEventFits(cfg: Config, log: seq<Event>, i: nat)
    requires LogOk(cfg, log) && i < |log|
    ensures EventFitsLog(cfg, log[..i], log[i])
  {
    if i < |log| - 1 {
      LoggedEventFits(cfg, log[..|log| - 1], i);
      assert log[..|log| - 1][..i] == log[..i];
    }
  }

  /** Once broken, always broken: a sound history was sound at every earlier point. */
  lemma {:induction false} SoundPrefix(log: seq<Event>, effect: EffectKey, i: nat)
    requires Track(log, effect) != Broken && i <= |log|
    ensures Track(log[..i], effect) != Broken
  {
    if i < |log| {
      var prefix := log[..|log| - 1];
      SoundPrefix(prefix, effect, i);
      assert prefix[..i] == log[..i];
    } else {
      assert log[..i] == log;
    }
  }

  /** A retry: absence of the first attempt, then a charge under a new key. */
  predicate RetryBetween(log: seq<Event>, effect: EffectKey, first: string, second: string, lo: nat, m: nat, c: nat, hi: nat) {
    && lo < m < c < hi <= |log|
    && log[m].FoundAbsent? && log[m].effect == effect && log[m].attempt == first
    && log[c].Charged? && log[c].effect == effect && log[c].attempt == second
    && first != second
  }

  /** What can have happened to an effect since one of its calls. */
  lemma {:induction false} SinceCall(log: seq<Event>, effect: EffectKey, i: nat) returns (m: nat, c: nat)
    requires i < |log| && CallOn(log[i], effect) && Track(log, effect) != Broken
    ensures var attempt := log[i].attempt;
            match Track(log, effect)
            case InFlight(nth, current, called) =>
              || (current == attempt && called)
              || (nth == 2 && RetryBetween(log, effect, attempt, current, i, m, c, |log|))
            case Cleared(cleared) =>
              cleared == attempt && i < m < |log| && log[m].FoundAbsent? && log[m].effect == effect && log[m].attempt == attempt
            case Done => true
            case _ => false
  {
    var prefix := log[..|log| - 1];
    m, c := 0, 0;
    if i < |log| - 1 {
      assert prefix[i] == log[i];
      m, c := SinceCall(prefix, effect, i);
      var last := log[|log| - 1];
      if last.FoundAbsent? && last.effect == effect {
        m := |log| - 1;
      } else if last.Charged? && last.effect == effect {
        c := |log| - 1;
      }
    }
  }

  /** When an effect has left pending it stays so. */
  lemma {:induction false} DoneStays(log: seq<Event>, effect: EffectKey, i: nat)
    requires Track(log, effect) != Broken && i < |log|
    requires log[i].Settled? && log[i].effect == effect
    ensures Track(log, effect) == Done
  {
    if i < |log| - 1 {
      DoneStays(log[..|log| - 1], effect, i);
    }
  }

  lemma {:induction false} LoggedChargeIsEvent(log: seq<Event>, charge: ChargeId) returns (c: nat)
    requires charge in LoggedCharges(log)
    ensures c < |log| && log[c].Charged?
            && charge == ChargeId(log[c].effect, log[c].packetId, log[c].attempt)
  {
    var last := log[|log| - 1];
    if last.Charged? && charge == ChargeId(last.effect, last.packetId, last.attempt) {
      c := |log| - 1;
    } else {
      c := LoggedChargeIsEvent(log[..|log| - 1], charge);
    }
  }

  lemma {:induction false} LoggedChargesGrow(log: seq<Event>, i: nat, charge: ChargeId)
    requires i <= |log| && charge in LoggedCharges(log[..i])
    ensures charge in LoggedCharges(log)
  {
    if i < |log| {
      assert log[..|log| - 1][..i] == log[..i];
      LoggedChargesGrow(log[..|log| - 1], i, charge);
    } else {
      assert log[..i] == log;
    }
  }

  // ----- external calls ------------------------------------------------------------------------

  /** One semantic effect never receives more than two external calls, nor more than its committed charges. */
  lemma AtMostTwoCalls(cfg: Config, s: System, effect: EffectKey)
    requires ValidConfig(cfg) && Reachable(cfg, s)
    ensures |set i | 0 <= i < |s.log| && s.log[i].Called? && s.log[i].effect == effect| <= 2
    ensures |set i | 0 <= i < |s.log| && s.log[i].Called? && s.log[i].effect == effect|
            <= |set k | 0 <= k < |s.store.events| && s.store.events[k].MutationCharge? && s.store.events[k].effect == effect|
  {
    hide Reachable;
    CallsAreCounted(s.log, effect);
    ChargesAreCounted(s.store.events, effect);
    EveryReachableState(cfg, s);
    assert EffectOk(s.store, effect) && PhaseMatches(RowAt(s.store, effect), Track(s.log, effect));
    PhaseBoundsCalls(s.log, effect);
    CallsWithinCharges(cfg, s.log, s.store.events, effect);
  }

  function ChargeEventsOf(log: seq<Event>, effect: EffectKey): nat {
    if log == [] then 0
    else
      var last := log[|log| - 1];
      ChargeEventsOf(log[..|log| - 1], effect) + Indicator(last.Charged? && last.effect == effect)
  }

  lemma {:induction false} PhaseBoundsByCharges(log: seq<Event>, effect: EffectKey)
    requires Track(log, effect) != Broken
    ensures CallsOf(log, effect) <= ChargeEventsOf(log, effect)
    ensures Track(log, effect).InFlight? && !Track(log, effect).called ==> CallsOf(log, effect) < ChargeEventsOf(log, effect)
  {
    if log != [] {
      PhaseBoundsByCharges(log[..|log| - 1], effect);
    }
  }

  function ChargesIn(charges: seq<ChargeId>, effect: EffectKey): nat {
    if charges == [] then 0
    else ChargesIn(charges[..|charges| - 1], effect) + Indicator(charges[|charges| - 1].effect == effect)
  }

  lemma ChargesInAppended(charges: seq<ChargeId>, charge: ChargeId, effect: EffectKey)
    ensures ChargesIn(charges + [charge], effect) == ChargesIn(charges, effect) + Indicator(charge.effect == effect)
  {
  }

  lemma {:induction false} LoggedChargesCount(log: seq<Event>, effect: EffectKey)
    ensures ChargesIn(LoggedCharges(log), effect) == ChargeEventsOf(log, effect)
  {
    if log != [] {
      var prefix := log[..|log| - 1];
      var last := log[|log| - 1];
      LoggedChargesCount(prefix, effect);
      if last.Charged? {
        ChargesInAppended(LoggedCharges(prefix), ChargeId(last.effect, last.packetId, last.attempt), effect);
      } else {
        assert LoggedCharges(prefix) + [] == LoggedCharges(prefix);
      }
    }
  }

  lemma {:induction false} LedgerChargesCount(events: seq<BudgetEvent>, effect: EffectKey)
    ensures ChargesIn(LedgerCharges(events), effect) == ChargesOf(events, effect)
  {
    if events != [] {
      var prefix := events[..|events| - 1];
      var last := events[|events| - 1];
      LedgerChargesCount(prefix, effect);
      if last.MutationCharge? {
        ChargesInAppended(LedgerCharges(prefix), ChargeId(last.effect, last.packetId, last.attempt), effect);
      } else {
        assert LedgerCharges(prefix) + [] == LedgerCharges(prefix);
      }
    }
  }

  lemma CallsWithinCharges(cfg: Config, log: seq<Event>, events: seq<BudgetEvent>, effect: EffectKey)
    requires Track(log, effect) != Broken && LoggedCharges(log) == LedgerCharges(events)
    ensures CallsOf(log, effect) <= ChargesOf(events, effect)
  {
    PhaseBoundsByCharges(log, effect);
    LoggedChargesCount(log, effect);
    LedgerChargesCount(events, effect);
  }

  /** Every call is made under its own charge, committed before it and still in the ledger. */
  lemma EveryCallIsCharged(cfg: Config, s: System, i: nat) returns (c: nat)
    requires ValidConfig(cfg) && Reachable(cfg, s)
    requires i < |s.log| && s.log[i].Called?
    ensures var call := s.log[i];
            && c < i && s.log[c].Charged?
            && s.log[c].effect == call.effect && s.log[c].packetId == call.packetId && s.log[c].attempt == call.attempt
            && ChargeId(call.effect, call.packetId, call.attempt) in LedgerCharges(s.store.events)
  {
    hide Reachable;
    EveryReachableState(cfg, s);
    var call := s.log[i];
    LoggedEventFits(cfg, s.log, i);
    var charge := ChargeId(call.effect, call.packetId, call.attempt);
    c := LoggedChargeIsEvent(s.log[..i], charge);
    LoggedChargesGrow(s.log, i, charge);
  }

  /**
   Between two calls on one effect there are a committed proof that the first attempt had no effect,
   based on a snapshot that was authorized and did not show the desired state, and then a new charge.
   */
  lemma CallsAreSeparated(cfg: Config, s: System, effect: EffectKey, i: nat, j: nat) returns (m: nat, c: nat)
    requires ValidConfig(cfg) && Reachable(cfg, s)
    requires i < j < |s.log|
    requires CallOn(s.log[i], effect) && CallOn(s.log[j], effect)
    ensures var log := s.log;
            && RetryBetween(log, effect, log[i].attempt, log[j].attempt, i, m, c, j)
            && log[m].packetId in s.store.packets && log[m].packet == s.store.packets[log[m].packetId]
            && AsksFor(log[m].packet, effect)
            && Authorized(cfg, log[m].packet, log[m].live, false) && !ShowsRequested(log[m].packet, log[m].live)
  {
    hide Reachable, Authorized, ShowsRequested, Evaluate, Desired;
    SoundHistory(cfg, s, effect);
    m, c := RetrySeparates(s.log, effect, i, j);
    EveryReachableState(cfg, s);
    LoggedEventFits(cfg, s.log, m);
    LogNamesStoredPackets(cfg, s);
    assert NamesStoredPacket(s.store, s.log[m]);
    EvaluateAcceptsIff(cfg, s.log[m].packet, s.log[m].live, false);
    DesiredMeans(s.log[m].packet, s.log[m].live);
    StoredAsksFor(cfg, s, s.log[m].packetId, effect);
  }

  lemma StoredAsksFor(cfg: Config, s: System, id: string, effect: EffectKey)
    requires Inv(cfg, s) && id in s.store.packets && TargetsFitAction(s.store.packets[id]) && EffectOf(s.store.packets[id]) == effect
    ensures AsksFor(s.store.packets[id], effect)
  {
    EffectIsWhatIsAsked(s.store.packets[id], effect);
  }

  lemma SoundHistory(cfg: Config, s: System, effect: EffectKey)
    requires ValidConfig(cfg) && Reachable(cfg, s)
    ensures Track(s.log, effect) != Broken
  {
    hide Reachable;
    EveryReachableState(cfg, s);
    assert PhaseMatches(RowAt(s.store, effect), Track(s.log, effect));
  }

  /** In a sound history a second call can only be a retry. */
  lemma RetrySeparates(log: seq<Event>, effect: EffectKey, i: nat, j: nat) returns (m: nat, c: nat)
    requires i < j < |log| && CallOn(log[i], effect) && CallOn(log[j], effect) && Track(log, effect) != Broken
    ensures RetryBetween(log, effect, log[i].attempt, log[j].attempt, i, m, c, j)
  {
    SoundPrefix(log, effect, j + 1);
    SoundPrefix(log, effect, j);
    var before := log[..j];
    assert log[..j + 1][..j] == before;
    assert before[i] == log[i];
    m, c := SinceCall(before, effect, i);
    assert before[m] == log[m] && before[c] == log[c];
  }

  /** No call is made on an effect after it left pending. */
  lemma NoCallAfterSettlement(cfg: Config, s: System, effect: EffectKey, i: nat, j: nat)
    requires ValidConfig(cfg) && Reachable(cfg, s)
    requires i < j < |s.log|
    requires s.log[i].Settled? && s.log[i].effect == effect
    ensures !CallOn(s.log[j], effect)
  {
    SoundHistory(cfg, s, effect);
    SettledIsLast(s.log, effect, i, j);
  }

  lemma SettledIsLast(log: seq<Event>, effect: EffectKey, i: nat, j: nat)
    requires i < j < |log| && log[i].Settled? && log[i].effect == effect && Track(log, effect) != Broken
    ensures !CallOn(log[j], effect)
  {
    SoundPrefix(log, effect, j + 1);
    SoundPrefix(log, effect, j);
    assert log[..j + 1][..j] == log[..j];
    DoneStays(log[..j], effect, i);
  }

  // ----- no wedge ------------------------------------------------------------------------------

  /** The packet of an active attempt has no receipt, is active for one effect only, and its outcome can always be stored. */
  lemma NoWedge(cfg: Config, s: System, row: PendingAttempt, state: RowState, receipt: Receipt, now: int)
    requires ValidConfig(cfg) && Reachable(cfg, s) && ListsAttempt(s.store, row)
    requires Decisive(state) && receipt.packetId == row.packetId
    ensures var st := s.store;
            && RowOf(st.receipts, row.packetId).None?
            && (forall other | other != row.effect ::
                  RowAt(st, other).active.Some? ==> RowAt(st, other).active.value.packetId != row.packetId)
            && (Terminalize(st, row.effect, row.packetId, row.attempt, state, receipt, cfg.limits, now).Ok?
                <==> st.packets[row.packetId].createdAt <= now + MAX_CLOCK_SKEW_SECONDS)
  {
    hide Reachable;
    EveryReachableState(cfg, s);
    assert EffectOk(s.store, row.effect);
    var packet := s.store.packets[row.packetId];
    assert packet.id == row.packetId;
    ActiveAttemptCanTerminalize(cfg, s.store, s.log, row.effect, packet, row.attempt, state, receipt, now);
    forall other | other != row.effect && RowAt(s.store, other).active.Some?
      ensures RowAt(s.store, other).active.value.packetId != row.packetId
    {
      assert EffectOk(s.store, other);
    }
  }

  /** When the recovery pass of a request is over, no attempt of its packet is active. */
  lemma RecoveryClearsRequester(cfg: Config, s: System, effect: EffectKey)
    requires ValidConfig(cfg) && Reachable(cfg, s)
    requires s.pc.Recovering? && s.pc.queue == []
    ensures RowAt(s.store, effect).active.Some? ==> RowAt(s.store, effect).active.value.packetId != s.pc.request.packet.id
  {
    hide Reachable;
    EveryReachableState(cfg, s);
    EmptyQueueClears(s.store, s.pc.request.packet.id);
  }

  // ----- charges -------------------------------------------------------------------------------

  /**
   Conservation: an effect's mutation charges are its attempts, and each is the active attempt, the
   one absence, or the one receipt that ended an attempt; so a pending effect without an active
   attempt has been charged at most once and its retry is never exhausted.
   */
  lemma ChargeConservation(cfg: Config, s: System, effect: EffectKey)
    requires ValidConfig(cfg) && Reachable(cfg, s)
    ensures var st := s.store;
            var row := RowAt(st, effect);
            var ended := |set i | 0 <= i < |st.receipts| && st.receipts[i].effect == Some(effect)
                                  && st.receipts[i].receipt.mutation.operationId != ""|;
            && |set k | 0 <= k < |st.events| && st.events[k].MutationCharge? && st.events[k].effect == effect| == row.attempts
            && row.attempts == (if row.active.Some? then 1 else 0) + (if row.absence.Some? then 1 else 0) + ended
            && ended <= 1
            && (row.state == Pending ==> ended == 0)
            && row.attempts <= 2
            && (row.state == Pending && row.active.None? ==> row.attempts <= 1)
  {
    hide Reachable;
    EveryReachableState(cfg, s);
    assert EffectOk(s.store, effect);
    ChargesAreCounted(s.store.events, effect);
    AttemptRowsAreCounted(s.store.receipts, effect);
  }

  /** No (effect, attempt key) pair is ever charged twice. */
  lemma {:induction false} AttemptsAreChargedOnce(limits: Limits, events: seq<BudgetEvent>, i: nat, j: nat)
    requires BudgetLedger(limits, events) && i < j < |events|
    requires events[i].MutationCharge? && events[j].MutationCharge? && events[i].effect == events[j].effect
    ensures events[i].attempt != events[j].attempt
  {
    if j < |events| - 1 {
      AttemptsAreChargedOnce(limits, events[..|events| - 1], i, j);
    } else {
      UsedAt(events[..j], i);
    }
  }

  lemma {:induction false} UsedAt(events: seq<BudgetEvent>, i: nat)
    requires i < |events| && events[i].MutationCharge?
    ensures AttemptUsed(events, events[i].effect, events[i].attempt)
  {
    if i < |events| - 1 {
      UsedAt(events[..|events| - 1], i);
    }
  }

  /** The ledger's charge was found to have had no effect. */
  predicate ReconciledAsAbsent(st: Store, charge: BudgetEvent)
    requires charge.MutationCharge?
  {
    var absence := RowAt(st, charge.effect).absence;
    absence.Some? && absence.value.attempt == charge.attempt && absence.value.packetId == charge.packetId
  }

  /**
   A charge of an answered packet is the one its receipt names, or was reconciled as absent; a rejected
   packet's receipt names none, so all its charges were.
   */
  lemma ReceiptsAgreeWithLedger(cfg: Config, s: System, i: nat, k: nat)
    requires ValidConfig(cfg) && Reachable(cfg, s)
    requires var st := s.store;
             i < |st.receipts| && k < |st.events| && st.events[k].MutationCharge? && st.events[k].packetId == st.receipts[i].packetId
    ensures var st := s.store;
            var row := st.receipts[i];
            var charge := st.events[k];
            && (|| (row.effect == Some(charge.effect) && row.receipt.mutation.operationId == charge.attempt != "")
                || ReconciledAsAbsent(st, charge))
            && (row.state == RowRejected ==> row.receipt.mutation.operationId == "" && ReconciledAsAbsent(st, charge))
  {
    hide Reachable;
    EveryReachableState(cfg, s);
    var st := s.store;
    var row := st.receipts[i];
    var charge := st.events[k];
    RowIsRowOf(st.receipts, i);
    LoggedRowFits(st.receipts, i);
    assert ChargeAccounted(st, charge.packetId, charge.effect, charge.attempt);
    assert EffectOk(st, charge.effect);
  }

  /** Packets have at most one receipt, so looking a packet up finds each of its rows. */
  lemma {:induction false} RowIsRowOf(receipts: seq<ReceiptRow>, i: nat)
    requires ReceiptLog(receipts) && i < |receipts|
    ensures RowOf(receipts, receipts[i].packetId) == Some(receipts[i])
  {
    if i < |receipts| - 1 {
      var prefix := receipts[..|receipts| - 1];
      RowIsRowOf(prefix, i);
      assert prefix[i] == receipts[i];
    }
  }

  /** The signed outcome, the stored state and the ledger say the same thing about every receipt. */
  lemma OutcomeAgrees(cfg: Config, s: System, i: nat)
    requires ValidConfig(cfg) && Reachable(cfg, s) && i < |s.store.receipts|
    ensures var st := s.store;
            var row := st.receipts[i];
            var attempt := row.receipt.mutation.operationId;
            var status := row.receipt.mutation.status;
            && row.packetId in st.packets
            && (match row.state
                case RowCompleted => row.receipt.verdict == Succeeded && status == Applied && attempt != ""
                case RowReconciled =>
                  row.receipt.verdict == Succeeded
                  && ((status == ReconciledMutation && attempt != "") || (status == AlreadySatisfied && attempt == ""))
                case RowIndeterminate => row.receipt.verdict == Indeterminate && status == IndeterminateMutation && attempt != ""
                case RowRejected => row.receipt.verdict == Rejected && status == NotAttempted && attempt == "")
            && (attempt != "" ==>
                  && row.effect.Some?
                  && (exists k :: 0 <= k < |st.events| && st.events[k].MutationCharge? && st.events[k].packetId == row.packetId
                                  && st.events[k].effect == row.effect.value && st.events[k].attempt == attempt)
                  && (match row.state
                      case RowCompleted => RowAt(st, row.effect.value).state == Completed
                      case RowReconciled => RowAt(st, row.effect.value).state == Reconciled
                      case RowIndeterminate => RowAt(st, row.effect.value).state == EffectIndeterminate
                      case RowRejected => false))
  {
    hide Reachable;
    EveryReachableState(cfg, s);
    var st := s.store;
    var row := st.receipts[i];
    LoggedRowFits(st.receipts, i);
    assert RowBound(st, row);
    if row.receipt.mutation.operationId != "" {
      AttemptRowDecides(st.receipts, i, row.effect.value);
      assert EffectOk(st, row.effect.value);
      ChargedForMeansCharged(st.events, row.packetId, row.effect.value, row.receipt.mutation.operationId);
    }
  }

  lemma {:induction false} LoggedRowFits(receipts: seq<ReceiptRow>, i: nat)
    requires ReceiptLog(receipts) && i < |receipts|
    ensures RowFits(receipts[..i], receipts[i])
  {
    if i < |receipts| - 1 {
      LoggedRowFits(receipts[..|receipts| - 1], i);
      assert receipts[..|receipts| - 1][..i] == receipts[..i];
    }
  }

  /** A receipt that ended an attempt is the one that decided its effect. */
  lemma {:induction false} AttemptRowDecides(receipts: seq<ReceiptRow>, i: nat, effect: EffectKey)
    requires ReceiptLog(receipts) && i < |receipts|
    requires receipts[i].effect == Some(effect) && receipts[i].receipt.mutation.operationId != ""
    ensures FirstDecision(receipts, effect) == EffectStateOf(receipts[i].state)
  {
    if i < |receipts| - 1 {
      AttemptRowDecides(receipts[..|receipts| - 1], i, effect);
      LoggedRowFits(receipts, i);
    }
  }

  // ----- states and receipts -------------------------------------------------------------------

  /** An effect's state is the state of its earliest deciding receipt; a terminal effect therefore has one. */
  lemma StateIsFirstDecision(cfg: Config, s: System, effect: EffectKey)
    requires ValidConfig(cfg) && Reachable(cfg, s)
    ensures var st := s.store;
            && (RowAt(st, effect).state == Pending <==>
                  forall i | 0 <= i < |st.receipts| :: st.receipts[i].effect == Some(effect) ==> st.receipts[i].state == RowRejected)
            && (RowAt(st, effect).state != Pending ==>
                  exists i :: 0 <= i < |st.receipts| && st.receipts[i].effect == Some(effect)
                    && (match st.receipts[i].state
                        case RowCompleted => RowAt(st, effect).state == Completed
                        case RowReconciled => RowAt(st, effect).state == Reconciled
                        case RowIndeterminate => RowAt(st, effect).state == EffectIndeterminate
                        case RowRejected => false)
                    && forall j | 0 <= j < i :: st.receipts[j].effect == Some(effect) ==> st.receipts[j].state == RowRejected)
  {
    hide Reachable, FirstDecision;
    EveryReachableState(cfg, s);
    assert EffectOk(s.store, effect);
    FirstDecisionMeans(s.store.receipts, effect);
  }

  lemma {:induction false} PendingMeansUndecided(receipts: seq<ReceiptRow>, effect: EffectKey)
    ensures FirstDecision(receipts, effect) == Pending <==> forall i | 0 <= i < |receipts| :: !DecidesEffect(receipts[i], effect)
  {
    if receipts != [] {
      var prefix := receipts[..|receipts| - 1];
      PendingMeansUndecided(prefix, effect);
      assert forall i | 0 <= i < |prefix| :: prefix[i] == receipts[i];
      assert receipts[|receipts| - 1] == receipts[|prefix|];
    }
  }

  /** After the first decision only reconciliations without a call follow, and none after an indeterminate outcome. */
  lemma LaterDecisionsOnlyReconcile(cfg: Config, s: System, effect: EffectKey, i: nat, j: nat)
    requires ValidConfig(cfg) && Reachable(cfg, s)
    requires i < j < |s.store.receipts|
    requires var receipts := s.store.receipts;
             && receipts[i].effect == Some(effect) && receipts[i].state != RowRejected
             && receipts[j].effect == Some(effect) && receipts[j].state != RowRejected
    ensures var receipts := s.store.receipts;
            && receipts[j].state == RowReconciled
            && receipts[j].receipt.mutation.status == AlreadySatisfied
            && receipts[i].state != RowIndeterminate
  {
    hide Reachable;
    EveryReachableState(cfg, s);
    var receipts := s.store.receipts;
    PendingMeansUndecided(receipts[..j], effect);
    assert receipts[..j][i] == receipts[i];
    LoggedRowFits(receipts, j);
    LoggedRowFits(receipts, i);
    if receipts[i].state == RowIndeterminate {
      assert receipts[..j][i] == receipts[i];
      PrefixIsLog(receipts, j);
      AttemptRowDecides(receipts[..j], i, effect);
    }
  }

  lemma {:induction false} PrefixIsLog(receipts: seq<ReceiptRow>, j: nat)
    requires ReceiptLog(receipts) && j <= |receipts|
    ensures ReceiptLog(receipts[..j])
  {
    if j < |receipts| {
      PrefixIsLog(receipts[..|receipts| - 1], j);
      assert receipts[..|receipts| - 1][..j] == receipts[..j];
    } else {
      assert receipts[..j] == receipts;
    }
  }

  /** Beginning a mutation in a reachable state never finds a terminal effect without its receipt. */
  lemma TerminalEffectHasReceipt(cfg: Config, s: System, packet: Packet, effect: EffectKey, id: string,
                                 attempt: string, precondition: Precondition, now: int)
    requires ValidConfig(cfg) && Reachable(cfg, s)
    ensures var st := s.store;
            && Reserve(st, packet, cfg.limits, now) != Err(StoreCorruption)
            && BeginMutation(st, effect, id, attempt, precondition, cfg.limits, now) != Err(StoreCorruption)
  {
    hide Reachable;
    EveryReachableState(cfg, s);
    ReserveFindsReceipt(cfg, s.store, s.log, packet, now);
    assert EffectOk(s.store, effect);
    BeginFindsReceipt(s.store, effect, id, attempt, precondition, cfg.limits, now);
  }

  lemma BeginFindsReceipt(st: Store, effect: EffectKey, id: string, attempt: string, precondition: Precondition,
                          limits: Limits, now: int)
    requires EffectOk(st, effect)
    ensures BeginMutation(st, effect, id, attempt, precondition, limits, now) != Err(StoreCorruption)
  {
    DecidedHasReceipt(st.receipts, effect);
  }

  /** Every signed success rests on a snapshot that was accepted as already satisfied at the packet's head and target. */
  lemma SuccessRestsOnEvidence(cfg: Config, s: System, i: nat) returns (n: nat)
    requires ValidConfig(cfg) && Reachable(cfg, s)
    requires i < |s.store.receipts| && s.store.receipts[i].receipt.verdict == Succeeded
    ensures var row := s.store.receipts[i];
            && n < |s.log| && s.log[n].Recorded? && s.log[n].row == row && s.log[n].evidence.Some?
            && var packet := s.log[n].packet;
               var live := s.log[n].evidence.value;
               && row.packetId in s.store.packets && packet == s.store.packets[row.packetId]
               && packet.id == row.packetId && row.receipt.head == packet.pr.head
               && Authorized(cfg, packet, live, true) && ShowsRequested(packet, live)
               && row.receipt.readback.head == Some(packet.pr.head)
               && row.receipt.readback.isDraft == Some(live.pr.isDraft)
               && row.receipt.readback.resolved == packet.threadIds
  {
    hide Reachable, Authorized, ShowsRequested, Evaluate, Desired;
    EveryReachableState(cfg, s);
    n := LoggedRowIsEvent(s.log, i);
    LoggedEventFits(cfg, s.log, n);
    LogNamesStoredPackets(cfg, s);
    assert NamesStoredPacket(s.store, s.log[n]);
    var packet, live := s.log[n].packet, s.log[n].evidence.value;
    SatisfiedIffDesired(cfg, packet, live);
    EvaluateAcceptsIff(cfg, packet, live, true);
    DesiredMeans(packet, live);
  }

  lemma {:induction false} LoggedRowIsEvent(log: seq<Event>, i: nat) returns (n: nat)
    requires i < |LoggedRows(log)|
    ensures n < |log| && log[n].Recorded? && log[n].row == LoggedRows(log)[i]
  {
    var prefix := log[..|log| - 1];
    if i < |LoggedRows(prefix)| {
      n := LoggedRowIsEvent(prefix, i);
    } else {
      n := |log| - 1;
    }
  }

  // ----- circuits ------------------------------------------------------------------------------

  /**
   A circuit's stored count is the number of indeterminate settlements of its instance and action since the
   last event that ends such a run (another settlement of theirs, or the operator's close), and the circuit
   is open exactly when that number has reached the limit.
   */
  lemma CircuitMeaning(cfg: Config, s: System, slug: string, action: Action) returns (from: nat)
    requires ValidConfig(cfg) && Reachable(cfg, s)
    ensures from <= |s.log| && (from > 0 ==> EndsRun(s.log[from - 1], slug, action))
    ensures forall i | from <= i < |s.log| :: !EndsRun(s.log[i], slug, action)
    ensures var run := |set i | from <= i < |s.log| && AddsToRun(s.log[i], slug, action)|;
            var key := CircuitKey(slug, action);
            && (if key in s.store.circuits then s.store.circuits[key].count == run else run == 0)
            && (key in s.store.circuits && s.store.circuits[key].isOpen <==> run >= cfg.limits.indeterminateLimit)
  {
    hide Reachable, EndsRun, AddsToRun;
    EveryReachableState(cfg, s);
    assert CircuitMatches(cfg.limits, s.store, s.log, CircuitKey(slug, action));
    from := TrailingRunIsCounted(s.log, slug, action);
  }

  /** No charge was ever committed while its circuit was open: the run before it was below the limit. */
  lemma NoChargeWhileOpen(cfg: Config, s: System, i: nat) returns (from: nat)
    requires ValidConfig(cfg) && Reachable(cfg, s)
    requires i < |s.log| && s.log[i].Charged?
    ensures var slug, action := s.log[i].slug, if s.log[i].effect.ReadyEffect? then MarkPrReady else ResolveReviewThread;
            && from <= i && (from > 0 ==> EndsRun(s.log[from - 1], slug, action))
            && (forall k | from <= k < i :: !EndsRun(s.log[k], slug, action))
            && |set k | from <= k < i && AddsToRun(s.log[k], slug, action)| < cfg.limits.indeterminateLimit
  {
    hide Reachable, EndsRun, AddsToRun;
    EveryReachableState(cfg, s);
    LoggedEventFits(cfg, s.log, i);
    var slug, action := s.log[i].slug, ActionOf(s.log[i].effect);
    from := TrailingRunIsCounted(s.log[..i], slug, action);
    assert forall k | from <= k < i :: s.log[..i][k] == s.log[k];
    assert RunPositions(s.log[..i], from, slug, action) == set k | from <= k < i && AddsToRun(s.log[k], slug, action);
  }
}
