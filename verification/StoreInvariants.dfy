/**
 What every database the broker reaches satisfies, and why each kind of transaction keeps it.
 Properties of the append-only tables are stated row by row against the rows before it.
 */
module StoreInvariants {
  import opened Outcomes
  import opened Packets
  import opened Receipts
  import opened StoreState

  // ----- derived views -------------------------------------------------------------------------

  /** The state the receipts give an effect: the earliest deciding receipt wins. */
  function FirstDecision(receipts: seq<ReceiptRow>, effect: EffectKey): EffectState {
    if receipts == [] then Pending
    else
      var before := FirstDecision(receipts[..|receipts| - 1], effect);
      var last := receipts[|receipts| - 1];
      if before == Pending && DecidesEffect(last, effect) then EffectStateOf(last.state) else before
  }

  predicate EndsAttempt(row: ReceiptRow, effect: EffectKey) {
    row.effect == Some(effect) && row.receipt.mutation.operationId != ""
  }

  /** How many receipts ended a charged attempt of the effect. */
  function AttemptRows(receipts: seq<ReceiptRow>, effect: EffectKey): nat {
    if receipts == [] then 0
    else
      AttemptRows(receipts[..|receipts| - 1], effect) + Indicator(EndsAttempt(receipts[|receipts| - 1], effect))
  }

  /** The row of an effect, or a blank one if the effect was never reserved. */
  function RowAt(st: Store, effect: EffectKey): Effect {
    if effect in st.effects then st.effects[effect] else Effect("", Pending, None, 0, None)
  }

  // ----- the receipts table --------------------------------------------------------------------

  /** The signed outcome says exactly what the stored state says. */
  predicate VerdictMatches(row: ReceiptRow) {
    var mutation := row.receipt.mutation;
    match row.state
    case RowCompleted => row.receipt.verdict == Succeeded && mutation.status == Applied && mutation.operationId != ""
    case RowReconciled =>
      && row.receipt.verdict == Succeeded
      && (|| (mutation.status == ReconciledMutation && mutation.operationId != "")
          || (mutation.status == AlreadySatisfied && mutation.operationId == ""))
    case RowIndeterminate =>
      row.receipt.verdict == Indeterminate && mutation.status == IndeterminateMutation && mutation.operationId != ""
    case RowRejected => row.receipt.verdict == Rejected && mutation.status == NotAttempted && mutation.operationId == ""
  }

  /** How a row relates to the rows before it: new packet, next in the digest chain, and no rewriting of an effect. */
  predicate RowFits(before: seq<ReceiptRow>, row: ReceiptRow) {
    && RowOf(before, row.packetId).None?
    && row.receipt.packetId == row.packetId
    && row.receipt.previous == HeadDigest(before)
    && VerdictMatches(row)
    && (Decisive(row.state) ==> row.effect.Some?)
    && (Decisive(row.state) && row.effect.Some? && FirstDecision(before, row.effect.value) != Pending ==>
          && row.state == RowReconciled
          && row.receipt.mutation.operationId == ""
          && FirstDecision(before, row.effect.value) != EffectIndeterminate)
  }

  predicate ReceiptLog(receipts: seq<ReceiptRow>) {
    receipts == [] ||
    (ReceiptLog(receipts[..|receipts| - 1]) && RowFits(receipts[..|receipts| - 1], receipts[|receipts| - 1]))
  }

  predicate RowsBound(st: Store) {
    forall i | 0 <= i < |st.receipts| :: RowBound(st, st.receipts[i])
  }

  predicate RowBound(st: Store, row: ReceiptRow) {
    && row.packetId in st.packets
    && TargetsFitAction(st.packets[row.packetId])
    && (row.effect.Some? ==> row.effect.value in st.effects && row.effect.value == EffectOf(st.packets[row.packetId]))
    && (row.receipt.mutation.operationId != "" ==>
          row.effect.Some? && ChargedFor(st.events, row.packetId, row.effect.value, row.receipt.mutation.operationId))
  }

  // ----- the budget ledger ---------------------------------------------------------------------

  predicate EventFits(limits: Limits, before: seq<BudgetEvent>, event: BudgetEvent) {
    match event
    case RequestCharge(slug, _, at, _) => RequestsAfter(before, slug, at - REQUEST_WINDOW_SECONDS) < limits.requestsPerHour
    case MutationCharge(slug, action, at, _, effect, attempt) =>
      && MutationsOn(before, slug, UtcDay(at)) < limits.dailyMutations
      && ActionMutationsOn(before, slug, UtcDay(at), action) < limits.ActionDailyLimit(action)
      && !AttemptUsed(before, effect, attempt)
      && action == ActionOf(effect)
  }

  predicate BudgetLedger(limits: Limits, events: seq<BudgetEvent>) {
    events == [] ||
    (BudgetLedger(limits, events[..|events| - 1]) && EventFits(limits, events[..|events| - 1], events[|events| - 1]))
  }

  predicate IsCharge(event: BudgetEvent, packetId: string, effect: EffectKey, attempt: string) {
    event.MutationCharge? && event.packetId == packetId && event.effect == effect && event.attempt == attempt
  }

  /** The ledger holds the charge of this attempt, made for this packet. */
  predicate ChargedFor(events: seq<BudgetEvent>, packetId: string, effect: EffectKey, attempt: string) {
    events != [] &&
    (|| IsCharge(events[|events| - 1], packetId, effect, attempt)
     || ChargedFor(events[..|events| - 1], packetId, effect, attempt))
  }

  lemma {:induction false} ChargedAttemptIsUsed(events: seq<BudgetEvent>, packetId: string, effect: EffectKey, attempt: string)
    requires ChargedFor(events, packetId, effect, attempt)
    ensures AttemptUsed(events, effect, attempt)
  {
    if !IsCharge(events[|events| - 1], packetId, effect, attempt) {
      ChargedAttemptIsUsed(events[..|events| - 1], packetId, effect, attempt);
    }
  }

  // ----- packets, effects and charges ----------------------------------------------------------

  predicate PacketsOk(st: Store) {
    forall id | id in st.packets :: st.packets[id].id == id && IdentityShape(st.packets[id])
  }

  /** An active attempt: its packet asks for this effect and has no receipt yet. */
  predicate ActiveOk(st: Store, effect: EffectKey, attempt: Attempt) {
    && RowAt(st, effect).state == Pending
    && attempt.key != ""
    && attempt.packetId in st.packets
    && TargetsFitAction(st.packets[attempt.packetId])
    && EffectOf(st.packets[attempt.packetId]) == effect
    && st.packets[attempt.packetId].slug == RowAt(st, effect).slug
    && RowOf(st.receipts, attempt.packetId).None?
  }

  /** State derived from receipts, and conservation of charges. */
  predicate EffectOk(st: Store, effect: EffectKey) {
    var row := RowAt(st, effect);
    && (row.active.Some? ==> ActiveOk(st, effect, row.active.value))
    && row.state == FirstDecision(st.receipts, effect)
    && row.attempts == ChargesOf(st.events, effect)
    && row.attempts == Indicator(row.active.Some?) + Indicator(row.absence.Some?) + AttemptRows(st.receipts, effect)
    && AttemptRows(st.receipts, effect) <= Indicator(row.state != Pending)
    && (row.active.Some? ==> ChargedFor(st.events, row.active.value.packetId, effect, row.active.value.key))
    && (row.absence.Some? ==> ChargedFor(st.events, row.absence.value.packetId, effect, row.absence.value.attempt))
  }

  ghost predicate EffectsOk(st: Store) {
    forall effect :: EffectOk(st, effect)
  }

  /** A charge is active, was reconciled absent, or was ended by its packet's receipt under the same attempt key. */
  predicate ChargeAccounted(st: Store, packetId: string, effect: EffectKey, attempt: string) {
    var row := RowAt(st, effect);
    var receipt := RowOf(st.receipts, packetId);
    || (row.active.Some? && row.active.value.key == attempt && row.active.value.packetId == packetId)
    || (row.absence.Some? && row.absence.value.attempt == attempt && row.absence.value.packetId == packetId)
    || (receipt.Some? && EndsAttempt(receipt.value, effect) && receipt.value.receipt.mutation.operationId == attempt)
  }

  predicate ChargesAccounted(st: Store) {
    forall i | 0 <= i < |st.events| && st.events[i].MutationCharge? ::
      ChargeAccounted(st, st.events[i].packetId, st.events[i].effect, st.events[i].attempt)
  }

  ghost predicate StoreOk(limits: Limits, st: Store) {
    && PacketsOk(st)
    && EffectsOk(st)
    && ReceiptLog(st.receipts)
    && RowsBound(st)
    && BudgetLedger(limits, st.events)
    && ChargesAccounted(st)
  }

  // ----- appending -----------------------------------------------------------------------------

  lemma RowAppended(receipts: seq<ReceiptRow>, row: ReceiptRow)
    ensures (receipts + [row])[..|receipts|] == receipts
    ensures forall id :: RowOf(receipts + [row], id) == if row.packetId == id then Some(row) else RowOf(receipts, id)
    ensures forall effect :: FirstDecision(receipts + [row], effect) ==
                             if FirstDecision(receipts, effect) == Pending && DecidesEffect(row, effect)
                             then EffectStateOf(row.state) else FirstDecision(receipts, effect)
    ensures forall effect :: AttemptRows(receipts + [row], effect) ==
                             AttemptRows(receipts, effect) + Indicator(EndsAttempt(row, effect))
    ensures HeadDigest(receipts + [row]) == Sha256(row.receipt)
  {
  }

  lemma EventAppended(events: seq<BudgetEvent>, event: BudgetEvent)
    ensures (events + [event])[..|events|] == events
    ensures forall effect :: ChargesOf(events + [event], effect) ==
                             ChargesOf(events, effect) + Indicator(event.MutationCharge? && event.effect == effect)
    ensures forall id, effect, attempt :: ChargedFor(events + [event], id, effect, attempt) <==>
              ChargedFor(events, id, effect, attempt) || IsCharge(event, id, effect, attempt)
  {
  }

  lemma ReceiptLogAppended(receipts: seq<ReceiptRow>, row: ReceiptRow)
    requires ReceiptLog(receipts) && RowFits(receipts, row)
    ensures ReceiptLog(receipts + [row])
  {
  }

  lemma BudgetLedgerAppended(limits: Limits, events: seq<BudgetEvent>, event: BudgetEvent)
    requires BudgetLedger(limits, events) && EventFits(limits, events, event)
    ensures BudgetLedger(limits, events + [event])
  {
  }

  /** A packet has a receipt row exactly when some row names it. */
  lemma {:induction false} RowOfIsRow(receipts: seq<ReceiptRow>, packetId: string)
    ensures RowOf(receipts, packetId).Some? ==>
              RowOf(receipts, packetId).value in receipts && RowOf(receipts, packetId).value.packetId == packetId
    ensures RowOf(receipts, packetId).None? ==> forall i | 0 <= i < |receipts| :: receipts[i].packetId != packetId
  {
    if receipts != [] {
      var prefix := receipts[..|receipts| - 1];
      RowOfIsRow(prefix, packetId);
      assert forall i | 0 <= i < |prefix| :: receipts[i] == prefix[i];
    }
  }

  /** The chain separates receipts: a receipt that extends the head differs from all before it. */
  lemma {:induction false} ChainedReceiptIsNew(receipts: seq<ReceiptRow>, receipt: Receipt)
    requires ReceiptLog(receipts)
    requires RowOf(receipts, receipt.packetId).None?
    ensures forall i | 0 <= i < |receipts| :: receipts[i].receipt != receipt
  {
    if receipts != [] {
      var prefix := receipts[..|receipts| - 1];
      ChainedReceiptIsNew(prefix, receipt);
      assert forall i | 0 <= i < |prefix| :: receipts[i] == prefix[i];
    }
  }

  /** An effect that left pending has a deciding receipt. */
  lemma {:induction false} DecidedHasReceipt(receipts: seq<ReceiptRow>, effect: EffectKey)
    ensures FirstDecision(receipts, effect) != Pending <==> LatestDecision(receipts, effect).Some?
  {
    if receipts != [] {
      DecidedHasReceipt(receipts[..|receipts| - 1], effect);
    }
  }

  // ----- what carries over ---------------------------------------------------------------------

  /** Packets stay as accepted, effects stay reserved and charges stay in the ledger. */
  ghost predicate Grows(st: Store, after: Store) {
    && (forall id | id in st.packets :: id in after.packets && after.packets[id] == st.packets[id])
    && (forall effect | effect in st.effects :: effect in after.effects)
    && (forall id, effect, attempt | ChargedFor(st.events, id, effect, attempt) :: ChargedFor(after.events, id, effect, attempt))
  }

  lemma RowsBoundPersist(st: Store, after: Store)
    requires Grows(st, after) && RowsBound(st) && after.receipts == st.receipts
    ensures RowsBound(after)
  {
  }

  lemma RowsBoundAppended(st: Store, after: Store, row: ReceiptRow)
    requires Grows(st, after) && RowsBound(st) && RowBound(st, row) && after.receipts == st.receipts + [row]
    ensures RowsBound(after)
  {
  }

  /** An effect whose row, receipts and charges a transaction does not touch stays as it was. */
  lemma EffectUntouched(st: Store, after: Store, effect: EffectKey)
    requires Grows(st, after) && EffectOk(st, effect) && RowAt(after, effect) == RowAt(st, effect)
    requires FirstDecision(after.receipts, effect) == FirstDecision(st.receipts, effect)
    requires AttemptRows(after.receipts, effect) == AttemptRows(st.receipts, effect)
    requires ChargesOf(after.events, effect) == ChargesOf(st.events, effect)
    requires RowAt(st, effect).active.Some? ==> RowOf(after.receipts, RowAt(st, effect).active.value.packetId).None?
    ensures EffectOk(after, effect)
  {
  }

  /** Same receipts, same attempts, same mutation charges: all charges stay accounted for. */
  lemma ChargesUntouched(st: Store, after: Store)
    requires ChargesAccounted(st) && after.receipts == st.receipts
    requires forall effect :: RowAt(after, effect).active == RowAt(st, effect).active
                              && RowAt(after, effect).absence == RowAt(st, effect).absence
    requires after.events == st.events
             || (after.events != [] && after.events[..|after.events| - 1] == st.events && after.events[|after.events| - 1].RequestCharge?)
    ensures ChargesAccounted(after)
  {
  }

  // ----- what each transaction keeps -----------------------------------------------------------

  lemma AcceptPacketKeeps(st: Store, packet: Packet, limits: Limits, now: int)
    requires StoreOk(limits, st) && IdentityValid(packet, now)
    requires AcceptPacket(st, packet, limits, now).Ok?
    ensures var after := AcceptPacket(st, packet, limits, now).value;
            && StoreOk(limits, after)
            && packet.id in after.packets && after.packets[packet.id] == packet
            && after.effects == st.effects && after.receipts == st.receipts && after.circuits == st.circuits
  {
    if packet.id !in st.packets {
      var after := AcceptPacket(st, packet, limits, now).value;
      var event := RequestCharge(packet.slug, packet.action, now, packet.id);
      EventAppended(st.events, event);
      BudgetLedgerAppended(limits, st.events, event);
      forall effect ensures EffectOk(after, effect) {
        assert EffectOk(st, effect);
        EffectUntouched(st, after, effect);
      }
      RowsBoundPersist(st, after);
      ChargesUntouched(st, after);
    }
  }

  lemma AdmitEffectKeeps(limits: Limits, st: Store, packet: Packet)
    requires StoreOk(limits, st) && TargetsFitAction(packet)
    requires AdmitEffect(st, packet).Ok?
    ensures var after := AdmitEffect(st, packet).value;
            && StoreOk(limits, after)
            && EffectOf(packet) in after.effects && after.effects[EffectOf(packet)].slug == packet.slug
            && after.packets == st.packets && after.receipts == st.receipts && after.events == st.events
            && after.circuits == st.circuits
            && forall effect :: RowAt(after, effect).(slug := "") == RowAt(st, effect).(slug := "")
                                && (RowAt(st, effect).active.Some? ==> RowAt(after, effect) == RowAt(st, effect))
  {
    var key := EffectOf(packet);
    var after := AdmitEffect(st, packet).value;
    if key !in st.effects {
      assert EffectOk(st, key);
      forall effect ensures EffectOk(after, effect) {
        assert EffectOk(st, effect);
      }
      RowsBoundPersist(st, after);
      ChargesUntouched(st, after);
    }
  }

  /** Charging keeps the ledger within its limits and the effect's attempts equal to its charges. */
  lemma ChargeKeeps(st: Store, effect: EffectKey, packetId: string, attempt: string, precondition: Precondition,
                    limits: Limits, now: int)
    requires StoreOk(limits, st) && effect in st.effects
    requires st.effects[effect].state == Pending && st.effects[effect].active.None? && attempt != ""
    requires RowOf(st.receipts, packetId).None? && BelongsTo(st, packetId, effect, now, false).Pass?
    requires Charge(st, effect, packetId, attempt, precondition, limits, now).Ok?
    ensures StoreOk(limits, Charge(st, effect, packetId, attempt, precondition, limits, now).value)
  {
    var after := Charge(st, effect, packetId, attempt, precondition, limits, now).value;
    var slug := st.effects[effect].slug;
    var event := MutationCharge(slug, ActionOf(effect), now, packetId, effect, attempt);
    var charged := st.effects[effect].(active := Some(Attempt(attempt, packetId, precondition, now)),
                                       attempts := st.effects[effect].attempts + 1);
    assert after == st.(effects := st.effects[effect := charged], events := st.events + [event]);
    EventAppended(st.events, event);
    BudgetLedgerAppended(limits, st.events, event);
    ChargedEffectOk(st, after, effect, event, charged);
    RowsBoundPersist(st, after);
    ChargeAddsAccounted(st, after, effect, event, charged);
  }

  lemma ChargedEffectOk(st: Store, after: Store, effect: EffectKey, event: BudgetEvent, charged: Effect)
    requires EffectsOk(st) && effect in st.effects
    requires st.effects[effect].state == Pending && st.effects[effect].active.None?
    requires event.MutationCharge? && event.effect == effect && event.attempt != ""
    requires RowOf(st.receipts, event.packetId).None? && event.packetId in st.packets
    requires TargetsFitAction(st.packets[event.packetId]) && EffectOf(st.packets[event.packetId]) == effect
    requires st.packets[event.packetId].slug == st.effects[effect].slug
    requires charged.active.Some? && charged.active.value.key == event.attempt && charged.active.value.packetId == event.packetId
    requires charged == st.effects[effect].(active := charged.active, attempts := st.effects[effect].attempts + 1)
    requires after == st.(effects := st.effects[effect := charged], events := st.events + [event])
    ensures EffectsOk(after)
  {
    EventAppended(st.events, event);
    assert EffectOk(st, effect);
    assert ChargedFor(after.events, event.packetId, effect, event.attempt);
    forall other ensures EffectOk(after, other) {
      assert EffectOk(st, other);
      if other != effect {
        EffectUntouched(st, after, other);
      }
    }
  }

  lemma ChargeAddsAccounted(st: Store, after: Store, effect: EffectKey, event: BudgetEvent, charged: Effect)
    requires ChargesAccounted(st) && effect in st.effects && st.effects[effect].active.None?
    requires event.MutationCharge? && event.effect == effect
    requires charged.active.Some? && charged.active.value.key == event.attempt && charged.active.value.packetId == event.packetId
    requires charged.absence == st.effects[effect].absence
    requires after == st.(effects := st.effects[effect := charged], events := st.events + [event])
    ensures ChargesAccounted(after)
  {
  }

  /** Reconciling an attempt absent moves its charge from "active" to "absent" and nothing else. */
  lemma AbsentKeeps(limits: Limits, st: Store, effect: EffectKey, packetId: string, attempt: string, head: string, now: int)
    requires StoreOk(limits, st) && effect in st.effects && st.effects[effect].active.Some?
    requires ReconcileAbsent(st, effect, packetId, attempt, head, now).Ok?
    ensures StoreOk(limits, ReconcileAbsent(st, effect, packetId, attempt, head, now).value)
  {
    hide BudgetLedger, RowsBound, ReceiptLog;
    var after := ReconcileAbsent(st, effect, packetId, attempt, head, now).value;
    assert EffectOk(st, effect);
    assert st.effects[effect].absence.None?;
    forall other ensures EffectOk(after, other) {
      assert EffectOk(st, other);
      if other != effect {
        EffectUntouched(st, after, other);
      }
    }
    RowsBoundPersist(st, after);
    forall i | 0 <= i < |after.events| && after.events[i].MutationCharge?
      ensures ChargeAccounted(after, after.events[i].packetId, after.events[i].effect, after.events[i].attempt)
    {
      assert ChargeAccounted(st, st.events[i].packetId, st.events[i].effect, st.events[i].attempt);
    }
  }

  /** A receipt that leaves every effect as it is: a rejection, or a reconciliation of a settled effect. */
  lemma RowKeeps(limits: Limits, st: Store, row: ReceiptRow)
    requires StoreOk(limits, st) && RowFits(st.receipts, row) && RowBound(st, row)
    requires row.effect.Some? && Decisive(row.state) ==> st.effects[row.effect.value].state != Pending
    requires forall effect :: RowAt(st, effect).active.Some? ==> RowAt(st, effect).active.value.packetId != row.packetId
    ensures StoreOk(limits, st.(receipts := st.receipts + [row]))
  {
    var after := st.(receipts := st.receipts + [row]);
    RowAppended(st.receipts, row);
    ReceiptLogAppended(st.receipts, row);
    forall effect ensures EffectOk(after, effect) {
      assert EffectOk(st, effect);
      EffectUntouched(st, after, effect);
    }
    RowsBoundAppended(st, after, row);
    ChargesStayAccounted(st, after, row);
  }

  /** A receipt that settles its pending effect, ending the active attempt of its packet if there is one. */
  lemma SettleKeeps(limits: Limits, st: Store, row: ReceiptRow)
    requires StoreOk(limits, st) && RowFits(st.receipts, row) && RowBound(st, row)
    requires row.effect.Some? && Decisive(row.state) && st.effects[row.effect.value].state == Pending
    requires var active := st.effects[row.effect.value].active;
             if active.Some? then active.value.packetId == row.packetId && row.receipt.mutation.operationId == active.value.key
             else row.receipt.mutation.operationId == ""
    ensures StoreOk(limits, SettleEffect(st.(receipts := st.receipts + [row]), row.effect.value, EffectStateOf(row.state), limits))
  {
    hide BudgetLedger, RowsBound, ChargesAccounted, ReceiptLog;
    var key := row.effect.value;
    var after := SettleEffect(st.(receipts := st.receipts + [row]), key, EffectStateOf(row.state), limits);
    RowAppended(st.receipts, row);
    ReceiptLogAppended(st.receipts, row);
    assert EffectOk(st, key);
    forall effect ensures EffectOk(after, effect) {
      assert EffectOk(st, effect);
      if effect != key {
        EffectUntouched(st, after, effect);
      }
    }
    RowsBoundAppended(st, after, row);
    ChargesStayAccounted(st, after, row);
  }

  /** Charges of other packets are untouched by a new row; the row's own charge is ended by it. */
  lemma ChargesStayAccounted(st: Store, after: Store, row: ReceiptRow)
    requires ChargesAccounted(st) && RowOf(st.receipts, row.packetId).None?
    requires after.events == st.events && after.receipts == st.receipts + [row]
    requires forall effect :: RowAt(after, effect).absence == RowAt(st, effect).absence
    requires forall effect :: RowAt(st, effect).active.Some? ==>
               || RowAt(after, effect).active == RowAt(st, effect).active
               || (&& row.packetId == RowAt(st, effect).active.value.packetId
                   && row.effect == Some(effect)
                   && row.receipt.mutation.operationId == RowAt(st, effect).active.value.key
                   && RowAt(st, effect).active.value.key != "")
    ensures ChargesAccounted(after)
  {
  }
}
