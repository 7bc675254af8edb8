/**
 The broker store as an object whose tables are updated in place
 (broker/john_lomein_broker_store.py).  Every public method is one immediate transaction: on an
 error the tables are put back as they were.
 */
module BrokerStore {
  import opened Outcomes
  import opened Packets
  import opened Receipts
  import opened StoreState

  class Database {
    var packets: map<string, Packet>
    var effects: map<EffectKey, Effect>
    var events: seq<BudgetEvent>
    var receipts: seq<ReceiptRow>
    var circuits: map<CircuitKey, Circuit>
    const limits: Limits

    constructor (limits: Limits)
      ensures State() == EMPTY_STORE && this.limits == limits
    {
      packets, effects, events, receipts, circuits := map[], map[], [], [], map[];
      this.limits := limits;
    }

    function State(): Store
      reads this
    {
      Store(packets, effects, events, receipts, circuits)
    }

    // ----- queries -----------------------------------------------------------------------------

    method LoadReceipt(packetId: string) returns (row: Option<ReceiptRow>)
      ensures row == RowOf(receipts, packetId)
    {
      var n := |receipts|;
      assert receipts[..n] == receipts;
      while n > 0
        invariant 0 <= n <= |receipts|
        invariant RowOf(receipts, packetId) == RowOf(receipts[..n], packetId)
      {
        assert receipts[..n][..n - 1] == receipts[..n - 1];
        n := n - 1;
        if receipts[n].packetId == packetId {
          return Some(receipts[n]);
        }
      }
      return None;
    }

    method LoadLatestDecision(effect: EffectKey) returns (row: Option<ReceiptRow>)
      ensures row == LatestDecision(receipts, effect)
    {
      var n := |receipts|;
      assert receipts[..n] == receipts;
      while n > 0
        invariant 0 <= n <= |receipts|
        invariant LatestDecision(receipts, effect) == LatestDecision(receipts[..n], effect)
      {
        assert receipts[..n][..n - 1] == receipts[..n - 1];
        n := n - 1;
        if receipts[n].effect == Some(effect) && receipts[n].state != RowRejected {
          return Some(receipts[n]);
        }
      }
      return None;
    }

    method LatestReceiptDigest() returns (digest: Digest)
      ensures digest == HeadDigest(receipts)
    {
      if |receipts| == 0 {
        return ZeroHash;
      }
      return Sha256(receipts[|receipts| - 1].receipt);
    }

    method CountRequestsAfter(slug: string, after: int) returns (used: nat)
      ensures used == RequestsAfter(events, slug, after)
    {
      used := 0;
      for n := 0 to |events|
        invariant used == RequestsAfter(events[..n], slug, after)
      {
        assert events[..n + 1][..n] == events[..n];
        if events[n].RequestCharge? && events[n].slug == slug && events[n].at > after {
          used := used + 1;
        }
      }
      assert events[..|events|] == events;
    }

    method CountMutations(slug: string, day: int, action: Action) returns (all: nat, ofAction: nat)
      ensures all == MutationsOn(events, slug, day)
      ensures ofAction == ActionMutationsOn(events, slug, day, action)
    {
      all, ofAction := 0, 0;
      for n := 0 to |events|
        invariant all == MutationsOn(events[..n], slug, day)
        invariant ofAction == ActionMutationsOn(events[..n], slug, day, action)
      {
        assert events[..n + 1][..n] == events[..n];
        if events[n].MutationCharge? && events[n].slug == slug && UtcDay(events[n].at) == day {
          all := all + 1;
          if events[n].action == action {
            ofAction := ofAction + 1;
          }
        }
      }
      assert events[..|events|] == events;
    }

    method FindAttempt(effect: EffectKey, attempt: string) returns (used: bool)
      ensures used <==> AttemptUsed(events, effect, attempt)
    {
      used := false;
      for n := 0 to |events|
        invariant used <==> AttemptUsed(events[..n], effect, attempt)
      {
        assert events[..n + 1][..n] == events[..n];
        if events[n].MutationCharge? && events[n].effect == effect && events[n].attempt == attempt {
          used := true;
        }
      }
      assert events[..|events|] == events;
    }

    // ----- reserve -----------------------------------------------------------------------------

    method Reserve(packet: Packet, now: int) returns (result: Result<Reservation, StoreError>)
      modifies this
      ensures match StoreState.Reserve(old(State()), packet, limits, now)
              case Ok((after, disposition)) => State() == after && result == Ok(disposition)
              case Err(error) => State() == old(State()) && result == Err(error)
    {
      if !IdentityValid(packet, now) {
        return Err(InvalidPacket);
      }
      var savedPackets, savedEffects, savedEvents := packets, effects, events;
      var accepted := InsertPacket(packet, now);
      if accepted.Err? {
        return Err(accepted.error);
      }
      var effect := EffectOf(packet);
      var isNew := effect !in effects;
      if isNew {
        if CircuitIsOpen(State(), packet.slug, packet.action) {
          packets, events := savedPackets, savedEvents;
          return Err(CircuitOpen);
        }
        effects := effects[effect := Effect(packet.slug, Pending, None, 0, None)];
      } else if effects[effect].slug != packet.slug {
        packets, events := savedPackets, savedEvents;
        return Err(EffectStateError);
      }
      result := Classify(packet.id, effect, isNew);
      if result.Err? {
        packets, effects, events := savedPackets, savedEffects, savedEvents;
      }
    }

    /** Inserts the packet row and its request charge, unless the packet is already stored. */
    method InsertPacket(packet: Packet, now: int) returns (result: Result<bool, StoreError>)
      modifies this`packets, this`events
      ensures match AcceptPacket(old(State()), packet, limits, now)
              case Ok(after) => State() == after && result.Ok?
              case Err(error) => State() == old(State()) && result == Err(error)
    {
      if packet.id in packets {
        if packets[packet.id] != packet {
          return Err(PacketConflict);
        }
        return Ok(false);
      }
      if exists id | id in packets :: packets[id].digest == packet.digest {
        return Err(PacketConflict);
      }
      if CircuitIsOpen(State(), packet.slug, packet.action) {
        return Err(CircuitOpen);
      }
      var used := CountRequestsAfter(packet.slug, now - REQUEST_WINDOW_SECONDS);
      if used >= limits.requestsPerHour {
        return Err(BudgetExceeded(RequestsPerHour));
      }
      packets := packets[packet.id := packet];
      events := events + [RequestCharge(packet.slug, packet.action, now, packet.id)];
      return Ok(true);
    }

    method Classify(packetId: string, effect: EffectKey, isNew: bool) returns (result: Result<Reservation, StoreError>)
      requires effect in effects
      ensures result == Disposition(State(), packetId, effect, isNew)
    {
      var exact := LoadReceipt(packetId);
      if exact.Some? {
        return Ok(ReceiptReplay(exact.value.receipt));
      }
      if effects[effect].state == Pending {
        return Ok(if isNew then Reserved else DuplicatePending);
      }
      var persisted := LoadLatestDecision(effect);
      if persisted.None? {
        return Err(StoreCorruption);
      }
      return Ok(if effects[effect].state == EffectIndeterminate then SemanticIndeterminateEffect else SemanticCompleted);
    }

    // ----- begin_mutation ----------------------------------------------------------------------

    method BeginMutation(effect: EffectKey, packetId: string, attempt: string, precondition: Precondition, now: int)
      returns (result: Result<Start, StoreError>)
      modifies this`effects, this`events
      ensures match StoreState.BeginMutation(old(State()), effect, packetId, attempt, precondition, limits, now)
              case Ok((after, start)) => State() == after && result == Ok(start)
              case Err(error) => State() == old(State()) && result == Err(error)
    {
      if attempt == "" {
        return Err(InvalidArgument);
      }
      if effect !in effects {
        return Err(EffectStateError);
      }
      var row := effects[effect];
      var exact := LoadReceipt(packetId);
      if exact.Some? {
        return Ok(StartReplay(exact.value.receipt));
      }
      if row.state != Pending {
        var persisted := LoadLatestDecision(effect);
        if persisted.None? {
          return Err(StoreCorruption);
        }
        return Ok(if row.state == EffectIndeterminate then StartIndeterminate else StartCompleted);
      }
      var belongs := BelongsTo(State(), packetId, effect, now, false);
      if belongs.Fail? {
        return Err(belongs.error);
      }
      if row.active.Some? {
        var active := row.active.value;
        if active.key == attempt && active.packetId == packetId && active.precondition == precondition {
          return Ok(AlreadyCharged);
        }
        return Err(PendingRecoveryError);
      }
      var charged := ChargeAttempt(effect, packetId, attempt, precondition, now);
      if charged.Err? {
        return Err(charged.error);
      }
      return Ok(ChargedNow);
    }

    /** Charges the budgets and marks the attempt active, in that order. */
    method ChargeAttempt(effect: EffectKey, packetId: string, attempt: string, precondition: Precondition, now: int)
      returns (result: Result<bool, StoreError>)
      requires effect in effects
      modifies this`effects, this`events
      ensures match Charge(old(State()), effect, packetId, attempt, precondition, limits, now)
              case Ok(after) => State() == after && result.Ok?
              case Err(error) => State() == old(State()) && result == Err(error)
    {
      var row := effects[effect];
      var action := ActionOf(effect);
      if row.attempts >= 2 {
        return Err(EffectStateError);
      }
      var used := FindAttempt(effect, attempt);
      if used {
        return Err(EffectStateError);
      }
      if CircuitIsOpen(State(), row.slug, action) {
        return Err(CircuitOpen);
      }
      var all, ofAction := CountMutations(row.slug, UtcDay(now), action);
      if all >= limits.dailyMutations {
        return Err(BudgetExceeded(DailyMutations));
      }
      if ofAction >= limits.ActionDailyLimit(action) {
        return Err(BudgetExceeded(if action == MarkPrReady then MarkReadyPerDay else ReviewThreadsPerDay));
      }
      events := events + [MutationCharge(row.slug, action, now, packetId, effect, attempt)];
      effects := effects[effect := row.(active := Some(Attempt(attempt, packetId, precondition, now)),
                                        attempts := row.attempts + 1)];
      return Ok(true);
    }

    // ----- reconcile_absent --------------------------------------------------------------------

    method ReconcileAbsent(effect: EffectKey, packetId: string, attempt: string, head: string, now: int)
      returns (result: Result<bool, StoreError>)
      modifies this`effects
      ensures match StoreState.ReconcileAbsent(old(State()), effect, packetId, attempt, head, now)
              case Ok(after) => State() == after && result.Ok?
              case Err(error) => State() == old(State()) && result == Err(error)
    {
      if effect !in effects || effects[effect].state != Pending {
        return Err(EffectStateError);
      }
      var row := effects[effect];
      if row.active.None? {
        if row.absence.Some? && row.absence.value.attempt == attempt && row.absence.value.packetId == packetId
           && row.absence.value.head == head {
          return Ok(false);
        }
        return Err(EffectStateError);
      }
      if row.active.value.key != attempt || row.active.value.packetId != packetId {
        return Err(EffectStateError);
      }
      if row.attempts >= 2 {
        return Err(EffectStateError);
      }
      var absence := Absence(attempt, packetId, head, row.active.value.precondition, now);
      effects := effects[effect := row.(active := None, absence := Some(absence))];
      return Ok(true);
    }

    // ----- outcomes ----------------------------------------------------------------------------

    /** Clears the attempt, makes the effect terminal and updates its circuit. */
    method Settle(effect: EffectKey, state: EffectState)
      requires effect in effects
      modifies this`effects, this`circuits
      ensures State() == SettleEffect(old(State()), effect, state, limits)
    {
      var row := effects[effect];
      var key := CircuitKey(row.slug, ActionOf(effect));
      if state == EffectIndeterminate {
        var count := 1;
        if key in circuits {
          count := circuits[key].count + 1;
        }
        circuits := circuits[key := Circuit(count, count >= limits.indeterminateLimit)];
      } else {
        circuits := circuits[key := Circuit(0, false)];
      }
      effects := effects[effect := row.(state := state, active := None)];
    }

    method RecordPacketReceipt(packetId: string, state: RowState, receipt: Receipt, effect: Option<EffectKey>, now: int)
      returns (result: Result<Recording, StoreError>)
      modifies this`effects, this`receipts, this`circuits
      ensures match StoreState.RecordPacketReceipt(old(State()), packetId, state, receipt, effect, limits, now)
              case Ok((after, recording)) => State() == after && result == Ok(recording)
              case Err(error) => State() == old(State()) && result == Err(error)
    {
      if state !in {RowRejected, RowReconciled} || (state == RowReconciled && effect.None?) {
        return Err(InvalidArgument);
      }
      if packetId !in packets {
        return Err(EffectStateError);
      }
      var existing := LoadReceipt(packetId);
      if existing.Some? {
        if existing.value != ReceiptRow(packetId, effect, state, receipt) {
          return Err(EffectStateError);
        }
        return Ok(Replayed(receipt));
      }
      if effect.Some? {
        if effect.value !in effects {
          return Err(EffectStateError);
        }
        var belongs := BelongsTo(State(), packetId, effect.value, now, true);
        if belongs.Fail? {
          return Err(belongs.error);
        }
        var row := effects[effect.value];
        if state == RowReconciled {
          if row.state == EffectIndeterminate || (row.state == Pending && row.active.Some?) {
            return Err(EffectStateError);
          }
        } else if row.active.Some? {
          return Err(EffectStateError);
        }
      }
      if exists i | 0 <= i < |receipts| :: receipts[i].receipt == receipt {
        return Err(EffectStateError);
      }
      receipts := receipts + [ReceiptRow(packetId, effect, state, receipt)];
      if state == RowReconciled && effects[effect.value].state == Pending {
        Settle(effect.value, Reconciled);
      }
      return Ok(Inserted);
    }

    method Terminalize(effect: EffectKey, packetId: string, attempt: string, state: RowState, receipt: Receipt, now: int)
      returns (result: Result<Recording, StoreError>)
      modifies this`effects, this`receipts, this`circuits
      ensures match StoreState.Terminalize(old(State()), effect, packetId, attempt, state, receipt, limits, now)
              case Ok((after, recording)) => State() == after && result == Ok(recording)
              case Err(error) => State() == old(State()) && result == Err(error)
    {
      if !Decisive(state) {
        return Err(InvalidArgument);
      }
      if effect !in effects {
        return Err(EffectStateError);
      }
      var row := effects[effect];
      var persisted := LoadReceipt(packetId);
      if row.state != Pending {
        if persisted.None? || persisted.value.receipt != receipt || persisted.value.state != state {
          return Err(EffectStateError);
        }
        return Ok(Replayed(receipt));
      }
      var belongs := BelongsTo(State(), packetId, effect, now, true);
      if belongs.Fail? {
        return Err(belongs.error);
      }
      if row.active.None? || row.active.value.key != attempt || row.active.value.packetId != packetId {
        return Err(EffectStateError);
      }
      if persisted.Some? || exists i | 0 <= i < |receipts| :: receipts[i].receipt == receipt {
        return Err(EffectStateError);
      }
      receipts := receipts + [ReceiptRow(packetId, Some(effect), state, receipt)];
      Settle(effect, EffectStateOf(state));
      return Ok(Inserted);
    }

    method CloseCircuit(slug: string, action: Action)
      modifies this`circuits
      ensures State() == StoreState.CloseCircuit(old(State()), slug, action)
    {
      circuits := circuits[CircuitKey(slug, action) := Circuit(0, false)];
    }

    // ----- pending_recovery --------------------------------------------------------------------

    /** Charged attempts whose live effect must be reconciled, oldest first. */
    method PendingRecovery() returns (rows: seq<PendingAttempt>)
      ensures IsPendingListing(State(), rows)
    {
      rows := [];
      var remaining := effects.Keys;
      while remaining != {}
        invariant remaining <= effects.Keys
        invariant forall i | 0 <= i < |rows| :: ListsAttempt(State(), rows[i])
        invariant InStartOrder(rows)
        invariant forall effect | effect in remaining :: !Listed(rows, effect)
        invariant forall effect | effect in effects.Keys - remaining && effects[effect].state == Pending
                    && effects[effect].active.Some? && effects[effect].active.value.packetId in packets :: Listed(rows, effect)
        decreases |remaining|
      {
        var effect :| effect in remaining;
        remaining := remaining - {effect};
        var row := effects[effect];
        if row.state == Pending && row.active.Some? && row.active.value.packetId in packets {
          var active := row.active.value;
          var head := packets[active.packetId].pr.head;
          var before := rows;
          var listed := PendingAttempt(active.packetId, effect, head, active.key, active.precondition,
                                       active.startedAt, row.attempts);
          rows := InsertByStart(before, listed);
          ghost var n :| 0 <= n <= |before| && rows == before[..n] + [listed] + before[n..];
          forall other {
            InsertionLists(before, listed, n, other);
          }
        }
      }
    }
  }

  /** Oldest first, one row per effect. */
  predicate InStartOrder(rows: seq<PendingAttempt>) {
    forall i, j | 0 <= i < j < |rows| :: rows[i].effect != rows[j].effect && rows[i].startedAt <= rows[j].startedAt
  }

  /** Inserts a row into rows ordered by start, after those that started no later. */
  method InsertByStart(rows: seq<PendingAttempt>, row: PendingAttempt) returns (inserted: seq<PendingAttempt>)
    requires InStartOrder(rows) && !Listed(rows, row.effect)
    ensures InStartOrder(inserted)
    ensures exists n :: 0 <= n <= |rows| && inserted == rows[..n] + [row] + rows[n..]
  {
    var n := |rows|;
    while n > 0 && rows[n - 1].startedAt > row.startedAt
      invariant 0 <= n <= |rows|
      invariant n < |rows| ==> rows[n].startedAt > row.startedAt
    {
      n := n - 1;
    }
    inserted := rows[..n] + [row] + rows[n..];
    InsertionKeepsOrder(rows, row, n);
  }

  lemma InsertionKeepsOrder(rows: seq<PendingAttempt>, row: PendingAttempt, n: nat)
    requires InStartOrder(rows) && !Listed(rows, row.effect) && n <= |rows|
    requires n > 0 ==> rows[n - 1].startedAt <= row.startedAt
    requires n < |rows| ==> row.startedAt < rows[n].startedAt
    ensures InStartOrder(rows[..n] + [row] + rows[n..])
  {
  }

  lemma InsertionLists(rows: seq<PendingAttempt>, row: PendingAttempt, n: nat, effect: EffectKey)
    requires n <= |rows|
    ensures Listed(rows[..n] + [row] + rows[n..], effect) <==> Listed(rows, effect) || effect == row.effect
  {
    var inserted := rows[..n] + [row] + rows[n..];
    assert inserted[n] == row;
    if Listed(rows, effect) {
      var i :| 0 <= i < |rows| && rows[i].effect == effect;
      assert inserted[if i < n then i else i + 1] == rows[i];
    }
    if Listed(inserted, effect) {
      var k :| 0 <= k < |inserted| && inserted[k].effect == effect;
      assert k != n ==> inserted[k] == rows[if k < n then k else k - 1];
    }
  }
}
