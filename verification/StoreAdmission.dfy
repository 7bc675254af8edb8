/**
 Exactly when each transaction of the store does its work and what it then leaves, said of the tables
 themselves: no order of checks, no helper of the transactions.
 */
module StoreAdmission {
  import opened Outcomes
  import opened Packets
  import opened Receipts
  import opened StoreState
  import opened StoreInvariants
  import opened Counting

  // ----- what a packet asks for ----------------------------------------------------------------

  /** The packet asks for this effect: the action at the same pull request, head or thread. */
  predicate AsksFor(packet: Packet, effect: EffectKey) {
    match effect
    case ReadyEffect(repo, number, head) =>
      && packet.action == MarkPrReady && packet.threadIds == []
      && packet.repo == repo && packet.pr.number == number && packet.pr.head == head
    case ThreadEffect(repo, number, threadId) =>
      && packet.action == ResolveReviewThread && packet.threadIds == [threadId]
      && packet.repo == repo && packet.pr.number == number
  }

  /** The lifetime and the target count that the store itself demands. */
  predicate Shaped(packet: Packet) {
    && 60 <= packet.expiresAt - packet.createdAt <= 3600
    && |packet.threadIds| == (if packet.action == MarkPrReady then 0 else 1)
  }

  /** Acceptable at a moment: not from more than five minutes ahead, and not expired. */
  predicate InWindow(packet: Packet, now: int) {
    packet.createdAt - 300 <= now < packet.expiresAt
  }

  predicate CircuitBlocks(st: Store, slug: string, action: Action) {
    CircuitKey(slug, action) in st.circuits && st.circuits[CircuitKey(slug, action)].isOpen
  }

  predicate Unanswered(st: Store, packetId: string) {
    forall i | 0 <= i < |st.receipts| :: st.receipts[i].packetId != packetId
  }

  /** Some receipt made the effect terminal. */
  predicate HasDecision(st: Store, effect: EffectKey) {
    exists i :: 0 <= i < |st.receipts| && st.receipts[i].effect == Some(effect) && st.receipts[i].state != RowRejected
  }

  /** A packet asks for exactly one effect, and its action is that effect's. */
  lemma EffectIsWhatIsAsked(packet: Packet, effect: EffectKey)
    requires Shaped(packet)
    ensures TargetsFitAction(packet) && (EffectOf(packet) == effect <==> AsksFor(packet, effect))
    ensures ActionOf(EffectOf(packet)) == packet.action
  {
  }

  lemma ShapedIsIdentity(packet: Packet, now: int)
    ensures IdentityShape(packet) <==> Shaped(packet)
    ensures IdentityValid(packet, now) <==> Shaped(packet) && InWindow(packet, now)
  {
  }

  lemma TablesRead(st: Store, packetId: string, effect: EffectKey)
    ensures RowOf(st.receipts, packetId).None? <==> Unanswered(st, packetId)
    ensures LatestDecision(st.receipts, effect).Some? <==> HasDecision(st, effect)
  {
    RowOfMeans(st.receipts, packetId);
    LatestDecisionMeans(st.receipts, effect);
  }

  // ----- begin_mutation ------------------------------------------------------------------------

  /** The unanswered packet asks now for this pending effect, which is idle and has an attempt left. */
  predicate MayStart(st: Store, effect: EffectKey, packetId: string, now: int) {
    && packetId in st.packets && Shaped(st.packets[packetId]) && InWindow(st.packets[packetId], now)
    && AsksFor(st.packets[packetId], effect)
    && Unanswered(st, packetId)
    && effect in st.effects && st.effects[effect].slug == st.packets[packetId].slug
    && st.effects[effect].state == Pending && st.effects[effect].active.None? && st.effects[effect].attempts < 2
  }

  /** The attempt key was never charged for the effect. */
  predicate KeyIsNew(st: Store, effect: EffectKey, attempt: string) {
    attempt != "" &&
    forall k | 0 <= k < |st.events| && st.events[k].MutationCharge? ::
      !(st.events[k].effect == effect && st.events[k].attempt == attempt)
  }

  /**
   A mutation is charged exactly when its packet may start it, the key is new, the circuit is closed, and on
   this UTC day the instance has fewer charges than its daily limit and fewer of this action than the action's.
   The charge is one event and the active attempt, with one attempt more; any other answer leaves the
   database alone.
   */
  lemma ChargedIff(st: Store, effect: EffectKey, packetId: string, attempt: string, precondition: Precondition, limits: Limits, now: int)
    ensures var begun := BeginMutation(st, effect, packetId, attempt, precondition, limits, now);
            && (begun.Ok? && begun.value.1 == ChargedNow <==>
                  && MayStart(st, effect, packetId, now) && KeyIsNew(st, effect, attempt)
                  && var slug, action, day := st.effects[effect].slug, st.packets[packetId].action, now / 86400;
                     && !CircuitBlocks(st, slug, action)
                     && |set k | 0 <= k < |st.events| && st.events[k].MutationCharge? && st.events[k].slug == slug
                                 && day * 86400 <= st.events[k].at < (day + 1) * 86400| < limits.dailyMutations
                     && |set k | 0 <= k < |st.events| && st.events[k].MutationCharge? && st.events[k].slug == slug
                                 && st.events[k].action == action
                                 && day * 86400 <= st.events[k].at < (day + 1) * 86400|
                        < (if action == MarkPrReady then limits.markReadyPerDay else limits.reviewThreadsPerDay))
            && (begun.Ok? && begun.value.1 == ChargedNow ==>
                  effect in st.effects && packetId in st.packets && begun.value.0 == st.(
                    events := st.events + [MutationCharge(st.effects[effect].slug, st.packets[packetId].action, now, packetId, effect, attempt)],
                    effects := st.effects[effect :=
                      Effect(st.effects[effect].slug, Pending, Some(Attempt(attempt, packetId, precondition, now)),
                             st.effects[effect].attempts + 1, st.effects[effect].absence)]))
            && (begun.Ok? && begun.value.1 != ChargedNow ==> begun.value.0 == st)
  {
    hide RowOf, AttemptUsed, MutationsOn, ActionMutationsOn, LatestDecision, Unanswered, HasDecision, IdentityShape, Shaped, UtcDay,
         TargetsFitAction, AsksFor, EffectOf, InWindow;
    TablesRead(st, packetId, effect);
    UsedMeansCharged(st.events, effect, attempt);
    if packetId in st.packets && effect in st.effects {
      var packet := st.packets[packetId];
      ShapedIsIdentity(packet, now);
      if Shaped(packet) {
        EffectIsWhatIsAsked(packet, effect);
      }
      DayOf(now);
      MutationsAreCounted(st.events, st.effects[effect].slug, UtcDay(now));
      ActionMutationsAreCounted(st.events, st.effects[effect].slug, UtcDay(now), packet.action);
    }
  }

  lemma DayOf(now: int)
    ensures UtcDay(now) == now / 86400
  {
  }

  // ----- reserve -------------------------------------------------------------------------------

  /** The effect the packet asks for is unclaimed, or its instance's and with the receipt that made it terminal. */
  predicate EffectOpen(st: Store, packet: Packet, effect: EffectKey) {
    effect in st.effects ==>
      && st.effects[effect].slug == packet.slug
      && (!Unanswered(st, packet.id) || st.effects[effect].state == Pending || HasDecision(st, effect))
  }

  /** What the client is told of the effect it asks for. */
  predicate ToldOf(st: Store, packet: Packet, effect: EffectKey, disposition: Reservation) {
    if !Unanswered(st, packet.id) then
      exists i :: 0 <= i < |st.receipts| && st.receipts[i].packetId == packet.id && disposition == ReceiptReplay(st.receipts[i].receipt)
    else if effect !in st.effects then disposition == Reserved
    else match st.effects[effect].state
      case Pending => disposition == DuplicatePending
      case EffectIndeterminate => disposition == SemanticIndeterminateEffect
      case _ => disposition == SemanticCompleted
  }

  function WithEffect(st: Store, packet: Packet, effect: EffectKey): map<EffectKey, Effect> {
    if effect in st.effects then st.effects else st.effects[effect := Effect(packet.slug, Pending, None, 0, None)]
  }

  /**
   A new packet enters exactly when neither its id nor its digest is known, it is acceptable now, its
   circuit is closed, fewer requests than the limit were charged in the last hour, and its effect is open;
   and then it costs one request charge, reserves an unclaimed effect, and is told the state of a claimed one.
   */
  lemma NewPacketEntersIff(st: Store, packet: Packet, effect: EffectKey, limits: Limits, now: int)
    requires packet.id !in st.packets && (Shaped(packet) ==> AsksFor(packet, effect))
    ensures var reserved := Reserve(st, packet, limits, now);
            && (reserved.Ok? <==>
                  && Shaped(packet) && InWindow(packet, now)
                  && (forall id | id in st.packets :: st.packets[id].digest != packet.digest)
                  && !CircuitBlocks(st, packet.slug, packet.action)
                  && |set k | 0 <= k < |st.events| && st.events[k].RequestCharge? && st.events[k].slug == packet.slug
                              && now - 3600 < st.events[k].at| < limits.requestsPerHour
                  && EffectOpen(st, packet, effect))
            && (reserved.Ok? ==>
                  && reserved.value.0 == st.(packets := st.packets[packet.id := packet],
                                             events := st.events + [RequestCharge(packet.slug, packet.action, now, packet.id)],
                                             effects := WithEffect(st, packet, effect))
                  && ToldOf(st, packet, effect, reserved.value.1))
  {
    hide RowOf, RequestsAfter, LatestDecision, Unanswered, HasDecision, IdentityShape, Shaped, TargetsFitAction, AsksFor, EffectOf, InWindow;
    ReservationReads(st, packet, effect, now);
    RequestsAreCounted(st.events, packet.slug, now - 3600);
  }

  /**
   A packet that is already stored is let through exactly when it is the stored one, is acceptable now, and
   its effect is open or, if unclaimed, its circuit is closed.  It costs no request charge and changes no
   table but for the reservation of an unclaimed effect.  A different packet under its id is a conflict.
   */
  lemma StoredPacketPassesIff(st: Store, packet: Packet, effect: EffectKey, limits: Limits, now: int)
    requires packet.id in st.packets && (Shaped(packet) ==> AsksFor(packet, effect))
    ensures var reserved := Reserve(st, packet, limits, now);
            && (reserved.Ok? <==>
                  && st.packets[packet.id] == packet && Shaped(packet) && InWindow(packet, now)
                  && (effect !in st.effects ==> !CircuitBlocks(st, packet.slug, packet.action))
                  && EffectOpen(st, packet, effect))
            && (reserved.Ok? ==>
                  && reserved.value.0 == st.(effects := WithEffect(st, packet, effect))
                  && ToldOf(st, packet, effect, reserved.value.1))
            && (Shaped(packet) && InWindow(packet, now) && st.packets[packet.id] != packet ==> reserved == Err(PacketConflict))
  {
    hide RowOf, LatestDecision, Unanswered, HasDecision, IdentityShape, Shaped, TargetsFitAction, AsksFor, EffectOf, InWindow;
    ReservationReads(st, packet, effect, now);
  }

  /** What a reservation reads, in terms of the tables. */
  lemma ReservationReads(st: Store, packet: Packet, effect: EffectKey, now: int)
    requires Shaped(packet) ==> AsksFor(packet, effect)
    ensures IdentityValid(packet, now) <==> Shaped(packet) && InWindow(packet, now)
    ensures Shaped(packet) ==> TargetsFitAction(packet) && EffectOf(packet) == effect
    ensures RowOf(st.receipts, packet.id).None? <==> Unanswered(st, packet.id)
    ensures LatestDecision(st.receipts, effect).Some? <==> HasDecision(st, effect)
    ensures RowOf(st.receipts, packet.id).Some? ==>
              exists i :: 0 <= i < |st.receipts| && st.receipts[i].packetId == packet.id
                          && st.receipts[i] == RowOf(st.receipts, packet.id).value
  {
    hide RowOf, LatestDecision, Unanswered, HasDecision;
    TablesRead(st, packet.id, effect);
    RowOfMeans(st.receipts, packet.id);
    ShapedIsIdentity(packet, now);
    if Shaped(packet) {
      EffectIsWhatIsAsked(packet, effect);
    }
  }

  // ----- outcomes ------------------------------------------------------------------------------

  /** A stored packet of the effect whose outcome may be recorded: only a clock far behind its creation prevents it. */
  predicate MayConclude(st: Store, packetId: string, effect: EffectKey, now: int) {
    && packetId in st.packets && Shaped(st.packets[packetId]) && st.packets[packetId].createdAt - 300 <= now
    && AsksFor(st.packets[packetId], effect)
    && effect in st.effects && st.effects[effect].slug == st.packets[packetId].slug
  }

  predicate ReceiptIsNew(st: Store, receipt: Receipt) {
    forall i | 0 <= i < |st.receipts| :: st.receipts[i].receipt != receipt
  }

  /** The circuit of an instance and action after an effect of it settled. */
  function CircuitAfter(st: Store, slug: string, action: Action, state: EffectState, limits: Limits): Circuit {
    var count := if CircuitKey(slug, action) in st.circuits then st.circuits[CircuitKey(slug, action)].count + 1 else 1;
    if state == EffectIndeterminate then Circuit(count, count >= limits.indeterminateLimit) else Circuit(0, false)
  }

  /** The database after an effect settled in a state. */
  function AfterSettling(st: Store, row: ReceiptRow, packetId: string, effect: EffectKey, state: EffectState, limits: Limits): Store
    requires effect in st.effects && packetId in st.packets
  {
    var slug, action := st.effects[effect].slug, st.packets[packetId].action;
    st.(receipts := st.receipts + [row],
        effects := st.effects[effect :=
          Effect(slug, state, None, st.effects[effect].attempts, st.effects[effect].absence)],
        circuits := st.circuits[CircuitKey(slug, action) := CircuitAfter(st, slug, action, state, limits)])
  }

  lemma BelongsIff(st: Store, packetId: string, effect: EffectKey, now: int)
    requires effect in st.effects
    ensures BelongsTo(st, packetId, effect, now, true).Pass? <==> MayConclude(st, packetId, effect, now)
  {
    hide TargetsFitAction, EffectOf, AsksFor;
    if packetId in st.packets {
      var packet := st.packets[packetId];
      var at := if packet.expiresAt - 1 < now then packet.expiresAt - 1 else now;
      ShapedIsIdentity(packet, at);
      if Shaped(packet) {
        EffectIsWhatIsAsked(packet, effect);
      }
    }
  }

  /**
   The outcome of an attempt is stored exactly when it is a deciding outcome, its packet is unanswered, the
   attempt is the effect's active one, and the receipt is new; it adds one row and settles the effect in
   the state the outcome names.
   */
  lemma TerminalizedIff(st: Store, effect: EffectKey, packetId: string, attempt: string, state: RowState, receipt: Receipt,
                        limits: Limits, now: int)
    ensures var ended := Terminalize(st, effect, packetId, attempt, state, receipt, limits, now);
            && (ended.Ok? && ended.value.1 == Inserted <==>
                  && state != RowRejected && MayConclude(st, packetId, effect, now) && Unanswered(st, packetId) && ReceiptIsNew(st, receipt)
                  && st.effects[effect].state == Pending && st.effects[effect].active.Some?
                  && st.effects[effect].active.value.key == attempt && st.effects[effect].active.value.packetId == packetId)
            && (ended.Ok? && ended.value.1 == Inserted ==>
                  effect in st.effects && packetId in st.packets && ended.value.0 ==
                    AfterSettling(st, ReceiptRow(packetId, Some(effect), state, receipt), packetId, effect,
                                  match state
                                  case RowCompleted => Completed
                                  case RowReconciled => Reconciled
                                  case RowIndeterminate => EffectIndeterminate
                                  case RowRejected => Pending, limits))
            && (ended.Ok? && ended.value.1 != Inserted ==> ended.value.0 == st)
  {
    hide RowOf, Unanswered, BelongsTo, MayConclude;
    AnsweredMeans(st, packetId);
    ConcludingNeedsEffect(st, packetId, Some(effect), now);
    if effect in st.effects {
      BelongsIff(st, packetId, effect, now);
      ConcludingAction(st, packetId, effect, now);
    }
  }

  lemma AnsweredMeans(st: Store, packetId: string)
    ensures Unanswered(st, packetId) <==> RowOf(st.receipts, packetId).None?
  {
    RowOfMeans(st.receipts, packetId);
  }

  lemma ConcludingAction(st: Store, packetId: string, effect: EffectKey, now: int)
    ensures MayConclude(st, packetId, effect, now) ==>
              packetId in st.packets && effect in st.effects && ActionOf(effect) == st.packets[packetId].action
  {
  }

  /**
   An outcome without a call is stored exactly when its stored packet is unanswered, the receipt is new, and
   the effect it names, if any, is the packet's and no pending one with an active attempt; a reconciliation
   must name an effect that is not indeterminate, and settles it if it was pending.
   */
  lemma RecordedIff(st: Store, packetId: string, state: RowState, receipt: Receipt, effect: Option<EffectKey>, limits: Limits, now: int)
    ensures var recorded := RecordPacketReceipt(st, packetId, state, receipt, effect, limits, now);
            && (recorded.Ok? && recorded.value.1 == Inserted <==>
                  && state in {RowRejected, RowReconciled} && packetId in st.packets
                  && Unanswered(st, packetId) && ReceiptIsNew(st, receipt)
                  && (state == RowReconciled ==> effect.Some?)
                  && (effect.Some? ==>
                        && MayConclude(st, packetId, effect.value, now)
                        && (state == RowRejected ==> st.effects[effect.value].active.None?)
                        && (state == RowReconciled ==>
                              && st.effects[effect.value].state != EffectIndeterminate
                              && (st.effects[effect.value].state == Pending ==> st.effects[effect.value].active.None?))))
            && (recorded.Ok? && recorded.value.1 == Inserted ==>
                  recorded.value.0 ==
                    if state == RowReconciled && effect.Some? && effect.value in st.effects && packetId in st.packets
                       && st.effects[effect.value].state == Pending
                    then AfterSettling(st, ReceiptRow(packetId, effect, state, receipt), packetId, effect.value, Reconciled, limits)
                    else st.(receipts := st.receipts + [ReceiptRow(packetId, effect, state, receipt)]))
            && (recorded.Ok? && recorded.value.1 != Inserted ==> recorded.value.0 == st)
  {
    hide RowOf, Unanswered, BelongsTo, MayConclude;
    AnsweredMeans(st, packetId);
    if effect.Some? && effect.value in st.effects {
      BelongsIff(st, packetId, effect.value, now);
      ConcludingAction(st, packetId, effect.value, now);
    }
    ConcludingNeedsEffect(st, packetId, effect, now);
  }

  lemma ConcludingNeedsEffect(st: Store, packetId: string, effect: Option<EffectKey>, now: int)
    ensures effect.Some? && MayConclude(st, packetId, effect.value, now) ==> effect.value in st.effects
  {
  }

  /** An attempt is cleared as absent exactly when it is the active first attempt of the pending effect; the absence keeps what it was. */
  lemma ClearedIff(st: Store, effect: EffectKey, packetId: string, attempt: string, head: string, now: int)
    requires effect in st.effects && st.effects[effect].active.Some?
    ensures var active := st.effects[effect].active.value;
            var cleared := ReconcileAbsent(st, effect, packetId, attempt, head, now);
            && (cleared.Ok? <==>
                  st.effects[effect].state == Pending && active.key == attempt && active.packetId == packetId
                  && st.effects[effect].attempts < 2)
            && (cleared.Ok? ==>
                  cleared.value == st.(effects := st.effects[effect :=
                    Effect(st.effects[effect].slug, Pending, None, st.effects[effect].attempts,
                           Some(Absence(attempt, packetId, head, active.precondition, now)))]))
  {
  }
}
