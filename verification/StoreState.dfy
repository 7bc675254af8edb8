/**
 The tables of the broker database and, for every transaction of the store, the function it
 computes on them (broker/john_lomein_broker_store.py).  A transaction that fails changes nothing.

 An effect key is the canonical semantic content itself, which makes its SHA-256 injective; the
 packet id and digest stay separate columns with the conflict checks the store performs on them.
 Columns that nothing reads back (creation and update times, first and last packet) are left out.
 */
module StoreState {
  import opened Outcomes
  import opened Packets
  import opened Receipts

  const REQUEST_WINDOW_SECONDS := 3600
  const SECONDS_PER_DAY := 86400

  datatype EffectKey =
    | ReadyEffect(repo: string, prNumber: int, head: string)
    | ThreadEffect(repo: string, prNumber: int, threadId: string)

  datatype EffectState = Pending | Completed | Reconciled | EffectIndeterminate

  /** The four active_* columns, which the schema keeps all null or all set. */
  datatype Attempt = Attempt(key: string, packetId: string, precondition: Precondition, startedAt: int)

  datatype Absence = Absence(attempt: string, packetId: string, head: string, precondition: Precondition, observedAt: int)

  datatype Effect = Effect(
    slug: string,
    state: EffectState,
    active: Option<Attempt>,
    attempts: nat,
    absence: Option<Absence>)

  datatype BudgetEvent =
    | RequestCharge(slug: string, action: Action, at: int, packetId: string)
    | MutationCharge(slug: string, action: Action, at: int, packetId: string, effect: EffectKey, attempt: string)

  datatype RowState = RowCompleted | RowReconciled | RowIndeterminate | RowRejected

  datatype ReceiptRow = ReceiptRow(packetId: string, effect: Option<EffectKey>, state: RowState, receipt: Receipt)

  datatype Circuit = Circuit(count: nat, isOpen: bool)

  datatype CircuitKey = CircuitKey(slug: string, action: Action)

  datatype Store = Store(
    packets: map<string, Packet>,
    effects: map<EffectKey, Effect>,
    events: seq<BudgetEvent>,
    receipts: seq<ReceiptRow>,
    circuits: map<CircuitKey, Circuit>)

  const EMPTY_STORE := Store(map[], map[], [], [], map[])

  datatype StoreError =
    | InvalidArgument
    | InvalidPacket
    | PacketConflict
    | CircuitOpen
    | BudgetExceeded(budget: Budget)
    | EffectStateError
    | PendingRecoveryError
    | StoreCorruption

  // ----- identities ----------------------------------------------------------------------------

  /** The store's own packet validation: lifetime, acceptance window and targets. */
  predicate IdentityValid(packet: Packet, now: int) {
    && IdentityShape(packet)
    && packet.createdAt <= now + MAX_CLOCK_SKEW_SECONDS
    && now < packet.expiresAt
  }

  predicate IdentityShape(packet: Packet) {
    && MIN_PACKET_TTL_SECONDS <= packet.expiresAt - packet.createdAt <= MAX_PACKET_TTL_SECONDS
    && TargetsFitAction(packet)
  }

  /** The semantic effect a packet asks for: one per packet, shared by packets that ask for the same thing. */
  function EffectOf(packet: Packet): EffectKey
    requires TargetsFitAction(packet)
  {
    match packet.action
    case MarkPrReady => ReadyEffect(packet.repo, packet.pr.number, packet.pr.head)
    case ResolveReviewThread => ThreadEffect(packet.repo, packet.pr.number, packet.threadIds[0])
  }

  function ActionOf(effect: EffectKey): Action {
    if effect.ReadyEffect? then MarkPrReady else ResolveReviewThread
  }

  function UtcDay(epoch: int): int {
    epoch / SECONDS_PER_DAY
  }

  // ----- queries -------------------------------------------------------------------------------

  /** The receipt row of a packet, if any. */
  function RowOf(receipts: seq<ReceiptRow>, packetId: string): Option<ReceiptRow> {
    if receipts == [] then None
    else
      var last := receipts[|receipts| - 1];
      if last.packetId == packetId then Some(last) else RowOf(receipts[..|receipts| - 1], packetId)
  }

  predicate Decisive(state: RowState) {
    state != RowRejected
  }

  predicate DecidesEffect(row: ReceiptRow, effect: EffectKey) {
    row.effect == Some(effect) && Decisive(row.state)
  }

  function EffectStateOf(state: RowState): EffectState {
    match state
    case RowCompleted => Completed
    case RowReconciled => Reconciled
    case RowIndeterminate => EffectIndeterminate
    case RowRejected => Pending
  }

  /** The newest completed, reconciled or indeterminate receipt of an effect. */
  function LatestDecision(receipts: seq<ReceiptRow>, effect: EffectKey): Option<ReceiptRow> {
    if receipts == [] then None
    else
      var last := receipts[|receipts| - 1];
      if DecidesEffect(last, effect) then Some(last) else LatestDecision(receipts[..|receipts| - 1], effect)
  }

  /** The head of the receipt chain. */
  function HeadDigest(receipts: seq<ReceiptRow>): Digest {
    if receipts == [] then ZeroHash else Sha256(receipts[|receipts| - 1].receipt)
  }

  /** Request charges of an instance later than `after`, with no upper bound. */
  function RequestsAfter(events: seq<BudgetEvent>, slug: string, after: int): nat {
    if events == [] then 0
    else
      var last := events[|events| - 1];
      RequestsAfter(events[..|events| - 1], slug, after)
      + Indicator(last.RequestCharge? && last.slug == slug && last.at > after)
  }

  function MutationsOn(events: seq<BudgetEvent>, slug: string, day: int): nat {
    if events == [] then 0
    else
      var last := events[|events| - 1];
      MutationsOn(events[..|events| - 1], slug, day)
      + Indicator(last.MutationCharge? && last.slug == slug && UtcDay(last.at) == day)
  }

  function ActionMutationsOn(events: seq<BudgetEvent>, slug: string, day: int, action: Action): nat {
    if events == [] then 0
    else
      var last := events[|events| - 1];
      ActionMutationsOn(events[..|events| - 1], slug, day, action)
      + Indicator(last.MutationCharge? && last.slug == slug && UtcDay(last.at) == day && last.action == action)
  }

  /** Mutation charges of one effect. */
  function ChargesOf(events: seq<BudgetEvent>, effect: EffectKey): nat {
    if events == [] then 0
    else
      var last := events[|events| - 1];
      ChargesOf(events[..|events| - 1], effect) + Indicator(last.MutationCharge? && last.effect == effect)
  }

  predicate AttemptUsed(events: seq<BudgetEvent>, effect: EffectKey, attempt: string) {
    events != [] &&
    var last := events[|events| - 1];
    || (last.MutationCharge? && last.effect == effect && last.attempt == attempt)
    || AttemptUsed(events[..|events| - 1], effect, attempt)
  }

  predicate CircuitIsOpen(st: Store, slug: string, action: Action) {
    var key := CircuitKey(slug, action);
    key in st.circuits && st.circuits[key].isOpen
  }

  // ----- reserve -------------------------------------------------------------------------------

  datatype Reservation = Reserved | DuplicatePending | ReceiptReplay(receipt: Receipt) | SemanticCompleted | SemanticIndeterminateEffect

  function RequestBudget(events: seq<BudgetEvent>, packet: Packet, limits: Limits, now: int): Result<seq<BudgetEvent>, StoreError> {
    if RequestsAfter(events, packet.slug, now - REQUEST_WINDOW_SECONDS) >= limits.requestsPerHour
    then Err(BudgetExceeded(RequestsPerHour))
    else Ok(events + [RequestCharge(packet.slug, packet.action, now, packet.id)])
  }

  /** Accepting the packet itself: conflicts first, then the circuit, then the request budget. */
  function AcceptPacket(st: Store, packet: Packet, limits: Limits, now: int): Result<Store, StoreError> {
    if packet.id in st.packets then
      :- Need(st.packets[packet.id] == packet, PacketConflict);
      Ok(st)
    else
      :- Need(forall id | id in st.packets :: st.packets[id].digest != packet.digest, PacketConflict);
      :- Need(!CircuitIsOpen(st, packet.slug, packet.action), CircuitOpen);
      var events :- RequestBudget(st.events, packet, limits, now);
      Ok(st.(packets := st.packets[packet.id := packet], events := events))
  }

  function AdmitEffect(st: Store, packet: Packet): Result<Store, StoreError>
    requires TargetsFitAction(packet)
  {
    var effect := EffectOf(packet);
    if effect in st.effects then
      :- Need(st.effects[effect].slug == packet.slug, EffectStateError);
      Ok(st)
    else
      :- Need(!CircuitIsOpen(st, packet.slug, packet.action), CircuitOpen);
      Ok(st.(effects := st.effects[effect := Effect(packet.slug, Pending, None, 0, None)]))
  }

  function Disposition(st: Store, packetId: string, effect: EffectKey, isNew: bool): Result<Reservation, StoreError>
    requires effect in st.effects
  {
    var row := RowOf(st.receipts, packetId);
    if row.Some? then Ok(ReceiptReplay(row.value.receipt))
    else if st.effects[effect].state == Pending then Ok(if isNew then Reserved else DuplicatePending)
    else if LatestDecision(st.receipts, effect).None? then Err(StoreCorruption)
    else if st.effects[effect].state == EffectIndeterminate then Ok(SemanticIndeterminateEffect)
    else Ok(SemanticCompleted)
  }

  function Reserve(st: Store, packet: Packet, limits: Limits, now: int): Result<(Store, Reservation), StoreError> {
    var identity := Need(IdentityValid(packet, now), InvalidPacket);
    :- identity;
    var accepted :- AcceptPacket(st, packet, limits, now);
    var admitted :- AdmitEffect(accepted, packet);
    var disposition :- Disposition(admitted, packet.id, EffectOf(packet), EffectOf(packet) !in st.effects);
    Ok((admitted, disposition))
  }

  // ----- begin_mutation ------------------------------------------------------------------------

  datatype Start =
    | ChargedNow
    | AlreadyCharged
    | StartReplay(receipt: Receipt)
    | StartCompleted
    | StartIndeterminate

  /** Whether a stored packet asks for this effect; an outcome may be recorded after expiry, a start may not. */
  function BelongsTo(st: Store, packetId: string, effect: EffectKey, now: int, allowExpired: bool): Checked<StoreError>
    requires effect in st.effects
  {
    if packetId !in st.packets then Fail(EffectStateError)
    else
      var packet := st.packets[packetId];
      var at := if allowExpired && packet.expiresAt - 1 < now then packet.expiresAt - 1 else now;
      if !IdentityValid(packet, at) then Fail(InvalidPacket)
      else Need(EffectOf(packet) == effect && packet.slug == st.effects[effect].slug, EffectStateError)
  }

  function MutationBudget(events: seq<BudgetEvent>, slug: string, effect: EffectKey, packetId: string, attempt: string,
                          limits: Limits, now: int): Result<seq<BudgetEvent>, StoreError> {
    var action := ActionOf(effect);
    :- Need(MutationsOn(events, slug, UtcDay(now)) < limits.dailyMutations, BudgetExceeded(DailyMutations));
    :- Need(ActionMutationsOn(events, slug, UtcDay(now), action) < limits.ActionDailyLimit(action),
            BudgetExceeded(if action == MarkPrReady then MarkReadyPerDay else ReviewThreadsPerDay));
    Ok(events + [MutationCharge(slug, action, now, packetId, effect, attempt)])
  }

  /** Charging an attempt on a pending effect that has none. */
  function Charge(st: Store, effect: EffectKey, packetId: string, attempt: string, precondition: Precondition,
                  limits: Limits, now: int): Result<Store, StoreError>
    requires effect in st.effects
  {
    var row := st.effects[effect];
    :- Need(row.attempts < 2, EffectStateError);
    :- Need(!AttemptUsed(st.events, effect, attempt), EffectStateError);
    :- Need(!CircuitIsOpen(st, row.slug, ActionOf(effect)), CircuitOpen);
    var events :- MutationBudget(st.events, row.slug, effect, packetId, attempt, limits, now);
    var charged := row.(active := Some(Attempt(attempt, packetId, precondition, now)), attempts := row.attempts + 1);
    Ok(st.(effects := st.effects[effect := charged], events := events))
  }

  function BeginMutation(st: Store, effect: EffectKey, packetId: string, attempt: string, precondition: Precondition,
                         limits: Limits, now: int): Result<(Store, Start), StoreError> {
    var named := Need(attempt != "", InvalidArgument);
    :- named;
    :- Need(effect in st.effects, EffectStateError);
    var row := st.effects[effect];
    var exact := RowOf(st.receipts, packetId);
    if exact.Some? then Ok((st, StartReplay(exact.value.receipt)))
    else if row.state != Pending then
      :- Need(LatestDecision(st.receipts, effect).Some?, StoreCorruption);
      Ok((st, if row.state == EffectIndeterminate then StartIndeterminate else StartCompleted))
    else
      :- BelongsTo(st, packetId, effect, now, false);
      if row.active.Some? then
        :- Need(row.active.value.key == attempt && row.active.value.packetId == packetId
                && row.active.value.precondition == precondition, PendingRecoveryError);
        Ok((st, AlreadyCharged))
      else
        var charged :- Charge(st, effect, packetId, attempt, precondition, limits, now);
        Ok((charged, ChargedNow))
  }

  // ----- reconcile_absent ----------------------------------------------------------------------

  function ReconcileAbsent(st: Store, effect: EffectKey, packetId: string, attempt: string, head: string, now: int)
    : Result<Store, StoreError>
  {
    var pending := Need(effect in st.effects && st.effects[effect].state == Pending, EffectStateError);
    :- pending;
    var row := st.effects[effect];
    if row.active.None? then
      :- Need(row.absence.Some? && row.absence.value.attempt == attempt && row.absence.value.packetId == packetId
              && row.absence.value.head == head, EffectStateError);
      Ok(st)
    else
      :- Need(row.active.value.key == attempt && row.active.value.packetId == packetId, EffectStateError);
      :- Need(row.attempts < 2, EffectStateError);
      var absence := Absence(attempt, packetId, head, row.active.value.precondition, now);
      Ok(st.(effects := st.effects[effect := row.(active := None, absence := Some(absence))]))
  }

  // ----- outcomes ------------------------------------------------------------------------------

  /** The circuit after an effect leaves pending. */
  function TerminalCircuit(st: Store, slug: string, action: Action, state: EffectState, limits: Limits): Circuit {
    var key := CircuitKey(slug, action);
    if state == EffectIndeterminate then
      var count := (if key in st.circuits then st.circuits[key].count else 0) + 1;
      Circuit(count, count >= limits.indeterminateLimit)
    else Circuit(0, false)
  }

  /** An effect leaves pending: its attempt is cleared and its circuit updated. */
  function SettleEffect(st: Store, effect: EffectKey, state: EffectState, limits: Limits): Store
    requires effect in st.effects
  {
    var row := st.effects[effect];
    var key := CircuitKey(row.slug, ActionOf(effect));
    st.(effects := st.effects[effect := row.(state := state, active := None)],
        circuits := st.circuits[key := TerminalCircuit(st, row.slug, ActionOf(effect), state, limits)])
  }

  datatype Recording = Inserted | Replayed(receipt: Receipt)

  /** The rules a packet outcome must respect on its effect. */
  function PacketOutcomeAllowed(st: Store, packetId: string, state: RowState, effect: EffectKey, now: int): Checked<StoreError> {
    if effect !in st.effects then Fail(EffectStateError)
    else
      var belongs := BelongsTo(st, packetId, effect, now, true);
      var row := st.effects[effect];
      if belongs.Fail? then belongs
      else if state == RowReconciled then
        Need(row.state != EffectIndeterminate && !(row.state == Pending && row.active.Some?), EffectStateError)
      else Need(row.active.None?, EffectStateError)
  }

  function RecordPacketReceipt(st: Store, packetId: string, state: RowState, receipt: Receipt, effect: Option<EffectKey>,
                               limits: Limits, now: int): Result<(Store, Recording), StoreError>
  {
    var fits := Need(state in {RowRejected, RowReconciled} && (state == RowReconciled ==> effect.Some?), InvalidArgument);
    :- fits;
    :- Need(packetId in st.packets, EffectStateError);
    var existing := RowOf(st.receipts, packetId);
    if existing.Some? then
      :- Need(existing.value == ReceiptRow(packetId, effect, state, receipt), EffectStateError);
      Ok((st, Replayed(receipt)))
    else
      :- (if effect.Some? then PacketOutcomeAllowed(st, packetId, state, effect.value, now) else Pass);
      :- Need(forall i | 0 <= i < |st.receipts| :: st.receipts[i].receipt != receipt, EffectStateError);
      var recorded := st.(receipts := st.receipts + [ReceiptRow(packetId, effect, state, receipt)]);
      if state == RowReconciled && st.effects[effect.value].state == Pending
      then Ok((SettleEffect(recorded, effect.value, Reconciled, limits), Inserted))
      else Ok((recorded, Inserted))
  }

  function Terminalize(st: Store, effect: EffectKey, packetId: string, attempt: string, state: RowState, receipt: Receipt,
                       limits: Limits, now: int): Result<(Store, Recording), StoreError>
  {
    var decisive := Need(Decisive(state), InvalidArgument);
    :- decisive;
    :- Need(effect in st.effects, EffectStateError);
    var row := st.effects[effect];
    if row.state != Pending then
      var persisted := RowOf(st.receipts, packetId);
      :- Need(persisted.Some? && persisted.value.receipt == receipt && persisted.value.state == state, EffectStateError);
      Ok((st, Replayed(receipt)))
    else
      :- BelongsTo(st, packetId, effect, now, true);
      :- Need(row.active.Some? && row.active.value.key == attempt && row.active.value.packetId == packetId, EffectStateError);
      // the unique columns of the receipts table
      :- Need(RowOf(st.receipts, packetId).None?, EffectStateError);
      :- Need(forall i | 0 <= i < |st.receipts| :: st.receipts[i].receipt != receipt, EffectStateError);
      var recorded := st.(receipts := st.receipts + [ReceiptRow(packetId, Some(effect), state, receipt)]);
      Ok((SettleEffect(recorded, effect, EffectStateOf(state), limits), Inserted))
  }

  function CloseCircuit(st: Store, slug: string, action: Action): Store {
    st.(circuits := st.circuits[CircuitKey(slug, action) := Circuit(0, false)])
  }

  // ----- pending_recovery ----------------------------------------------------------------------

  datatype PendingAttempt = PendingAttempt(
    packetId: string,
    effect: EffectKey,
    head: string,
    attempt: string,
    precondition: Precondition,
    startedAt: int,
    attempts: nat)

  predicate ListsAttempt(st: Store, row: PendingAttempt) {
    && row.effect in st.effects
    && var effect := st.effects[row.effect];
    && effect.state == Pending
    && effect.active == Some(Attempt(row.attempt, row.packetId, row.precondition, row.startedAt))
    && effect.attempts == row.attempts
    && row.packetId in st.packets
    && st.packets[row.packetId].pr.head == row.head
  }

  predicate Listed(rows: seq<PendingAttempt>, effect: EffectKey) {
    exists i :: 0 <= i < |rows| && rows[i].effect == effect
  }

  /** The rows of pending_recovery: every active attempt of a stored packet, once, oldest first (ties in any order). */
  predicate IsPendingListing(st: Store, rows: seq<PendingAttempt>) {
    && (forall i | 0 <= i < |rows| :: ListsAttempt(st, rows[i]))
    && (forall i, j | 0 <= i < j < |rows| :: rows[i].effect != rows[j].effect && rows[i].startedAt <= rows[j].startedAt)
    && (forall effect | effect in st.effects && st.effects[effect].state == Pending && st.effects[effect].active.Some?
                        && st.effects[effect].active.value.packetId in st.packets :: Listed(rows, effect))
  }
}
