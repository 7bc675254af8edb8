/**
 Two well-timed runs in which a second packet for an effect ends without a receipt: its outcome is refused
 because another packet's charged attempt, left alone by recovery, is still active.
 */
module UnansweredPackets {
  import opened Outcomes
  import opened Packets
  import opened Actions
  import opened Receipts
  import opened StoreState
  import opened StoreInvariants
  import opened Lifecycle
  import opened BrokerInvariant
  import opened ReceiptValidity

  const CFG := Config(true, "sloth", "o/r", 1, "main", {MarkPrReady}, "bot", {}, true, {}, _ => true, _ => false, 1,
                      MAX_PACKET_TTL_SECONDS, MAX_CLOCK_SKEW_SECONDS, Limits(10, 10, 10, 10, 1))

  const NOW := EARLIEST_TIMESTAMP

  const HEAD: string := "aaaaaaaaaaaaaaaaaaaaaaaaaaaaaaaaaaaaaaaa"

  const KEY := "k"

  function PacketNamed(id: string): Packet {
    Packet(id, id, "sloth", MarkPrReady, "o/r", PullRequest(1, "u", "main", HEAD, "bot", true), NoChecks, 0, "e", "m",
           NOW, NOW, NOW + MAX_PACKET_TTL_SECONDS, [], [])
  }

  const FIRST := PacketNamed("first")
  const SECOND := PacketNamed("second")
  const ONE := Request(FIRST, NOW)
  const TWO := Request(SECOND, NOW)

  function LiveWith(isDraft: bool): Snapshot {
    Snapshot("o/r", 1, LivePr("n", 1, "u", "main", HEAD, "bot", isDraft, Open, true, 0), [], [], Comment("e", "bot", "m", NOW), [], 0)
  }

  function EvaluationOf(isDraft: bool): Evaluated {
    var live := LiveWith(isDraft);
    Evaluated(MarkPrReady, 1, "n", HEAD, None, !isDraft, Before(live.pr, [], [], live.comment, 0, None))
  }

  const EFFECT := ReadyEffect("o/r", 1, HEAD)

  const CONDITION := EvaluatedBefore(EvaluationOf(true).before)

  const ROW := PendingAttempt("first", EFFECT, HEAD, KEY, CONDITION, NOW, 1)

  function RequestEvent(id: string): BudgetEvent {
    RequestCharge("sloth", MarkPrReady, NOW, id)
  }

  /** The first packet reserved, then charged, then the second one reserved beside it. */
  const RESERVED :=
    Store(map["first" := FIRST], map[EFFECT := Effect("sloth", Pending, None, 0, None)], [RequestEvent("first")], [], map[])

  const CHARGED :=
    Store(map["first" := FIRST], map[EFFECT := Effect("sloth", Pending, Some(Attempt(KEY, "first", CONDITION, NOW)), 1, None)],
          [RequestEvent("first"), MutationCharge("sloth", MarkPrReady, NOW, "first", EFFECT, KEY)], [], map[])

  const SHARED :=
    Store(CHARGED.packets["second" := SECOND], CHARGED.effects, CHARGED.events + [RequestEvent("second")], [], map[])

  const LOG := [Charged(EFFECT, "sloth", "first", KEY)]

  lemma PacketsAreAccepted(id: string)
    ensures WellFormed(CFG, PacketNamed(id)) && Accepted(CFG, PacketNamed(id), NOW) && IdentityValid(PacketNamed(id), NOW)
    ensures TargetsFitAction(PacketNamed(id)) && EffectOf(PacketNamed(id)) == EFFECT
    ensures IsOid(HEAD)
  {
  }

  lemma LiveIsAuthorized(id: string, isDraft: bool, lenient: bool)
    requires isDraft || lenient
    ensures Evaluate(CFG, PacketNamed(id), LiveWith(isDraft), lenient) == Ok(EvaluationOf(isDraft))
    ensures Desired(PacketNamed(id), LiveWith(isDraft)) <==> !isDraft
  {
    PacketsAreAccepted(id);
  }

  lemma LiveHeadsAreWellFormed(isDraft: bool)
    ensures HeadWellFormed(LiveWith(isDraft))
  {
    PacketsAreAccepted("");
    LowerHexFixesOid(HEAD);
  }

  // ----- the first packet: charged, then a crash -----------------------------------------------

  lemma FirstIsReserved()
    ensures ReachableInTime(CFG, System(RESERVED, [], Admitted(ONE, false), NOW))
  {
    hide OnConclude, OnCommitRecovery, OnBegin, ReachableInTime, WellFormed, Accepted, IdentityValid;
    PacketsAreAccepted("first");
    RunStartsInTime(CFG);
    RunGoesOnInTime(CFG, INITIAL, Submit(FIRST, NOW));
    var started := System(EMPTY_STORE, [], Started(ONE), NOW);
    assert Next(CFG, INITIAL, Submit(FIRST, NOW)) == started;
    RunGoesOnInTime(CFG, started, ListPending([]));
    var recovered := started.(pc := Recovering(ONE, []));
    assert Next(CFG, started, ListPending([])) == recovered;
    RunGoesOnInTime(CFG, recovered, Admit);
    FirstCanBeReserved();
  }

  lemma FirstCanBeReserved()
    ensures Reserve(EMPTY_STORE, FIRST, CFG.limits, NOW) == Ok((RESERVED, Reserved))
  {
    PacketsAreAccepted("first");
    assert EMPTY_STORE.events + [RequestEvent("first")] == RESERVED.events;
    assert EMPTY_STORE.packets["first" := FIRST] == RESERVED.packets;
    assert EMPTY_STORE.effects[EFFECT := Effect("sloth", Pending, None, 0, None)] == RESERVED.effects;
  }

  lemma FirstIsCharged()
    ensures ReachableInTime(CFG, System(CHARGED, LOG, Idle, NOW))
  {
    hide OnConclude, OnCommitRecovery, OnAdmit, OnSubmit, ReachableInTime, Evaluate, WellFormed;
    FirstIsReserved();
    PacketsAreAccepted("first");
    LiveIsAuthorized("first", true, true);
    LiveHeadsAreWellFormed(true);
    var admitted := System(RESERVED, [], Admitted(ONE, false), NOW);
    RunGoesOnInTime(CFG, admitted, ObserveLive(Seen(LiveWith(true))));
    var ready := admitted.(pc := Ready(ONE, EvaluationOf(true)));
    assert Next(CFG, admitted, ObserveLive(Seen(LiveWith(true)))) == ready;
    RunGoesOnInTime(CFG, ready, Begin(KEY, NOW));
    FirstCanBeCharged();
    var charging := System(CHARGED, LOG, Charging(ONE, EvaluationOf(true), KEY, NOW), NOW);
    assert Next(CFG, ready, Begin(KEY, NOW)) == charging by {
      assert [] + LOG == LOG;
    }
    RunGoesOnInTime(CFG, charging, Crash);
  }

  lemma FirstCanBeCharged()
    ensures BeginMutation(RESERVED, EFFECT, "first", KEY, CONDITION, CFG.limits, NOW) == Ok((CHARGED, ChargedNow))
  {
    PacketsAreAccepted("first");
    assert RESERVED.events[..0] == [];
    assert MutationsOn(RESERVED.events, "sloth", UtcDay(NOW)) == 0;
    assert ActionMutationsOn(RESERVED.events, "sloth", UtcDay(NOW), MarkPrReady) == 0;
    assert !AttemptUsed(RESERVED.events, EFFECT, KEY);
    assert RESERVED.events + [MutationCharge("sloth", MarkPrReady, NOW, "first", EFFECT, KEY)] == CHARGED.events;
    assert RESERVED.effects[EFFECT := CHARGED.effects[EFFECT]] == CHARGED.effects;
  }

  // ----- the second packet: admitted beside the charged attempt --------------------------------

  lemma SecondLeavesFirst()
    ensures ReachableInTime(CFG, System(CHARGED, LOG, Recovering(TWO, []), NOW))
  {
    hide OnConclude, OnBegin, OnAdmit, ReachableInTime, Evaluate, Desired, WellFormed;
    FirstIsCharged();
    PacketsAreAccepted("second");
    LiveIsAuthorized("first", true, false);
    LiveHeadsAreWellFormed(true);
    var idle := System(CHARGED, LOG, Idle, NOW);
    RunGoesOnInTime(CFG, idle, Submit(SECOND, NOW));
    var started := idle.(pc := Started(TWO));
    assert Next(CFG, idle, Submit(SECOND, NOW)) == started;
    assert IsPendingListing(CHARGED, [ROW]) by {
      assert [ROW][0].effect == EFFECT;
    }
    RunGoesOnInTime(CFG, started, ListPending([ROW]));
    var recovering := idle.(pc := Recovering(TWO, [ROW]));
    assert Next(CFG, started, ListPending([ROW])) == recovering;
    var seen := ObserveRecovery(Seen(LiveWith(true)), NOW);
    RunGoesOnInTime(CFG, recovering, seen);
    assert Decide(CFG, FIRST, ROW, "second", Seen(LiveWith(true)), NOW) == Some(Leave);
    var decided := idle.(pc := Decided(TWO, [ROW], Leave));
    assert Next(CFG, recovering, seen) == decided;
    RunGoesOnInTime(CFG, decided, CommitRecovery(NOW));
    assert [ROW][1..] == [];
  }

  lemma SecondIsAdmitted()
    ensures ReachableInTime(CFG, System(SHARED, LOG, Admitted(TWO, false), NOW))
  {
    hide OnConclude, OnCommitRecovery, OnBegin, OnSubmit, ReachableInTime, Evaluate, WellFormed, Accepted, IdentityValid;
    SecondLeavesFirst();
    PacketsAreAccepted("second");
    var recovered := System(CHARGED, LOG, Recovering(TWO, []), NOW);
    RunGoesOnInTime(CFG, recovered, Admit);
    SecondCanBeReserved();
  }

  lemma SecondCanBeReserved()
    ensures Reserve(CHARGED, SECOND, CFG.limits, NOW) == Ok((SHARED, DuplicatePending))
  {
    PacketsAreAccepted("second");
    assert CHARGED.events[..1] == [RequestEvent("first")] && [RequestEvent("first")][..0] == [];
    assert RequestsAfter([RequestEvent("first")], "sloth", NOW - REQUEST_WINDOW_SECONDS) == 1;
    assert RequestsAfter(CHARGED.events, "sloth", NOW - REQUEST_WINDOW_SECONDS) == 1;
  }

  // ----- and never answered --------------------------------------------------------------------

  /** A rejection that cannot be recorded: live state is unavailable while the first packet's attempt is active. */
  lemma RejectionCanGoUnanswered() returns (s: System)
    ensures ReachableInTime(CFG, s) && ValidConfig(CFG) && s.pc.Rejecting? && s.pc.request.packet == SECOND
    ensures s.pc.effect == Some(EFFECT) && RowAt(s.store, EFFECT).active.Some?
    ensures !Answered(s, Next(CFG, s, Conclude(NOW)), SECOND.id)
  {
    hide ReachableInTime, OnConclude, OnCommitRecovery, OnBegin, OnSubmit, Evaluate, WellFormed, Answered;
    SecondIsAdmitted();
    PacketsAreAccepted("second");
    var admitted := System(SHARED, LOG, Admitted(TWO, false), NOW);
    RunGoesOnInTime(CFG, admitted, ObserveLive(Unavailable));
    s := Next(CFG, admitted, ObserveLive(Unavailable));
    RejectionAnswersIff(CFG, s, NOW);
  }

  /** A reconciliation that cannot be recorded: the requested state is seen, but the first packet's attempt is active. */
  lemma SatisfactionCanGoUnanswered() returns (s: System)
    ensures ReachableInTime(CFG, s) && ValidConfig(CFG) && s.pc.Satisfying? && s.pc.request.packet == SECOND
    ensures RowAt(s.store, EFFECT).state == Pending && RowAt(s.store, EFFECT).active.Some?
    ensures !Answered(s, Next(CFG, s, Conclude(NOW)), SECOND.id)
  {
    hide ReachableInTime, OnConclude, OnCommitRecovery, OnBegin, OnSubmit, Evaluate, WellFormed, Answered;
    SecondIsAdmitted();
    PacketsAreAccepted("second");
    LiveIsAuthorized("second", false, true);
    LiveHeadsAreWellFormed(false);
    var admitted := System(SHARED, LOG, Admitted(TWO, false), NOW);
    RunGoesOnInTime(CFG, admitted, ObserveLive(Seen(LiveWith(false))));
    s := Next(CFG, admitted, ObserveLive(Seen(LiveWith(false))));
    SatisfactionAnswersIff(CFG, s, NOW);
  }
}
