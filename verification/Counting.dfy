/**
 What the running counts of the ledger, the log and the receipts count, said by sets of positions: no
 position is missed, none is counted twice, and no other field has a say.
 */
module Counting {
  import opened Outcomes
  import opened Packets
  import opened Actions
  import opened Receipts
  import opened StoreState
  import opened StoreInvariants
  import opened Lifecycle
  import opened BrokerInvariant

  lemma DayBounds(at: int, day: int)
    ensures UtcDay(at) == day <==> day * 86400 <= at < (day + 1) * 86400
  {
  }

  // ----- the budget ledger ---------------------------------------------------------------------

  lemma {:induction false} RequestsAreCounted(events: seq<BudgetEvent>, slug: string, after: int)
    ensures RequestsAfter(events, slug, after)
            == |set k | 0 <= k < |events| && events[k].RequestCharge? && events[k].slug == slug && after < events[k].at|
  {
    if events != [] {
      var n := |events| - 1;
      RequestsAreCounted(events[..n], slug, after);
      var earlier := set k | 0 <= k < n && events[..n][k].RequestCharge? && events[..n][k].slug == slug && after < events[..n][k].at;
      var all := set k | 0 <= k < |events| && events[k].RequestCharge? && events[k].slug == slug && after < events[k].at;
      OneMore(earlier, all, n);
    }
  }

  lemma {:induction false} MutationsAreCounted(events: seq<BudgetEvent>, slug: string, day: int)
    ensures MutationsOn(events, slug, day)
            == |set k | 0 <= k < |events| && events[k].MutationCharge? && events[k].slug == slug
                        && day * 86400 <= events[k].at < (day + 1) * 86400|
  {
    hide UtcDay;
    if events != [] {
      var n := |events| - 1;
      DayBounds(events[n].at, day);
      MutationsAreCounted(events[..n], slug, day);
      var earlier := set k | 0 <= k < n && events[..n][k].MutationCharge? && events[..n][k].slug == slug
                             && day * 86400 <= events[..n][k].at < (day + 1) * 86400;
      var all := set k | 0 <= k < |events| && events[k].MutationCharge? && events[k].slug == slug
                         && day * 86400 <= events[k].at < (day + 1) * 86400;
      OneMore(earlier, all, n);
    }
  }

  lemma {:induction false} ActionMutationsAreCounted(events: seq<BudgetEvent>, slug: string, day: int, action: Action)
    ensures ActionMutationsOn(events, slug, day, action)
            == |set k | 0 <= k < |events| && events[k].MutationCharge? && events[k].slug == slug && events[k].action == action
                        && day * 86400 <= events[k].at < (day + 1) * 86400|
  {
    hide UtcDay;
    if events != [] {
      var n := |events| - 1;
      DayBounds(events[n].at, day);
      ActionMutationsAreCounted(events[..n], slug, day, action);
      var earlier := set k | 0 <= k < n && events[..n][k].MutationCharge? && events[..n][k].slug == slug
                             && events[..n][k].action == action && day * 86400 <= events[..n][k].at < (day + 1) * 86400;
      var all := set k | 0 <= k < |events| && events[k].MutationCharge? && events[k].slug == slug && events[k].action == action
                         && day * 86400 <= events[k].at < (day + 1) * 86400;
      OneMore(earlier, all, n);
    }
  }

  lemma {:induction false} ChargesAreCounted(events: seq<BudgetEvent>, effect: EffectKey)
    ensures ChargesOf(events, effect) == |set k | 0 <= k < |events| && events[k].MutationCharge? && events[k].effect == effect|
  {
    if events != [] {
      var n := |events| - 1;
      ChargesAreCounted(events[..n], effect);
      var earlier := set k | 0 <= k < n && events[..n][k].MutationCharge? && events[..n][k].effect == effect;
      var all := set k | 0 <= k < |events| && events[k].MutationCharge? && events[k].effect == effect;
      OneMore(earlier, all, n);
    }
  }

  lemma {:induction false} UsedMeansCharged(events: seq<BudgetEvent>, effect: EffectKey, attempt: string)
    ensures AttemptUsed(events, effect, attempt)
            <==> exists k :: 0 <= k < |events| && events[k].MutationCharge? && events[k].effect == effect && events[k].attempt == attempt
  {
    if events != [] {
      var n := |events| - 1;
      UsedMeansCharged(events[..n], effect, attempt);
      assert forall k | 0 <= k < n :: events[..n][k] == events[k];
    }
  }

  lemma {:induction false} ChargedForMeansCharged(events: seq<BudgetEvent>, packetId: string, effect: EffectKey, attempt: string)
    ensures ChargedFor(events, packetId, effect, attempt)
            <==> exists k :: 0 <= k < |events| && events[k].MutationCharge? && events[k].packetId == packetId
                             && events[k].effect == effect && events[k].attempt == attempt
  {
    if events != [] {
      var n := |events| - 1;
      ChargedForMeansCharged(events[..n], packetId, effect, attempt);
      assert forall k | 0 <= k < n :: events[..n][k] == events[k];
    }
  }

  // ----- the receipts table --------------------------------------------------------------------

  /** The last row of the packet, if it has one. */
  lemma {:induction false} RowOfMeans(receipts: seq<ReceiptRow>, packetId: string)
    ensures RowOf(receipts, packetId).None? <==> forall i | 0 <= i < |receipts| :: receipts[i].packetId != packetId
    ensures RowOf(receipts, packetId).Some? ==>
              exists i :: 0 <= i < |receipts| && receipts[i] == RowOf(receipts, packetId).value && receipts[i].packetId == packetId
                          && forall j | i < j < |receipts| :: receipts[j].packetId != packetId
  {
    if receipts != [] {
      var n := |receipts| - 1;
      RowOfMeans(receipts[..n], packetId);
      assert forall i | 0 <= i < n :: receipts[..n][i] == receipts[i];
      if receipts[n].packetId != packetId && RowOf(receipts[..n], packetId).Some? {
        var i :| 0 <= i < n && receipts[..n][i] == RowOf(receipts[..n], packetId).value && receipts[..n][i].packetId == packetId
                 && forall j | i < j < n :: receipts[..n][j].packetId != packetId;
        assert receipts[i] == RowOf(receipts, packetId).value;
      }
    }
  }

  /** The newest completed, reconciled or indeterminate row of the effect, if it has one. */
  lemma {:induction false} LatestDecisionMeans(receipts: seq<ReceiptRow>, effect: EffectKey)
    ensures LatestDecision(receipts, effect).None?
            <==> forall i | 0 <= i < |receipts| :: receipts[i].effect == Some(effect) ==> receipts[i].state == RowRejected
    ensures LatestDecision(receipts, effect).Some? ==>
              exists i :: 0 <= i < |receipts| && receipts[i] == LatestDecision(receipts, effect).value
                          && receipts[i].effect == Some(effect) && receipts[i].state in {RowCompleted, RowReconciled, RowIndeterminate}
                          && forall j | i < j < |receipts| :: receipts[j].effect == Some(effect) ==> receipts[j].state == RowRejected
  {
    if receipts != [] {
      var n := |receipts| - 1;
      LatestDecisionMeans(receipts[..n], effect);
      assert forall i | 0 <= i < n :: receipts[..n][i] == receipts[i];
      if !DecidesEffect(receipts[n], effect) && LatestDecision(receipts[..n], effect).Some? {
        var i :| 0 <= i < n && receipts[..n][i] == LatestDecision(receipts[..n], effect).value
                 && receipts[..n][i].effect == Some(effect) && receipts[..n][i].state in {RowCompleted, RowReconciled, RowIndeterminate}
                 && forall j | i < j < n :: receipts[..n][j].effect == Some(effect) ==> receipts[..n][j].state == RowRejected;
        assert receipts[i] == LatestDecision(receipts, effect).value;
      }
    }
  }

  /** The state of the earliest deciding row, pending if there is none. */
  lemma {:induction false} FirstDecisionMeans(receipts: seq<ReceiptRow>, effect: EffectKey)
    ensures FirstDecision(receipts, effect) == Pending
            <==> forall i | 0 <= i < |receipts| :: receipts[i].effect == Some(effect) ==> receipts[i].state == RowRejected
    ensures FirstDecision(receipts, effect) != Pending ==>
              exists i :: 0 <= i < |receipts| && receipts[i].effect == Some(effect)
                          && (match receipts[i].state
                              case RowCompleted => FirstDecision(receipts, effect) == Completed
                              case RowReconciled => FirstDecision(receipts, effect) == Reconciled
                              case RowIndeterminate => FirstDecision(receipts, effect) == EffectIndeterminate
                              case RowRejected => false)
                          && forall j | 0 <= j < i :: receipts[j].effect == Some(effect) ==> receipts[j].state == RowRejected
  {
    if receipts != [] {
      var n := |receipts| - 1;
      FirstDecisionMeans(receipts[..n], effect);
      assert forall i | 0 <= i < n :: receipts[..n][i] == receipts[i];
      if FirstDecision(receipts[..n], effect) != Pending {
        var i :| 0 <= i < n && receipts[..n][i].effect == Some(effect)
                 && (match receipts[..n][i].state
                     case RowCompleted => FirstDecision(receipts[..n], effect) == Completed
                     case RowReconciled => FirstDecision(receipts[..n], effect) == Reconciled
                     case RowIndeterminate => FirstDecision(receipts[..n], effect) == EffectIndeterminate
                     case RowRejected => false)
                 && forall j | 0 <= j < i :: receipts[..n][j].effect == Some(effect) ==> receipts[..n][j].state == RowRejected;
        assert receipts[i] == receipts[..n][i];
      }
    }
  }

  lemma {:induction false} AttemptRowsAreCounted(receipts: seq<ReceiptRow>, effect: EffectKey)
    ensures AttemptRows(receipts, effect)
            == |set i | 0 <= i < |receipts| && receipts[i].effect == Some(effect) && receipts[i].receipt.mutation.operationId != ""|
  {
    if receipts != [] {
      var n := |receipts| - 1;
      AttemptRowsAreCounted(receipts[..n], effect);
      var earlier := set i | 0 <= i < n && receipts[..n][i].effect == Some(effect)
                             && receipts[..n][i].receipt.mutation.operationId != "";
      var all := set i | 0 <= i < |receipts| && receipts[i].effect == Some(effect)
                         && receipts[i].receipt.mutation.operationId != "";
      OneMore(earlier, all, n);
    }
  }

  // ----- the log -------------------------------------------------------------------------------

  /** The event ends the run of indeterminate outcomes of an instance and action. */
  predicate EndsRun(event: Event, slug: string, action: Action) {
    match event
    case Settled(effect, eventSlug, _, state) =>
      eventSlug == slug && (effect.ReadyEffect? <==> action == MarkPrReady) && state != EffectIndeterminate
    case CircuitClosed(eventSlug, eventAction) => eventSlug == slug && eventAction == action
    case _ => false
  }

  /** The event is an indeterminate outcome of an instance and action. */
  predicate AddsToRun(event: Event, slug: string, action: Action) {
    event.Settled? && event.slug == slug && (event.effect.ReadyEffect? <==> action == MarkPrReady)
    && event.state == EffectIndeterminate
  }

  /** The indeterminate outcomes from a position on. */
  function RunPositions(log: seq<Event>, from: nat, slug: string, action: Action): set<int> {
    set i | from <= i < |log| && AddsToRun(log[i], slug, action)
  }

  /** The run begins after the last event that ends one, and counts the indeterminate outcomes since. */
  lemma {:induction false} TrailingRunIsCounted(log: seq<Event>, slug: string, action: Action) returns (from: nat)
    ensures from <= |log| && (from > 0 ==> EndsRun(log[from - 1], slug, action))
    ensures forall i | from <= i < |log| :: !EndsRun(log[i], slug, action)
    ensures TrailingRun(log, CircuitKey(slug, action)) == |RunPositions(log, from, slug, action)|
  {
    hide EndsRun, AddsToRun, TrailingRun;
    NoRunYet(slug, action);
    if log != [] {
      RunGrows(log, slug, action);
    }
    from := |log|;
    if log != [] && !EndsRun(log[|log| - 1], slug, action) {
      var n := |log| - 1;
      from := TrailingRunIsCounted(log[..n], slug, action);
      var earlier := RunPositions(log[..n], from, slug, action);
      var all := RunPositions(log, from, slug, action);
      assert forall i | from <= i < n :: log[..n][i] == log[i];
      OneMore(earlier, all, n);
    } else {
      NothingSince(log, slug, action);
    }
  }

  lemma NothingSince(log: seq<Event>, slug: string, action: Action)
    ensures RunPositions(log, |log|, slug, action) == {}
  {
  }

  lemma NoRunYet(slug: string, action: Action)
    ensures TrailingRun([], CircuitKey(slug, action)) == 0
  {
  }

  lemma RunGrows(log: seq<Event>, slug: string, action: Action)
    requires log != []
    ensures var last := log[|log| - 1];
            TrailingRun(log, CircuitKey(slug, action))
            == if EndsRun(last, slug, action) then 0
               else TrailingRun(log[..|log| - 1], CircuitKey(slug, action)) + Indicator(AddsToRun(last, slug, action))
  {
  }
}
