/** What the append-only charge ledger implies about any window of time, however the clock moved. */
module Budgets {
  import opened Outcomes
  import opened Packets
  import opened StoreState
  import opened StoreInvariants
  import opened Lifecycle
  import opened BrokerInvariant
  import opened BrokerSafety
  import opened Counting

  /** Request charges of an instance in the half-open window from just after `from` up to `to`. */
  function RequestsIn(events: seq<BudgetEvent>, slug: string, from: int, to: int): nat {
    if events == [] then 0
    else
      var last := events[|events| - 1];
      RequestsIn(events[..|events| - 1], slug, from, to)
      + Indicator(last.RequestCharge? && last.slug == slug && from < last.at <= to)
  }

  lemma {:induction false} RequestsInAreCounted(events: seq<BudgetEvent>, slug: string, from: int, to: int)
    ensures RequestsIn(events, slug, from, to)
            == |set k | 0 <= k < |events| && events[k].RequestCharge? && events[k].slug == slug && from < events[k].at <= to|
  {
    if events != [] {
      var n := |events| - 1;
      RequestsInAreCounted(events[..n], slug, from, to);
      var earlier := set k | 0 <= k < n && events[..n][k].RequestCharge? && events[..n][k].slug == slug
                             && from < events[..n][k].at <= to;
      var all := set k | 0 <= k < |events| && events[k].RequestCharge? && events[k].slug == slug && from < events[k].at <= to;
      OneMore(earlier, all, n);
    }
  }

  /** A window that starts no earlier and has an end contains no more charges than an endless one. */
  lemma {:induction false} WindowWithinTail(events: seq<BudgetEvent>, slug: string, from: int, to: int, after: int)
    requires after <= from
    ensures RequestsIn(events, slug, from, to) <= RequestsAfter(events, slug, after)
  {
    if events != [] {
      WindowWithinTail(events[..|events| - 1], slug, from, to, after);
    }
  }

  /** No window of one hour holds more request charges than the limit, whatever order the clock readings came in. */
  lemma {:induction false} RequestWindowBounded(limits: Limits, events: seq<BudgetEvent>, slug: string, to: int)
    requires BudgetLedger(limits, events)
    ensures RequestsIn(events, slug, to - REQUEST_WINDOW_SECONDS, to) <= limits.requestsPerHour
  {
    if events != [] {
      var before := events[..|events| - 1];
      var last := events[|events| - 1];
      RequestWindowBounded(limits, before, slug, to);
      if last.RequestCharge? && last.slug == slug && to - REQUEST_WINDOW_SECONDS < last.at <= to {
        WindowWithinTail(before, slug, to - REQUEST_WINDOW_SECONDS, to, last.at - REQUEST_WINDOW_SECONDS);
      }
    }
  }

  /** No UTC day holds more mutation charges of an instance, in all or by action, than its limits. */
  lemma {:induction false} MutationDayBounded(limits: Limits, events: seq<BudgetEvent>, slug: string, day: int, action: Action)
    requires BudgetLedger(limits, events)
    ensures MutationsOn(events, slug, day) <= limits.dailyMutations
    ensures ActionMutationsOn(events, slug, day, action) <= limits.ActionDailyLimit(action)
  {
    if events != [] {
      MutationDayBounded(limits, events[..|events| - 1], slug, day, action);
    }
  }

  /**
   The budgets hold in every reachable database, counted charge by charge: every half-open hour holds at
   most the request limit, and every UTC day at most the daily limit and, of each action, that action's.
   */
  lemma BudgetsHold(cfg: Config, s: System, slug: string, to: int, day: int, action: Action)
    requires ValidConfig(cfg) && Reachable(cfg, s)
    ensures var events := s.store.events;
            |set k | 0 <= k < |events| && events[k].RequestCharge? && events[k].slug == slug
                     && to - 3600 < events[k].at <= to| <= cfg.limits.requestsPerHour
    ensures var events := s.store.events;
            |set k | 0 <= k < |events| && events[k].MutationCharge? && events[k].slug == slug
                     && day * 86400 <= events[k].at < (day + 1) * 86400| <= cfg.limits.dailyMutations
    ensures var events := s.store.events;
            |set k | 0 <= k < |events| && events[k].MutationCharge? && events[k].slug == slug && events[k].action == action
                     && day * 86400 <= events[k].at < (day + 1) * 86400|
            <= (match action case MarkPrReady => cfg.limits.markReadyPerDay case ResolveReviewThread => cfg.limits.reviewThreadsPerDay)
  {
    hide Reachable, RequestsIn, MutationsOn, ActionMutationsOn;
    EveryReachableState(cfg, s);
    RequestWindowBounded(cfg.limits, s.store.events, slug, to);
    MutationDayBounded(cfg.limits, s.store.events, slug, day, action);
    RequestsInAreCounted(s.store.events, slug, to - 3600, to);
    MutationsAreCounted(s.store.events, slug, day);
    ActionMutationsAreCounted(s.store.events, slug, day, action);
  }

  /** A charge is booked under its effect's own action, so no charge escapes its action's limit. */
  lemma {:induction false} ChargesAreBookedByAction(limits: Limits, events: seq<BudgetEvent>, k: nat)
    requires BudgetLedger(limits, events) && k < |events| && events[k].MutationCharge?
    ensures events[k].action == if events[k].effect.ReadyEffect? then MarkPrReady else ResolveReviewThread
  {
    if k < |events| - 1 {
      ChargesAreBookedByAction(limits, events[..|events| - 1], k);
    }
  }
}
