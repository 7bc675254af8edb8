/** The receipt chain and exact replay: a packet, once answered, is answered the same way for ever. */
module ReceiptChain {
  import opened Outcomes
  import opened Packets
  import opened Actions
  import opened Receipts
  import opened StoreState
  import opened StoreInvariants
  import opened Lifecycle
  import opened BrokerInvariant
  import opened BrokerSafety
  import opened BrokerGuarantees
  import opened StoreEvolution

  function SignedReceipts(rows: seq<ReceiptRow>): seq<Receipt> {
    seq(|rows|, i requires 0 <= i < |rows| => rows[i].receipt)
  }

  /** The head digest commits to every receipt below it: equal heads mean equal histories. */
  lemma {:induction false} HeadCommitsToHistory(one: seq<ReceiptRow>, two: seq<ReceiptRow>)
    requires ReceiptLog(one) && ReceiptLog(two) && HeadDigest(one) == HeadDigest(two)
    ensures SignedReceipts(one) == SignedReceipts(two)
  {
    if one != [] && two != [] {
      var before, before' := one[..|one| - 1], two[..|two| - 1];
      HeadCommitsToHistory(before, before');
      assert SignedReceipts(one) == SignedReceipts(before) + [one[|one| - 1].receipt];
      assert SignedReceipts(two) == SignedReceipts(before') + [two[|two| - 1].receipt];
    }
  }

  /** In every reachable database each receipt names the digest of the one before it, the first the zero hash. */
  lemma ReceiptsAreChained(cfg: Config, s: System, i: nat)
    requires ValidConfig(cfg) && Reachable(cfg, s) && i < |s.store.receipts|
    ensures var receipts := s.store.receipts;
            receipts[i].receipt.previous == if i == 0 then ZeroHash else Sha256(receipts[i - 1].receipt)
  {
    hide Reachable;
    EveryReachableState(cfg, s);
    LoggedRowFits(s.store.receipts, i);
  }

  // ----- continuing a run ----------------------------------------------------------------------

  lemma ExtendsTransitively(a: Store, b: Store, c: Store)
    requires Extends(a, b) && Extends(b, c)
    ensures Extends(a, c)
  {
  }

  /** Continuing a run never removes or rewrites a packet or a receipt. */
  lemma {:induction false} RunExtends(cfg: Config, inputs: seq<Input>, more: seq<Input>)
    ensures Extends(Exec(cfg, inputs).store, Exec(cfg, inputs + more).store)
  {
    hide Next;
    if more == [] {
      assert inputs + more == inputs;
    } else {
      var shorter := more[..|more| - 1];
      RunExtends(cfg, inputs, shorter);
      assert (inputs + more)[..|inputs + more| - 1] == inputs + shorter;
      StepExtends(cfg, Exec(cfg, inputs + shorter), more[|more| - 1]);
      ExtendsTransitively(Exec(cfg, inputs).store, Exec(cfg, inputs + shorter).store, Exec(cfg, inputs + more).store);
    }
  }

  /** Rows are found at the same place after the table has grown. */
  lemma RowPersists(earlier: seq<ReceiptRow>, later: seq<ReceiptRow>, packetId: string)
    requires ReceiptLog(later) && earlier <= later && RowOf(earlier, packetId).Some?
    ensures RowOf(later, packetId) == RowOf(earlier, packetId)
  {
  }

  /**
   Exact replay: once a packet has a receipt, submitting it again in any later idle state (after
   expiry too) returns that very receipt, changes no table and calls nobody.
   */
  lemma ReplayIsExact(cfg: Config, inputs: seq<Input>, more: seq<Input>, packet: Packet, now: int)
    requires ValidConfig(cfg)
    requires var st := Exec(cfg, inputs).store;
             packet.id in st.packets && st.packets[packet.id] == packet && RowOf(st.receipts, packet.id).Some?
    requires Exec(cfg, inputs + more).pc.Idle?
    ensures var s := Exec(cfg, inputs + more);
            var receipt := RowOf(Exec(cfg, inputs).store.receipts, packet.id).value.receipt;
            Next(cfg, s, Submit(packet, now)) == s.(clock := now, log := s.log + [Replied(packet.id, receipt)])
  {
    hide OnConclude, OnCommitRecovery, OnAdmit, OnBegin, OnObserveLive;
    EveryRun(cfg, inputs);
    EveryRun(cfg, inputs + more);
    RunExtends(cfg, inputs, more);
    RowPersists(Exec(cfg, inputs).store.receipts, Exec(cfg, inputs + more).store.receipts, packet.id);
  }

  /** All replies ever sent for one packet carry the same receipt. */
  lemma RepliesNeverDiffer(cfg: Config, s: System, i: nat, j: nat)
    requires ValidConfig(cfg) && Reachable(cfg, s) && i < |s.log| && j < |s.log|
    requires var log := s.log;
             log[i].Replied? && log[j].Replied? && log[i].packetId == log[j].packetId
    ensures s.log[i].receipt == s.log[j].receipt
  {
    hide Reachable;
    EveryReachableState(cfg, s);
    ReplyMatchesRow(cfg, s.log, s.store.receipts, i);
    ReplyMatchesRow(cfg, s.log, s.store.receipts, j);
  }

  lemma ReplyMatchesRow(cfg: Config, log: seq<Event>, receipts: seq<ReceiptRow>, i: nat)
    requires LogOk(cfg, log) && LoggedRows(log) == receipts && ReceiptLog(receipts) && i < |log| && log[i].Replied?
    ensures RowOf(receipts, log[i].packetId).Some? && RowOf(receipts, log[i].packetId).value.receipt == log[i].receipt
  {
    LoggedEventFits(cfg, log, i);
    LoggedRowsGrow(log, i);
    RowPersists(LoggedRows(log[..i]), receipts, log[i].packetId);
  }

  lemma {:induction false} LoggedRowsGrow(log: seq<Event>, i: nat)
    requires i <= |log|
    ensures LoggedRows(log[..i]) <= LoggedRows(log)
  {
    if i < |log| {
      LoggedRowsGrow(log[..|log| - 1], i);
      assert log[..|log| - 1][..i] == log[..i];
    } else {
      assert log[..i] == log;
    }
  }
}
