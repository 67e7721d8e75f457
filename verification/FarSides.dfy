/**
 Where the treasury's money comes from and goes to: the exact rows each call writes, and the balance of
 every account that is nobody's sub-account over any run of calls.
 */
module FarSides {
  import opened Prelude
  import opened Ledger
  import opened Totals
  import opened LedgerService
  import opened TreasuryFlows
  import opened TreasuryMoney

  // ---------------------------------------------------------------- rows

  /** `s'` is `s` with one more row, of these accounts, amount and reference, and both balances moved. */
  ghost predicate Wrote(
      s: State, s': State, kind: EntryType, debit: string, credit: string, amount: int, reference: string)
  {
    && |s'.entries| == |s.entries| + 1 && s'.entries[..|s.entries|] == s.entries
    && var p := s'.entries[|s.entries|].posting;
    && p.kind == kind && p.debit == debit && p.credit == credit && p.amount == amount
    && p.currency == "USDC" && p.reference == reference
  }

  lemma EventWrites(digest: Digest, s: Service, event: FlowEvent, posted: bool, s': Service)
    requires EventStep(digest, s, event, posted, s')
    ensures !posted ==> s' == s
    ensures posted && event.DepositProcessed? ==>
      Wrote(s.ledger, s'.ledger, Deposit, "custodian:inbound", event.account + ":available", event.assets, event.ledgerEntryId)
    ensures posted && event.YieldAccrued? ==>
      Wrote(s.ledger, s'.ledger, Yield, "strategies:yield", "vault:total_assets", event.amount, event.reference)
  {
  }

  lemma ReserveWrites(
      digest: Digest, accounts: set<string>, s: Service, key: string, accountId: string, amount: int,
      resp: Result<Cached, Error>, s': Service)
    requires ReserveStep(digest, accounts, s, key, accountId, amount, resp, s')
    requires key !in s.cache && resp.Ok? && resp.value.reservation.Reserved?
    ensures Wrote(s.ledger, s'.ledger, Reserve, accountId + ":available", accountId + ":reserved", amount,
                  resp.value.reservation.reservationId)
  {
  }

  ghost predicate WroteIf(
      posted: bool, s: State, s': State, kind: EntryType, debit: string, credit: string, amount: int, reference: string)
  {
    if posted then Wrote(s, s', kind, debit, credit, amount, reference) else s' == s
  }

  /** The rows of a finalization: one for each posting that went through, in this order. */
  ghost predicate FinalRows(order: Order, ref: string, platformFee: int, partnerFee: int, done: seq<bool>, s: State, s': State)
    requires |done| == 3
  {
    var reserved, id := order.accountId + ":reserved", order.orderId;
    exists s1, s2 ::
      && WroteIf(done[0], s, s1, Settlement, reserved, "settlement:" + ref, order.sendAmount, id)
      && WroteIf(done[1], s1, s2, Fee, reserved, "revenue:platform", platformFee, id)
      && WroteIf(done[2], s2, s', Fee, reserved, "revenue:partner", partnerFee, id)
  }

  lemma ThreeStages(digest: Digest, s: State, flows: seq<FlowEvent>, done: seq<bool>, s': State) returns (s1: State, s2: State)
    requires |flows| == |done| == 3 && PostsSubset(digest, s, flows, done, s')
    ensures Attempt(digest, s, flows[0], done[0], s1) && Attempt(digest, s1, flows[1], done[1], s2)
    ensures Attempt(digest, s2, flows[2], done[2], s')
  {
    s1 := FirstStage(digest, s, flows, done, s');
    s2 := FirstStage(digest, s1, flows[1..], done[1..], s');
    var s3 := FirstStage(digest, s2, flows[1..][1..], done[1..][1..], s');
    assert s3 == s';
  }

  lemma FirstStage(digest: Digest, s: State, flows: seq<FlowEvent>, done: seq<bool>, s': State) returns (s1: State)
    requires |flows| == |done| > 0 && PostsSubset(digest, s, flows, done, s')
    ensures Attempt(digest, s, flows[0], done[0], s1) && PostsSubset(digest, s1, flows[1..], done[1..], s')
  {
    if done[0] {
      var e :| RowFor(digest, s, flows[0], e) && PostsSubset(digest, Post(s, e), flows[1..], done[1..], s');
      s1 := Post(s, e);
    } else {
      s1 := s;
    }
  }

  lemma RowWrites(digest: Digest, s: State, f: FlowEvent, e: Entry)
    requires RowFor(digest, s, f, e)
    ensures var p := PostingOf(f, "");
      p.currency == "USDC" ==> Wrote(s, Post(s, e), p.kind, p.debit, p.credit, p.amount, p.reference)
  {
    assert e.posting == PostingOf(f, "").(metadata := e.posting.metadata);
    assert Post(s, e).entries[..|s.entries|] == s.entries;
  }

  lemma AttemptWrites(digest: Digest, s: State, f: FlowEvent, posted: bool, s': State)
    requires Attempt(digest, s, f, posted, s') && PostingOf(f, "").currency == "USDC"
    ensures var p := PostingOf(f, ""); WroteIf(posted, s, s', p.kind, p.debit, p.credit, p.amount, p.reference)
  {
    if posted {
      var e :| RowFor(digest, s, f, e) && s' == Post(s, e);
      RowWrites(digest, s, f, e);
    }
  }

  lemma SettlementWrites(digest: Digest, s: State, acc: string, ref: string, amount: int, id: string, posted: bool, s': State)
    requires Attempt(digest, s, OrderSettled(acc, ref, amount, id), posted, s')
    ensures WroteIf(posted, s, s', Settlement, acc + ":reserved", "settlement:" + ref, amount, id)
  {
    AttemptWrites(digest, s, OrderSettled(acc, ref, amount, id), posted, s');
  }

  lemma PlatformFeeWrites(digest: Digest, s: State, acc: string, fee: int, id: string, posted: bool, s': State)
    requires Attempt(digest, s, PlatformFeeTaken(acc, fee, id), posted, s')
    ensures WroteIf(posted, s, s', Fee, acc + ":reserved", "revenue:platform", fee, id)
  {
    AttemptWrites(digest, s, PlatformFeeTaken(acc, fee, id), posted, s');
  }

  lemma PartnerFeeWrites(digest: Digest, s: State, acc: string, fee: int, id: string, posted: bool, s': State)
    requires Attempt(digest, s, PartnerFeeTaken(acc, fee, id), posted, s')
    ensures WroteIf(posted, s, s', Fee, acc + ":reserved", "revenue:partner", fee, id)
  {
    AttemptWrites(digest, s, PartnerFeeTaken(acc, fee, id), posted, s');
  }

  lemma FinalizationWrites(
      digest: Digest, s: State, order: Order, ref: string, platformFee: int, partnerFee: int, done: seq<bool>, s': State)
    requires |done| == 3 && PostsSubset(digest, s, FinalFlows(order, ref, platformFee, partnerFee), done, s')
    ensures FinalRows(order, ref, platformFee, partnerFee, done, s, s')
  {
    var acc, id := order.accountId, order.orderId;
    var s1, s2 := ThreeStages(digest, s, FinalFlows(order, ref, platformFee, partnerFee), done, s');
    SettlementWrites(digest, s, acc, ref, order.sendAmount, id, done[0], s1);
    PlatformFeeWrites(digest, s1, acc, platformFee, id, done[1], s2);
    PartnerFeeWrites(digest, s2, acc, partnerFee, id, done[2], s');
  }

  /** A finalization settles its order exactly if the order exists, the chain call succeeds and all three
      postings go through; then only the order's status changes, and otherwise no order does. */
  lemma FinalizationSettles(
      digest: Digest, s: Service, orderId: string, ref: string, platformFee: int, partnerFee: int, chainOk: bool,
      done: seq<bool>, resp: Result<(), Error>, s': Service)
    requires FinalizeStep(digest, s, orderId, ref, platformFee, partnerFee, chainOk, done, resp, s')
    ensures resp.Ok? <==> orderId in s.orders && chainOk && done[0] && done[1] && done[2]
    ensures resp.Ok? ==>
      s'.orders == s.orders[orderId := s.orders[orderId].(status := Settled)] && s'.orders[orderId].status == Settled
    ensures resp.Err? ==> s'.orders == s.orders
    ensures orderId !in s.orders || !chainOk ==> s'.ledger == s.ledger
  {
  }

  // ---------------------------------------------------------------- where a finalization's money arrives

  lemma FirstLettersDiffer(ref: string)
    ensures "settlement:" + ref != "revenue:platform" && "settlement:" + ref != "revenue:partner"
  {
    assert ("settlement:" + ref)[0] == 's' && "revenue:platform"[0] == 'r' && "revenue:partner"[0] == 'r';
  }

  lemma RevenuesDiffer()
    ensures "revenue:platform" != "revenue:partner"
  {
    assert |"revenue:platform"| == 16 && |"revenue:partner"| == 15;
  }

  /** Whichever of the three postings go through, under any reference: each fee arrives on its own revenue
      account, and the settled amount on the account of its reference, unless that is the very account it
      is all taken from. */
  lemma FinalizationArrives(
      digest: Digest, s: State, order: Order, ref: string, platformFee: int, partnerFee: int, done: seq<bool>, s': State)
    requires |done| == 3 && PostsSubset(digest, s, FinalFlows(order, ref, platformFee, partnerFee), done, s')
    ensures Balance(s'.snapshots, "revenue:platform") ==
      Balance(s.snapshots, "revenue:platform") + if done[1] then platformFee else 0
    ensures Balance(s'.snapshots, "revenue:partner") ==
      Balance(s.snapshots, "revenue:partner") + if done[2] then partnerFee else 0
    ensures Balance(s'.snapshots, "settlement:" + ref) == Balance(s.snapshots, "settlement:" + ref)
      + (if done[0] then order.sendAmount else 0)
      - (if "settlement:" + ref != order.accountId + ":reserved" then 0
         else (if done[0] then order.sendAmount else 0) + (if done[1] then platformFee else 0) + (if done[2] then partnerFee else 0))
  {
    var flows := FinalFlows(order, ref, platformFee, partnerFee);
    SubsetMoves(digest, s, flows, done, s', "revenue:platform");
    PlatformDelta(order, ref, platformFee, partnerFee, done);
    SubsetMoves(digest, s, flows, done, s', "revenue:partner");
    PartnerDelta(order, ref, platformFee, partnerFee, done);
    SubsetMoves(digest, s, flows, done, s', "settlement:" + ref);
    SettlementDeltas(order, ref, platformFee, partnerFee, done);
  }

  lemma PlatformDelta(order: Order, ref: string, platformFee: int, partnerFee: int, done: seq<bool>)
    requires |done| == 3
    ensures DeltaOf(FinalFlows(order, ref, platformFee, partnerFee), done, "revenue:platform") == if done[1] then platformFee else 0
  {
    FixedAccountsAreNoSubAccounts();
    FirstLettersDiffer(ref);
    RevenuesDiffer();
    ThreeDeltas(FinalFlows(order, ref, platformFee, partnerFee), done, "revenue:platform");
  }

  lemma PartnerDelta(order: Order, ref: string, platformFee: int, partnerFee: int, done: seq<bool>)
    requires |done| == 3
    ensures DeltaOf(FinalFlows(order, ref, platformFee, partnerFee), done, "revenue:partner") == if done[2] then partnerFee else 0
  {
    FixedAccountsAreNoSubAccounts();
    FirstLettersDiffer(ref);
    RevenuesDiffer();
    ThreeDeltas(FinalFlows(order, ref, platformFee, partnerFee), done, "revenue:partner");
  }

  lemma SettlementDeltas(order: Order, ref: string, platformFee: int, partnerFee: int, done: seq<bool>)
    requires |done| == 3
    ensures DeltaOf(FinalFlows(order, ref, platformFee, partnerFee), done, "settlement:" + ref) ==
      (if done[0] then order.sendAmount else 0)
      - (if "settlement:" + ref != order.accountId + ":reserved" then 0
         else (if done[0] then order.sendAmount else 0) + (if done[1] then platformFee else 0) + (if done[2] then partnerFee else 0))
  {
    FirstLettersDiffer(ref);
    ThreeDeltas(FinalFlows(order, ref, platformFee, partnerFee), done, "settlement:" + ref);
  }

  // ---------------------------------------------------------------- over runs

  /** How far the snapshot total is from the chain's. */
  ghost function Mismatch(s: State, onChainTotal: int): int {
    var difference := UserTotal(s.snapshots) - onChainTotal;
    if difference < 0 then -difference else difference
  }

  /** What a call adds to an account that is nobody's sub-account. */
  ghost function Received(s: Service, call: Call, account: string): int
    requires call.FinalizeCall? ==> |call.done| == 3
  {
    match call
    case FinalizeCall(orderId, ref, platformFee, partnerFee, chainOk, done, _) =>
      if orderId !in s.orders || !chainOk then 0
      else
        (if done[0] && account == "settlement:" + ref then s.orders[orderId].sendAmount else 0)
        + (if done[1] && account == "revenue:platform" then platformFee else 0)
        + (if done[2] && account == "revenue:partner" then partnerFee else 0)
    case EventCall(DepositProcessed(_, assets, _), posted) =>
      if posted && account == "custodian:inbound" then -assets else 0
    case EventCall(YieldAccrued(amount, _), posted) =>
      if !posted then 0
      else (if account == "vault:total_assets" then amount else 0) - (if account == "strategies:yield" then amount else 0)
    case ReconcileCall(onChainTotal, _, posted) =>
      if !posted then 0
      else (if account == "system:delta_reserve" then Mismatch(s.ledger, onChainTotal) else 0)
           - (if account == "suspense:reconciliation" then Mismatch(s.ledger, onChainTotal) else 0)
    case _ => 0
  }

  lemma FinalizeReceives(
      digest: Digest, s: State, order: Order, ref: string, platformFee: int, partnerFee: int, done: seq<bool>, s': State,
      account: string)
    requires |done| == 3 && PostsSubset(digest, s, FinalFlows(order, ref, platformFee, partnerFee), done, s')
    requires NoSubAccount(account)
    ensures Balance(s'.snapshots, account) == Balance(s.snapshots, account)
      + (if done[0] && account == "settlement:" + ref then order.sendAmount else 0)
      + (if done[1] && account == "revenue:platform" then platformFee else 0)
      + (if done[2] && account == "revenue:partner" then partnerFee else 0)
  {
    SubsetMoves(digest, s, FinalFlows(order, ref, platformFee, partnerFee), done, s', account);
    OutsideDelta(order, ref, platformFee, partnerFee, done, account);
  }

  lemma OutsideDelta(order: Order, ref: string, platformFee: int, partnerFee: int, done: seq<bool>, account: string)
    requires |done| == 3 && NoSubAccount(account)
    ensures DeltaOf(FinalFlows(order, ref, platformFee, partnerFee), done, account) ==
      (if done[0] && account == "settlement:" + ref then order.sendAmount else 0)
      + (if done[1] && account == "revenue:platform" then platformFee else 0)
      + (if done[2] && account == "revenue:partner" then partnerFee else 0)
  {
    var flows := FinalFlows(order, ref, platformFee, partnerFee);
    assert account != order.accountId + ":reserved";
    ThreeDeltas(flows, done, account);
  }

  lemma EventReceives(digest: Digest, s: Service, event: FlowEvent, posted: bool, s': Service, account: string)
    requires EventStep(digest, s, event, posted, s') && NoSubAccount(account)
    ensures Balance(s'.ledger.snapshots, account) ==
      Balance(s.ledger.snapshots, account) + Received(s, EventCall(event, posted), account)
  {
    if posted {
      var e :| RowFor(digest, s.ledger, event, e) && s'.ledger == Post(s.ledger, e);
      RowMoves(digest, s.ledger, event, e, account);
    }
  }

  lemma ReconcileReceives(digest: Digest, s: State, onChainTotal: int, reference: string, posted: bool, s': State, account: string)
    requires Reconciled(digest, s, onChainTotal, reference, posted, s')
    ensures Balance(s'.snapshots, account) == Balance(s.snapshots, account)
      + (if posted && account == "system:delta_reserve" then Mismatch(s, onChainTotal) else 0)
      - (if posted && account == "suspense:reconciliation" then Mismatch(s, onChainTotal) else 0)
  {
    if posted {
      var f := DeltaAdjusted(Abs(Judge(UserTotal(s.snapshots), onChainTotal).delta), reference);
      var e :| RowFor(digest, s, f, e) && s' == Post(s, e);
      RowMoves(digest, s, f, e, account);
      AdjustmentDelta(f.delta, reference, account);
    }
  }

  lemma ReserveReceives(digest: Digest, accounts: set<string>, s: Service, call: Call, s': Service, account: string)
    requires CallStep(digest, accounts, s, call, s') && NoSubAccount(account)
    requires call.ReserveCall? || call.QuoteCall? || call.OrderCall?
    ensures Balance(s'.ledger.snapshots, account) == Balance(s.ledger.snapshots, account)
  {
    if s'.ledger != s.ledger {
      var accountId, amount, reservationId, e := ReserveRowOf(digest, accounts, s, call, s');
      RowMoves(digest, s.ledger, FundsReserved(accountId, amount, reservationId), e, account);
    }
  }

  lemma CallReceives(digest: Digest, accounts: set<string>, s: Service, call: Call, s': Service, account: string)
    requires CallStep(digest, accounts, s, call, s') && NoSubAccount(account)
    ensures Balance(s'.ledger.snapshots, account) == Balance(s.ledger.snapshots, account) + Received(s, call, account)
  {
    match call
    case FinalizeCall(orderId, ref, platformFee, partnerFee, chainOk, done, _) =>
      if orderId in s.orders && chainOk {
        FinalizeReceives(digest, s.ledger, s.orders[orderId], ref, platformFee, partnerFee, done, s'.ledger, account);
      }
    case EventCall(event, posted) => EventReceives(digest, s, event, posted, s', account);
    case SweepCall =>
      var steps :| OnlySweeps(steps) && Leads(digest, s.ledger, steps, s'.ledger);
      SweepsMoveNothing(digest, s.ledger, steps, s'.ledger);
    case ReconcileCall(onChainTotal, reference, posted) =>
      ReconcileReceives(digest, s.ledger, onChainTotal, reference, posted, s'.ledger, account);
    case _ => ReserveReceives(digest, accounts, s, call, s', account);
  }

  ghost function TotalReceived(states: seq<Service>, calls: seq<Call>, account: string): int
    requires |states| == |calls| + 1 && forall c | c in calls && c.FinalizeCall? :: |c.done| == 3
  {
    if calls == [] then 0
    else
      var n := |calls| - 1;
      TotalReceived(states[..n + 1], calls[..n], account) + Received(states[n], calls[n], account)
  }

  /** Over any run of calls, every account that is nobody's available or reserved sub-account changes by
      exactly what settlements under its reference, fees, deposits, yield and booked mismatches brought or
      took, and by nothing else. */
  lemma {:induction false} ReceivedOverRuns(
      digest: Digest, accounts: set<string>, states: seq<Service>, calls: seq<Call>, account: string)
    requires IsRun(digest, accounts, states, calls) && NoSubAccount(account)
    ensures forall c | c in calls && c.FinalizeCall? :: |c.done| == 3
    ensures Balance(states[|calls|].ledger.snapshots, account) ==
      Balance(states[0].ledger.snapshots, account) + TotalReceived(states, calls, account)
    decreases |calls|
  {
    RunShape(digest, accounts, states, calls);
    if calls != [] {
      var n := |calls|;
      RunPrefix(digest, accounts, states, calls);
      ReceivedOverRuns(digest, accounts, states[..n], calls[..n - 1], account);
      assert StepAt(digest, accounts, states, calls, n - 1);
      CallReceives(digest, accounts, states[n - 1], calls[n - 1], states[n], account);
    }
  }

  /** The accounts this says everything about: all but those ending in `:available` or `:reserved`. */
  lemma NoSubAccountIff(account: string)
    ensures NoSubAccount(account) <==> !HasSuffix(account, ":available") && !HasSuffix(account, ":reserved")
  {
    if HasSuffix(account, ":available") {
      assert account == account[..|account| - 10] + ":available";
    }
    if HasSuffix(account, ":reserved") {
      assert account == account[..|account| - 9] + ":reserved";
    }
    if !NoSubAccount(account) {
      var a: string :| account == a + ":available" || account == a + ":reserved";
      assert (a + ":available")[|a|..] == ":available" && (a + ":reserved")[|a|..] == ":reserved";
    }
  }

  // ---------------------------------------------------------------- booked mismatches

  /** The mismatches that reconciliations of the run booked. */
  ghost function Booked(states: seq<Service>, calls: seq<Call>): int
    requires |states| == |calls| + 1
    decreases |calls|
  {
    if calls == [] then 0
    else
      var n := |calls| - 1;
      Booked(states[..n + 1], calls[..n]) +
      if calls[n].ReconcileCall? && calls[n].posted then Mismatch(states[n].ledger, calls[n].onChainTotal) else 0
  }

  lemma {:induction false} BookedIsReceived(states: seq<Service>, calls: seq<Call>)
    requires |states| == |calls| + 1 && forall c | c in calls && c.FinalizeCall? :: |c.done| == 3
    ensures TotalReceived(states, calls, "system:delta_reserve") == Booked(states, calls)
    ensures TotalReceived(states, calls, "suspense:reconciliation") == -Booked(states, calls)
    decreases |calls|
  {
    if calls != [] {
      var n := |calls| - 1;
      BookedIsReceived(states[..n + 1], calls[..n]);
      OnlyMismatches(states[n], calls[n]);
    }
  }

  lemma SettlementsElsewhere(ref: string)
    ensures "settlement:" + ref != "system:delta_reserve" && "settlement:" + ref != "suspense:reconciliation"
  {
    assert ("settlement:" + ref)[1] == 'e' && "system:delta_reserve"[1] == 'y' && "suspense:reconciliation"[1] == 'u';
  }

  lemma OnlyMismatches(s: Service, call: Call)
    requires call.FinalizeCall? ==> |call.done| == 3
    ensures var booked := if call.ReconcileCall? && call.posted then Mismatch(s.ledger, call.onChainTotal) else 0;
      Received(s, call, "system:delta_reserve") == booked && Received(s, call, "suspense:reconciliation") == -booked
  {
    var reserve, suspense := "system:delta_reserve", "suspense:reconciliation";
    assert reserve[1] == 'y' && suspense[1] == 'u';
    assert "revenue:platform"[1] == 'e' && "revenue:partner"[1] == 'e' && "custodian:inbound"[0] == 'c';
    assert "vault:total_assets"[0] == 'v' && "strategies:yield"[1] == 't';
    if call.FinalizeCall? {
      SettlementsElsewhere(call.settlementRef);
    }
  }

  /** Over any run the delta reserve rises, and suspense falls, by the sum of the booked mismatches, each
      the distance between the user-side snapshot total and the chain total when it was booked. */
  lemma ReserveHoldsMismatches(digest: Digest, accounts: set<string>, states: seq<Service>, calls: seq<Call>)
    requires IsRun(digest, accounts, states, calls)
    ensures Balance(states[|calls|].ledger.snapshots, "system:delta_reserve") ==
      Balance(states[0].ledger.snapshots, "system:delta_reserve") + Booked(states, calls)
    ensures Balance(states[|calls|].ledger.snapshots, "suspense:reconciliation") ==
      Balance(states[0].ledger.snapshots, "suspense:reconciliation") - Booked(states, calls)
  {
    SuspenseIsNoSubAccount();
    ReceivedOverRuns(digest, accounts, states, calls, "system:delta_reserve");
    ReceivedOverRuns(digest, accounts, states, calls, "suspense:reconciliation");
    BookedIsReceived(states, calls);
  }
}
