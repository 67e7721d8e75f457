/**
 What the treasury's calls do to money: the exact change of an account's balances over any run of
 reservations, orders, finalizations (whole, partial or retried) and chain events, when an order can
 settle, and every such run as a run of the ledger machine, so that the two reconcilers agree on it.
 */
module TreasuryMoney {
  import opened Prelude
  import opened Ledger
  import opened HashChain
  import opened Totals
  import opened LedgerService
  import opened TreasuryFlows

  // ---------------------------------------------------------------- one flow, one account

  /** What a posting of flow `f` adds to a ledger account. */
  function Delta(f: FlowEvent, account: string): int {
    var p := PostingOf(f, "");
    (if p.credit == account then p.amount else 0) - (if p.debit == account then p.amount else 0)
  }

  function DeltaOf(flows: seq<FlowEvent>, done: seq<bool>, account: string): int
    requires |flows| == |done|
  {
    if flows == [] then 0
    else (if done[0] then Delta(flows[0], account) else 0) + DeltaOf(flows[1..], done[1..], account)
  }

  lemma RowMoves(digest: Digest, s: State, f: FlowEvent, e: Entry, account: string)
    requires RowFor(digest, s, f, e)
    ensures Balance(Post(s, e).snapshots, account) == Balance(s.snapshots, account) + Delta(f, account)
  {
    assert e.posting == PostingOf(f, "").(metadata := e.posting.metadata);
  }

  /** Any subset of postings moves every account by exactly what went through. */
  lemma {:induction false} SubsetMoves(
      digest: Digest, s: State, flows: seq<FlowEvent>, done: seq<bool>, s': State, account: string)
    requires |flows| == |done| && PostsSubset(digest, s, flows, done, s')
    ensures Balance(s'.snapshots, account) == Balance(s.snapshots, account) + DeltaOf(flows, done, account)
    decreases |flows|
  {
    if flows != [] {
      if done[0] {
        var e :| RowFor(digest, s, flows[0], e) && PostsSubset(digest, Post(s, e), flows[1..], done[1..], s');
        RowMoves(digest, s, flows[0], e, account);
        SubsetMoves(digest, Post(s, e), flows[1..], done[1..], s', account);
      } else {
        SubsetMoves(digest, s, flows[1..], done[1..], s', account);
      }
    }
  }

  lemma SubAccountsDiffer(a: string, b: string)
    ensures a + ":available" != b + ":reserved"
    ensures a + ":available" == b + ":available" ==> a == b
    ensures a + ":reserved" == b + ":reserved" ==> a == b
  {
    var x, y := a + ":available", b + ":reserved";
    assert x[|x| - 1] == 'e' && y[|y| - 1] == 'd';
    assert (a + ":available")[..|a|] == a && (b + ":available")[..|b|] == b;
    assert (a + ":reserved")[..|a|] == a && (b + ":reserved")[..|b|] == b;
  }

  /** `account` is nobody's available or reserved sub-account. */
  ghost predicate NoSubAccount(account: string) {
    forall a: string :: account != a + ":available" && account != a + ":reserved"
  }

  lemma EndsOtherwise(account: string)
    requires account != "" && account[|account| - 1] != 'e' && account[|account| - 1] != 'd'
    ensures NoSubAccount(account)
  {
    forall a: string ensures account != a + ":available" && account != a + ":reserved" {
      var x, y := a + ":available", a + ":reserved";
      assert x[|x| - 1] == 'e' && y[|y| - 1] == 'd';
    }
  }

  lemma FixedAccountsAreNoSubAccounts()
    ensures NoSubAccount("revenue:platform") && NoSubAccount("revenue:partner")
    ensures NoSubAccount("strategies:yield") && NoSubAccount("vault:total_assets")
  {
    EndsOtherwise("revenue:platform");
    EndsOtherwise("revenue:partner");
    EndsOtherwise("vault:total_assets");
    EndsInYield();
  }

  lemma EndsInYield()
    ensures NoSubAccount("strategies:yield") && NoSubAccount("custodian:inbound")
  {
    var yield_, inbound := "strategies:yield", "custodian:inbound";
    assert yield_[14] == 'l' && inbound[15] == 'n';
    forall a: string
      ensures yield_ != a + ":available" && yield_ != a + ":reserved"
      ensures inbound != a + ":available" && inbound != a + ":reserved"
    {
      var x, y := a + ":available", a + ":reserved";
      assert x[|x| - 1] == 'e' && y[|y| - 2] == 'e' && y[|y| - 1] == 'd';
    }
  }

  lemma SuspenseIsNoSubAccount()
    ensures NoSubAccount("suspense:reconciliation") && NoSubAccount("system:delta_reserve")
  {
    EndsOtherwise("suspense:reconciliation");
    var reserve := "system:delta_reserve";
    assert reserve[18] == 'v' && reserve[19] == 'e';
    forall a: string ensures reserve != a + ":available" && reserve != a + ":reserved" {
      var x, y := a + ":available", a + ":reserved";
      assert x[|x| - 2] == 'l' && y[|y| - 1] == 'd';
    }
  }

  // ---------------------------------------------------------------- finalization

  function Taken(flows: seq<FlowEvent>, done: seq<bool>): int
    requires |flows| == |done|
  {
    if flows == [] then 0
    else (if done[0] then AmountOf(flows[0]) else 0) + Taken(flows[1..], done[1..])
  }

  /** A settlement under reference `ref` credits this very account. */
  predicate SettlesInto(ref: string, account: string) {
    "settlement:" + ref == account
  }

  lemma FeeDelta(f: FlowEvent, accountId: string, a: string)
    requires f.PlatformFeeTaken? || f.PartnerFeeTaken?
    requires f.accountId == accountId
    ensures Delta(f, a + ":available") == 0
    ensures Delta(f, a + ":reserved") == if a == accountId then -f.fee else 0
  {
    FixedAccountsAreNoSubAccounts();
    SubAccountsDiffer(a, accountId);
  }

  lemma SettlementDelta(f: FlowEvent, accountId: string, a: string)
    requires f.OrderSettled? && f.accountId == accountId
    ensures Delta(f, a + ":available") == if SettlesInto(f.settlementRef, a + ":available") then f.sendAmount else 0
    ensures Delta(f, a + ":reserved") ==
      (if SettlesInto(f.settlementRef, a + ":reserved") then f.sendAmount else 0) - (if a == accountId then f.sendAmount else 0)
  {
    SubAccountsDiffer(a, accountId);
  }

  /** The exact change a finalization makes to both sub-accounts of any account `a`. */
  lemma FinalDelta(order: Order, ref: string, platformFee: int, partnerFee: int, done: seq<bool>, a: string)
    requires |done| == 3
    ensures var flows := FinalFlows(order, ref, platformFee, partnerFee);
      && DeltaOf(flows, done, a + ":available") ==
           (if done[0] && SettlesInto(ref, a + ":available") then order.sendAmount else 0)
      && DeltaOf(flows, done, a + ":reserved") ==
           (if done[0] && SettlesInto(ref, a + ":reserved") then order.sendAmount else 0)
           - (if a == order.accountId then Taken(flows, done) else 0)
  {
    var flows := FinalFlows(order, ref, platformFee, partnerFee);
    SettlementDelta(flows[0], order.accountId, a);
    FeeDelta(flows[1], order.accountId, a);
    FeeDelta(flows[2], order.accountId, a);
    ThreeDeltas(flows, done, a + ":available");
    ThreeDeltas(flows, done, a + ":reserved");
    ThreeTaken(flows, done);
  }

  lemma ThreeDeltas(flows: seq<FlowEvent>, done: seq<bool>, account: string)
    requires |flows| == |done| == 3
    ensures DeltaOf(flows, done, account) == (if done[0] then Delta(flows[0], account) else 0)
      + (if done[1] then Delta(flows[1], account) else 0) + (if done[2] then Delta(flows[2], account) else 0)
  {
    assert flows[1..][1..] == [flows[2]] && done[1..][1..] == [done[2]];
    assert DeltaOf([flows[2]], [done[2]], account) == if done[2] then Delta(flows[2], account) else 0;
  }

  lemma ThreeTaken(flows: seq<FlowEvent>, done: seq<bool>)
    requires |flows| == |done| == 3
    ensures Taken(flows, done) == (if done[0] then AmountOf(flows[0]) else 0)
      + (if done[1] then AmountOf(flows[1]) else 0) + (if done[2] then AmountOf(flows[2]) else 0)
  {
    assert flows[1..][1..] == [flows[2]] && done[1..][1..] == [done[2]];
    assert Taken([flows[2]], [done[2]]) == if done[2] then AmountOf(flows[2]) else 0;
  }

  /** Fees are charged on top of the settled amount. Reserving an order's send amount and then
      finalizing it, with any subset of the three postings going through, lowers the available
      balance by the send amount; and if all go through it leaves the reserved balance lower than
      before the reservation by exactly the two fees. The one exception is a settlement reference
      that makes the settlement's own account one of the two. */
  lemma FinalizationOverdrawsByFees(
      digest: Digest, s: State, order: Order, reservationId: string, reserveRow: Entry,
      ref: string, platformFee: int, partnerFee: int, done: seq<bool>, s': State)
    requires RowFor(digest, s, FundsReserved(order.accountId, order.sendAmount, reservationId), reserveRow)
    requires |done| == 3
    requires PostsSubset(digest, Post(s, reserveRow), FinalFlows(order, ref, platformFee, partnerFee), done, s')
    ensures var acc := order.accountId;
      && Balance(s'.snapshots, acc + ":available") == Balance(s.snapshots, acc + ":available") - order.sendAmount
           + (if done[0] && SettlesInto(ref, acc + ":available") then order.sendAmount else 0)
      && Balance(s'.snapshots, acc + ":reserved") == Balance(s.snapshots, acc + ":reserved")
           + (if done[0] && !SettlesInto(ref, acc + ":reserved") then 0 else order.sendAmount)
           - (if done[1] then platformFee else 0) - (if done[2] then partnerFee else 0)
  {
    var acc := order.accountId;
    ReserveMoves(digest, s, acc, order.sendAmount, reservationId, reserveRow);
    FinalMoves(digest, Post(s, reserveRow), order, ref, platformFee, partnerFee, done, s');
  }

  lemma ReserveMoves(digest: Digest, s: State, acc: string, amount: int, reservationId: string, e: Entry)
    requires RowFor(digest, s, FundsReserved(acc, amount, reservationId), e)
    ensures Balance(Post(s, e).snapshots, acc + ":available") == Balance(s.snapshots, acc + ":available") - amount
    ensures Balance(Post(s, e).snapshots, acc + ":reserved") == Balance(s.snapshots, acc + ":reserved") + amount
  {
    SubAccountsDiffer(acc, acc);
    RowMoves(digest, s, FundsReserved(acc, amount, reservationId), e, acc + ":available");
    RowMoves(digest, s, FundsReserved(acc, amount, reservationId), e, acc + ":reserved");
  }

  lemma FinalMoves(
      digest: Digest, s: State, order: Order, ref: string, platformFee: int, partnerFee: int, done: seq<bool>, s': State)
    requires |done| == 3 && PostsSubset(digest, s, FinalFlows(order, ref, platformFee, partnerFee), done, s')
    ensures var acc := order.accountId;
      && Balance(s'.snapshots, acc + ":available") == Balance(s.snapshots, acc + ":available")
           + (if done[0] && SettlesInto(ref, acc + ":available") then order.sendAmount else 0)
      && Balance(s'.snapshots, acc + ":reserved") == Balance(s.snapshots, acc + ":reserved")
           - (if done[0] && !SettlesInto(ref, acc + ":reserved") then order.sendAmount else 0)
           - (if done[1] then platformFee else 0) - (if done[2] then partnerFee else 0)
  {
    var acc, flows := order.accountId, FinalFlows(order, ref, platformFee, partnerFee);
    SubsetMoves(digest, s, flows, done, s', acc + ":available");
    SubsetMoves(digest, s, flows, done, s', acc + ":reserved");
    FinalDelta(order, ref, platformFee, partnerFee, done, acc);
    FinalTaken(order, ref, platformFee, partnerFee, done);
  }

  lemma FinalTaken(order: Order, ref: string, platformFee: int, partnerFee: int, done: seq<bool>)
    requires |done| == 3
    ensures Taken(FinalFlows(order, ref, platformFee, partnerFee), done) ==
      (if done[0] then order.sendAmount else 0) + (if done[1] then platformFee else 0) + (if done[2] then partnerFee else 0)
  {
    ThreeTaken(FinalFlows(order, ref, platformFee, partnerFee), done);
  }

  // ---------------------------------------------------------------- what an account holds, over runs

  /** An account's money, available and reserved together. */
  function Held(s: State, a: string): int {
    Balance(s.snapshots, a + ":available") + Balance(s.snapshots, a + ":reserved")
  }

  /** What a call adds to what account `a` holds. */
  function CallEffect(s: Service, call: Call, a: string): int
    requires call.FinalizeCall? ==> |call.done| == 3
  {
    match call
    case FinalizeCall(orderId, ref, platformFee, partnerFee, chainOk, done, _) =>
      if orderId in s.orders && chainOk then
        var order := s.orders[orderId];
        (if done[0] && (SettlesInto(ref, a + ":available") || SettlesInto(ref, a + ":reserved")) then order.sendAmount else 0)
        - (if a == order.accountId then Taken(FinalFlows(order, ref, platformFee, partnerFee), done) else 0)
      else 0
    case EventCall(event, posted) => if event.DepositProcessed? && posted && event.account == a then event.assets else 0
    case _ => 0
  }

  lemma ReserveKeepsHeld(
      digest: Digest, s: State, accountId: string, amount: int, reservationId: string, e: Entry, a: string)
    requires RowFor(digest, s, FundsReserved(accountId, amount, reservationId), e)
    ensures Held(Post(s, e), a) == Held(s, a)
    ensures UserTotal(Post(s, e).snapshots) == UserTotal(s.snapshots)
  {
    var f := FundsReserved(accountId, amount, reservationId);
    RowMoves(digest, s, f, e, a + ":available");
    RowMoves(digest, s, f, e, a + ":reserved");
    SubAccountsDiffer(accountId, a);
    SubAccountsDiffer(a, accountId);
    PostMoves(s, e, UserWeight);
    SubAccountSides(accountId);
    assert (-amount) * UserWeight(e.posting.debit) + amount * UserWeight(e.posting.credit) == 0;
  }

  /** The RESERVE row a call posted, if it changed the ledger. */
  lemma ReserveRowOf(digest: Digest, accounts: set<string>, s: Service, call: Call, s': Service)
    returns (accountId: string, amount: int, reservationId: string, e: Entry)
    requires CallStep(digest, accounts, s, call, s') && s'.ledger != s.ledger
    requires call.ReserveCall? || call.QuoteCall? || call.OrderCall?
    ensures RowFor(digest, s.ledger, FundsReserved(accountId, amount, reservationId), e) && s'.ledger == Post(s.ledger, e)
  {
    accountId, amount, reservationId, e :|
      RowFor(digest, s.ledger, FundsReserved(accountId, amount, reservationId), e) && s'.ledger == Post(s.ledger, e);
  }

  lemma EventMoves(digest: Digest, s: Service, event: FlowEvent, posted: bool, s': Service, a: string)
    requires EventStep(digest, s, event, posted, s')
    ensures Held(s'.ledger, a) == Held(s.ledger, a) + if event.DepositProcessed? && posted && event.account == a then event.assets else 0
  {
    if posted {
      var e :| RowFor(digest, s.ledger, event, e) && s'.ledger == Post(s.ledger, e);
      RowMoves(digest, s.ledger, event, e, a + ":available");
      RowMoves(digest, s.ledger, event, e, a + ":reserved");
      FixedAccountsAreNoSubAccounts();
      EndsInYield();
      if event.DepositProcessed? {
        SubAccountsDiffer(event.account, a);
      }
    }
  }

  /** Sweep rows move no snapshot and count in no total. */
  lemma {:induction false} SweepsMoveNothing(digest: Digest, s: State, steps: seq<Step>, s': State)
    requires Leads(digest, s, steps, s') && OnlySweeps(steps)
    ensures s'.snapshots == s.snapshots && s'.pending == s.pending && EntryTotal(s'.entries) == EntryTotal(s.entries)
    decreases |steps|
  {
    if steps != [] {
      assert steps[0] in steps && OnlySweeps(steps[1..]);
      var s1 := Do(digest, s, steps[0]);
      assert s1.entries[..|s.entries|] == s.entries;
      SweepsMoveNothing(digest, s1, steps[1..], s');
    }
  }

  lemma AdjustmentDelta(delta: int, reference: string, account: string)
    ensures Delta(DeltaAdjusted(delta, reference), account) ==
      (if account == "system:delta_reserve" then delta else 0) - (if account == "suspense:reconciliation" then delta else 0)
  {
  }

  /** A booked delta moves nothing any account holds, nor the user-side total. */
  lemma ReconcileMovesNothing(
      digest: Digest, s: State, onChainTotal: int, reference: string, posted: bool, s': State, a: string)
    requires Reconciled(digest, s, onChainTotal, reference, posted, s')
    ensures Held(s', a) == Held(s, a) && UserTotal(s'.snapshots) == UserTotal(s.snapshots)
  {
    if posted {
      var f := DeltaAdjusted(Abs(Judge(UserTotal(s.snapshots), onChainTotal).delta), reference);
      var e :| RowFor(digest, s, f, e) && s' == Post(s, e);
      RowMoves(digest, s, f, e, a + ":available");
      RowMoves(digest, s, f, e, a + ":reserved");
      AdjustmentDelta(f.delta, reference, a + ":available");
      AdjustmentDelta(f.delta, reference, a + ":reserved");
      SuspenseIsNoSubAccount();
      AdjustmentInvisible(s, e, f.delta, reference);
    }
  }

  lemma FinalizeMoves(
      digest: Digest, s: Service, orderId: string, ref: string, platformFee: int, partnerFee: int, chainOk: bool,
      done: seq<bool>, resp: Result<(), Error>, s': Service, a: string)
    requires FinalizeStep(digest, s, orderId, ref, platformFee, partnerFee, chainOk, done, resp, s')
    ensures Held(s'.ledger, a) == Held(s.ledger, a) +
      CallEffect(s, FinalizeCall(orderId, ref, platformFee, partnerFee, chainOk, done, resp), a)
  {
    if orderId in s.orders && chainOk {
      var flows := FinalFlows(s.orders[orderId], ref, platformFee, partnerFee);
      SubsetMoves(digest, s.ledger, flows, done, s'.ledger, a + ":available");
      SubsetMoves(digest, s.ledger, flows, done, s'.ledger, a + ":reserved");
      FinalDelta(s.orders[orderId], ref, platformFee, partnerFee, done, a);
      SubAccountsDiffer(a, a);
    }
  }

  lemma CallMovesHeld(digest: Digest, accounts: set<string>, s: Service, call: Call, s': Service, a: string)
    requires CallStep(digest, accounts, s, call, s')
    ensures Held(s'.ledger, a) == Held(s.ledger, a) + CallEffect(s, call, a)
  {
    match call
    case FinalizeCall(orderId, ref, platformFee, partnerFee, chainOk, done, resp) =>
      FinalizeMoves(digest, s, orderId, ref, platformFee, partnerFee, chainOk, done, resp, s', a);
    case EventCall(event, posted) => EventMoves(digest, s, event, posted, s', a);
    case SweepCall =>
      var steps :| OnlySweeps(steps) && Leads(digest, s.ledger, steps, s'.ledger);
      SweepsMoveNothing(digest, s.ledger, steps, s'.ledger);
    case ReconcileCall(onChainTotal, reference, posted) =>
      ReconcileMovesNothing(digest, s.ledger, onChainTotal, reference, posted, s'.ledger, a);
    case _ =>
      if s'.ledger != s.ledger {
        var accountId, amount, reservationId, e := ReserveRowOf(digest, accounts, s, call, s');
        ReserveKeepsHeld(digest, s.ledger, accountId, amount, reservationId, e, a);
      }
  }

  function TotalEffect(states: seq<Service>, calls: seq<Call>, a: string): int
    requires |states| == |calls| + 1 && forall c | c in calls && c.FinalizeCall? :: |c.done| == 3
  {
    if calls == [] then 0
    else
      var n := |calls| - 1;
      TotalEffect(states[..n + 1], calls[..n], a) + CallEffect(states[n], calls[n], a)
  }

  lemma RunShape(digest: Digest, accounts: set<string>, states: seq<Service>, calls: seq<Call>)
    requires IsRun(digest, accounts, states, calls)
    ensures forall c | c in calls && c.FinalizeCall? :: |c.done| == 3
  {
    forall i | 0 <= i < |calls| && calls[i].FinalizeCall? ensures |calls[i].done| == 3 {
      assert StepAt(digest, accounts, states, calls, i);
    }
  }

  /** Over any run, what an account holds changes by exactly its deposits, less what its
      finalizations took: each retry of a partly failed finalization takes again. */
  lemma {:induction false} HeldOverRuns(
      digest: Digest, accounts: set<string>, states: seq<Service>, calls: seq<Call>, a: string)
    requires IsRun(digest, accounts, states, calls)
    ensures forall c | c in calls && c.FinalizeCall? :: |c.done| == 3
    ensures Held(states[|calls|].ledger, a) == Held(states[0].ledger, a) + TotalEffect(states, calls, a)
    decreases |calls|
  {
    RunShape(digest, accounts, states, calls);
    if calls != [] {
      var n := |calls|;
      RunPrefix(digest, accounts, states, calls);
      HeldOverRuns(digest, accounts, states[..n], calls[..n - 1], a);
      assert StepAt(digest, accounts, states, calls, n - 1);
      CallMovesHeld(digest, accounts, states[n - 1], calls[n - 1], states[n], a);
    }
  }

  predicate MovesNoUserMoney(call: Call) {
    !call.FinalizeCall? && !call.EventCall?
  }

  lemma QuietCallKeeps(digest: Digest, accounts: set<string>, s: Service, call: Call, s': Service, a: string)
    requires CallStep(digest, accounts, s, call, s') && MovesNoUserMoney(call)
    ensures Held(s'.ledger, a) == Held(s.ledger, a)
    ensures UserTotal(s'.ledger.snapshots) == UserTotal(s.ledger.snapshots)
  {
    match call
    case SweepCall =>
      var steps :| OnlySweeps(steps) && Leads(digest, s.ledger, steps, s'.ledger);
      SweepsMoveNothing(digest, s.ledger, steps, s'.ledger);
    case ReconcileCall(onChainTotal, reference, posted) =>
      ReconcileMovesNothing(digest, s.ledger, onChainTotal, reference, posted, s'.ledger, a);
    case _ =>
      if s'.ledger != s.ledger {
        var accountId, amount, reservationId, e := ReserveRowOf(digest, accounts, s, call, s');
        ReserveKeepsHeld(digest, s.ledger, accountId, amount, reservationId, e, a);
      }
  }

  /** Reserving, quoting, ordering, sweeping and reconciling, with any retries, never change what an
      account holds in all, nor the user-side total. */
  lemma {:induction false} ReservationsKeepUserMoney(
      digest: Digest, accounts: set<string>, states: seq<Service>, calls: seq<Call>, a: string)
    requires IsRun(digest, accounts, states, calls) && forall c | c in calls :: MovesNoUserMoney(c)
    ensures Held(states[|calls|].ledger, a) == Held(states[0].ledger, a)
    ensures UserTotal(states[|calls|].ledger.snapshots) == UserTotal(states[0].ledger.snapshots)
    decreases |calls|
  {
    if calls != [] {
      var n := |calls|;
      RunPrefix(digest, accounts, states, calls);
      ReservationsKeepUserMoney(digest, accounts, states[..n], calls[..n - 1], a);
      assert StepAt(digest, accounts, states, calls, n - 1);
      QuietCallKeeps(digest, accounts, states[n - 1], calls[n - 1], states[n], a);
    }
  }

  // ---------------------------------------------------------------- retried finalizations

  /** An id longer than every committed one. */
  function UnusedId(entries: seq<Entry>): (id: string)
    ensures forall j | 0 <= j < |entries| :: |entries[j].id| < |id|
  {
    if entries == [] then "x" else UnusedId(entries[..|entries| - 1]) + entries[|entries| - 1].id + "x"
  }

  /** On a healthy log any flow of a positive amount has a row that goes through. */
  lemma CanPost(digest: Digest, s: State, f: FlowEvent) returns (e: Entry)
    requires Healthy(digest, s.entries) && AmountOf(f) > 0
    ensures RowFor(digest, s, f, e) && Healthy(digest, Post(s, e).entries)
  {
    var p, id := PostingOf(f, ""), UnusedId(s.entries);
    assert FreshId(s.entries, id);
    var h := SomePrev(s.entries, p.debit);
    e := MakeEntry(digest, p, id, h, 0, 0);
    FreshIdNoConflict(digest, s.entries, p, id, 0, 0);
    InsertKeepsHealthy(digest, s.entries, e);
  }

  lemma SomePrev(entries: seq<Entry>, account: string) returns (h: string)
    ensures PrevOf(entries, account, h)
  {
    if j :| 0 <= j < |entries| && Touches(entries[j], account) {
      var i := LatestExists(entries, account, j);
      h := entries[i].hash;
    } else {
      h := ZERO_HASH;
    }
  }

  /** Any choice among the postings of positive amount can be the one that goes through. */
  lemma {:induction false} CanPostSubset(digest: Digest, s: State, flows: seq<FlowEvent>, done: seq<bool>) returns (s': State)
    requires Healthy(digest, s.entries) && |flows| == |done|
    requires forall k | 0 <= k < |flows| && done[k] :: AmountOf(flows[k]) > 0
    ensures PostsSubset(digest, s, flows, done, s') && Healthy(digest, s'.entries)
    decreases |flows|
  {
    if flows == [] {
      s' := s;
    } else if done[0] {
      var e := CanPost(digest, s, flows[0]);
      s' := CanPostSubset(digest, Post(s, e), flows[1..], done[1..]);
    } else {
      s' := CanPostSubset(digest, s, flows[1..], done[1..]);
    }
  }

  /** The finalization of `orderId` in which everything but the partner fee goes through. */
  function PartlyFinalized(orderId: string, ref: string, platformFee: int, partnerFee: int): Call {
    FinalizeCall(orderId, ref, platformFee, partnerFee, true, [true, true, false], Err(FinalizationIncomplete))
  }

  /** Finalizing an order again and again while the partner fee is refused pays settlement and platform
      fee each time: from any healthy state, any number of such finalizations is a run, and that is
      what it takes from the account. */
  lemma {:induction false} RetriedFinalizationPaysAgain(
      digest: Digest, accounts: set<string>, s: Service, orderId: string, ref: string, platformFee: int,
      partnerFee: int, n: nat)
    returns (states: seq<Service>, calls: seq<Call>)
    requires Healthy(digest, s.ledger.entries) && orderId in s.orders
    requires s.orders[orderId].sendAmount > 0 && platformFee > 0
    requires var acc := s.orders[orderId].accountId;
      !SettlesInto(ref, acc + ":available") && !SettlesInto(ref, acc + ":reserved")
    ensures IsRun(digest, accounts, states, calls) && states[0] == s
    ensures calls == seq(n, _ => PartlyFinalized(orderId, ref, platformFee, partnerFee))
    ensures states[n].orders == s.orders && Healthy(digest, states[n].ledger.entries)
    ensures var order := s.orders[orderId];
      Held(states[n].ledger, order.accountId) == Held(s.ledger, order.accountId) - n * (order.sendAmount + platformFee)
  {
    if n == 0 {
      states, calls := [s], [];
    } else {
      states, calls := RetriedFinalizationPaysAgain(digest, accounts, s, orderId, ref, platformFee, partnerFee, n - 1);
      var next := PayAgain(digest, states[n - 1], orderId, ref, platformFee, partnerFee);
      var call := PartlyFinalized(orderId, ref, platformFee, partnerFee);
      OneMoreCall(digest, accounts, states, calls, call, next);
      states, calls := states + [next], calls + [call];
    }
  }

  lemma OneMoreCall(
      digest: Digest, accounts: set<string>, states: seq<Service>, calls: seq<Call>, call: Call, next: Service)
    requires IsRun(digest, accounts, states, calls) && CallStep(digest, accounts, states[|calls|], call, next)
    ensures IsRun(digest, accounts, states + [next], calls + [call])
  {
    var all, every := states + [next], calls + [call];
    forall i: nat | i < |every| ensures StepAt(digest, accounts, all, every, i) {
      if i < |calls| {
        assert StepAt(digest, accounts, states, calls, i);
      }
    }
  }

  lemma PayAgain(digest: Digest, s: Service, orderId: string, ref: string, platformFee: int, partnerFee: int)
    returns (s': Service)
    requires Healthy(digest, s.ledger.entries) && orderId in s.orders
    requires s.orders[orderId].sendAmount > 0 && platformFee > 0
    requires var acc := s.orders[orderId].accountId;
      !SettlesInto(ref, acc + ":available") && !SettlesInto(ref, acc + ":reserved")
    ensures FinalizeStep(digest, s, orderId, ref, platformFee, partnerFee, true, [true, true, false],
                         Err(FinalizationIncomplete), s')
    ensures s'.orders == s.orders && Healthy(digest, s'.ledger.entries)
    ensures var order := s.orders[orderId];
      Held(s'.ledger, order.accountId) == Held(s.ledger, order.accountId) - (order.sendAmount + platformFee)
  {
    var flows, done := FinalFlows(s.orders[orderId], ref, platformFee, partnerFee), [true, true, false];
    var ledger := CanPostSubset(digest, s.ledger, flows, done);
    s' := s.(ledger := ledger);
    FinalizeMoves(digest, s, orderId, ref, platformFee, partnerFee, true, done, Err(FinalizationIncomplete), s',
                  s.orders[orderId].accountId);
    FinalTaken(s.orders[orderId], ref, platformFee, partnerFee, done);
  }

  /** Such a state is reached from a fresh service: a quote, then an order on it. */
  lemma OrderedFromFresh(digest: Digest, key: string, quoteKey: string, quote: Quote, now: int)
    returns (states: seq<Service>, calls: seq<Call>)
    requires Injective(digest) && quote.sendAmount > 0 && quote.expiresAt >= now
    requires ReserveKey(key) != quoteKey && ReserveKey(key) != quote.quoteId
    ensures IsRun(digest, {quote.accountId}, states, calls) && |calls| == 2
    ensures calls[0].QuoteCall? && calls[1].OrderCall?
    ensures states[0] == Service(map[], map[], Initial())
    ensures Healthy(digest, states[2].ledger.entries) && states[2].orders.Keys == {quote.quoteId}
    ensures var order := states[2].orders[quote.quoteId];
      order.accountId == quote.accountId && order.sendAmount == quote.sendAmount
  {
    var acc, id := quote.accountId, quote.quoteId;
    var s0, quoted := Service(map[], map[], Initial()), CachedQuote(quote);
    var s1 := s0.(cache := map[quoteKey := quoted][id := quoted]);
    var e := CanPost(digest, s1.ledger, FundsReserved(acc, quote.sendAmount, "res_1"));
    var answer := CachedReservation(Reserved("res_1", acc, quote.sendAmount, e.id));
    var mid := s1.(cache := s1.cache[ReserveKey(key) := answer], ledger := Post(s1.ledger, e));
    var order := Order(id, acc, "res_1", InTransit, quote.sendAmount, quote.receiveAmount, quote.txFee, 0, quote.fxFee);
    var s2 := mid.(orders := map[id := order]);
    states, calls := [s0, s1, s2], [QuoteCall(quoteKey, Ok(quoted)), OrderCall(key, id, acc, now, Ok(order))];
    assert ReserveStep(digest, {acc}, s1, ReserveKey(key), acc, quote.sendAmount, Ok(answer), mid);
    assert CallStep(digest, {acc}, s0, calls[0], s1);
    assert CallStep(digest, {acc}, s1, calls[1], s2);
  }

  lemma RunsJoin(
      digest: Digest, accounts: set<string>, states: seq<Service>, calls: seq<Call>, more: seq<Service>, then_: seq<Call>)
    requires IsRun(digest, accounts, states, calls) && IsRun(digest, accounts, more, then_)
    requires more[0] == states[|calls|]
    ensures IsRun(digest, accounts, states + more[1..], calls + then_)
    ensures forall i | 0 <= i < |more| :: (states + more[1..])[|calls| + i] == more[i]
  {
    var all, every := states + more[1..], calls + then_;
    forall i: nat | i < |every| ensures StepAt(digest, accounts, all, every, i) {
      if i < |calls| {
        assert StepAt(digest, accounts, states, calls, i);
      } else {
        assert StepAt(digest, accounts, more, then_, i - |calls|);
      }
    }
  }

  /** A whole run from a fresh service: a quote, an order, and `n` finalizations of it whose partner fee
      is refused, each of which takes settlement and platform fee. */
  lemma RetriedFinalizationRun(
      digest: Digest, key: string, quoteKey: string, quote: Quote, now: int, ref: string, platformFee: int,
      partnerFee: int, n: nat)
    returns (states: seq<Service>, calls: seq<Call>)
    requires Injective(digest) && quote.sendAmount > 0 && quote.expiresAt >= now && platformFee > 0
    requires ReserveKey(key) != quoteKey && ReserveKey(key) != quote.quoteId
    requires !SettlesInto(ref, quote.accountId + ":available") && !SettlesInto(ref, quote.accountId + ":reserved")
    ensures IsRun(digest, {quote.accountId}, states, calls) && states[0] == Service(map[], map[], Initial())
    ensures |calls| == 2 + n && calls[0].QuoteCall? && calls[1].OrderCall?
    ensures forall i | 2 <= i < 2 + n :: calls[i] == PartlyFinalized(quote.quoteId, ref, platformFee, partnerFee)
    ensures Held(states[2 + n].ledger, quote.accountId) ==
      Held(states[2].ledger, quote.accountId) - n * (quote.sendAmount + platformFee)
  {
    var accounts := {quote.accountId};
    var first, ordering := OrderedFromFresh(digest, key, quoteKey, quote, now);
    var more, retries := RetriedFinalizationPaysAgain(
      digest, accounts, first[2], quote.quoteId, ref, platformFee, partnerFee, n);
    RunsJoin(digest, accounts, first, ordering, more, retries);
    states, calls := first + more[1..], ordering + retries;
    assert states[2 + n] == more[n];
  }

  // ---------------------------------------------------------------- settling

  ghost predicate NoPartnerFees(s: Service) {
    forall id | id in s.orders :: s.orders[id].partnerFee == 0
  }

  /** Orders are stored with a partner fee of zero. */
  lemma {:induction false} OrdersStoreNoPartnerFee(
      digest: Digest, accounts: set<string>, states: seq<Service>, calls: seq<Call>, i: nat)
    requires IsRun(digest, accounts, states, calls) && states[0].orders == map[] && i <= |calls|
    ensures NoPartnerFees(states[i])
    decreases i
  {
    if i > 0 {
      OrdersStoreNoPartnerFee(digest, accounts, states, calls, i - 1);
      assert StepAt(digest, accounts, states, calls, i - 1);
    }
  }

  /** A posting of no positive amount never goes through, so an order finalized with a zero fee never
      settles; and an order finalized with the partner fee stored in it always is such an order. */
  lemma NeverSettlesOnStoredFee(digest: Digest, accounts: set<string>, states: seq<Service>, calls: seq<Call>, i: nat)
    requires IsRun(digest, accounts, states, calls) && states[0].orders == map[] && i < |calls|
    requires calls[i].FinalizeCall? && calls[i].orderId in states[i].orders
    requires calls[i].partnerFee == states[i].orders[calls[i].orderId].partnerFee
    ensures calls[i].finalized.Err? && states[i + 1].orders == states[i].orders
  {
    OrdersStoreNoPartnerFee(digest, accounts, states, calls, i);
    var c, s, s' := calls[i], states[i], states[i + 1];
    assert StepAt(digest, accounts, states, calls, i);
    if c.chainOk {
      var flows := FinalFlows(s.orders[c.orderId], c.settlementRef, c.platformFee, c.partnerFee);
      if c.done[2] {
        PostedIsPositive(digest, s.ledger, flows, c.done, s'.ledger, 2);
      }
    }
  }

  lemma RowIsPositive(digest: Digest, s: State, f: FlowEvent, e: Entry)
    requires RowFor(digest, s, f, e)
    ensures AmountOf(f) > 0
  {
    assert e.posting.amount == PostingOf(f, "").amount;
  }

  /** A posting that went through is of a positive amount. */
  lemma {:induction false} PostedIsPositive(
      digest: Digest, s: State, flows: seq<FlowEvent>, done: seq<bool>, s': State, k: nat)
    requires |flows| == |done| && PostsSubset(digest, s, flows, done, s') && k < |flows| && done[k]
    ensures AmountOf(flows[k]) > 0
    decreases |flows|
  {
    var mid := s;
    if done[0] {
      var e :| RowFor(digest, s, flows[0], e) && PostsSubset(digest, Post(s, e), flows[1..], done[1..], s');
      RowIsPositive(digest, s, flows[0], e);
      mid := Post(s, e);
    }
    if k > 0 {
      PostedIsPositive(digest, mid, flows[1..], done[1..], s', k - 1);
    }
  }

  // ---------------------------------------------------------------- service runs as ledger runs

  predicate AllClean(flows: set<FlowEvent>) {
    forall f | f in flows :: CleanFlow(f)
  }

  /** Clean flows lead the ledger machine from `s` to `s'`. */
  ghost predicate CleanFlowsLead(digest: Digest, s: State, s': State) {
    exists steps, flows :: Leads(digest, s, steps, s') && FromFlows(steps, flows) && AllClean(flows)
  }

  lemma CleanReflexive(digest: Digest, s: State)
    ensures CleanFlowsLead(digest, s, s)
  {
    assert Leads(digest, s, [], s) && FromFlows([], {}) && AllClean({});
  }

  lemma CleanTransitive(digest: Digest, s: State, mid: State, s': State)
    requires CleanFlowsLead(digest, s, mid) && CleanFlowsLead(digest, mid, s')
    ensures CleanFlowsLead(digest, s, s')
  {
    var first, f :| Leads(digest, s, first, mid) && FromFlows(first, f) && AllClean(f);
    var second, g :| Leads(digest, mid, second, s') && FromFlows(second, g) && AllClean(g);
    LeadsConcat(digest, s, first, mid, second, s');
    assert FromFlows(first + second, f + g) && AllClean(f + g);
  }

  /** A posted row is a begin and a commit of the ledger machine. */
  lemma RowIsARun(digest: Digest, s: State, f: FlowEvent, e: Entry)
    requires RowFor(digest, s, f, e) && CleanFlow(f) && s.pending == map[]
    ensures CleanFlowsLead(digest, s, Post(s, e)) && Post(s, e).pending == map[]
  {
    var begin := Begin(0, e.posting, e.id, e.prevHash, e.ts, e.createdAt);
    assert e == MakeEntry(digest, e.posting, e.id, e.prevHash, e.ts, e.createdAt);
    PostIsARun(digest, s, 0, e.posting, e.id, e.prevHash, e.ts, e.createdAt);
    assert FromFlows([begin, Commit(0)], {f}) by {
      assert begin.posting == PostingOf(f, begin.posting.metadata);
    }
    assert AllClean({f});
  }

  lemma {:induction false} SubsetIsARun(digest: Digest, s: State, flows: seq<FlowEvent>, done: seq<bool>, s': State)
    requires |flows| == |done| && PostsSubset(digest, s, flows, done, s') && s.pending == map[]
    requires forall f | f in flows :: CleanFlow(f)
    ensures CleanFlowsLead(digest, s, s') && s'.pending == map[]
    decreases |flows|
  {
    if flows == [] {
      CleanReflexive(digest, s);
    } else if done[0] {
      var e :| RowFor(digest, s, flows[0], e) && PostsSubset(digest, Post(s, e), flows[1..], done[1..], s');
      RowIsARun(digest, s, flows[0], e);
      SubsetIsARun(digest, Post(s, e), flows[1..], done[1..], s');
      CleanTransitive(digest, s, Post(s, e), s');
    } else {
      SubsetIsARun(digest, s, flows[1..], done[1..], s');
    }
  }

  /** What a caller can check before the call. */
  predicate CleanCall(s: Service, call: Call) {
    match call
    case FinalizeCall(orderId, ref, _, _, _, _, _) =>
      orderId in s.orders ==> UserAccountId(s.orders[orderId].accountId) && PlainSettlementRef(ref)
    case EventCall(event, _) => CleanFlow(event)
    case _ => true
  }

  lemma SweepsAreARun(digest: Digest, s: State, s': State)
    requires SweepsLead(digest, s, s')
    ensures CleanFlowsLead(digest, s, s') && s'.pending == s.pending
  {
    var steps :| OnlySweeps(steps) && Leads(digest, s, steps, s');
    SweepsMoveNothing(digest, s, steps, s');
    assert forall i | 0 <= i < |steps| :: steps[i] in steps;
    assert FromFlows(steps, {}) && AllClean({});
  }

  lemma CallIsARun(digest: Digest, accounts: set<string>, s: Service, call: Call, s': Service)
    requires CallStep(digest, accounts, s, call, s') && CleanCall(s, call) && s.ledger.pending == map[]
    ensures CleanFlowsLead(digest, s.ledger, s'.ledger) && s'.ledger.pending == map[]
  {
    if s'.ledger == s.ledger {
      CleanReflexive(digest, s.ledger);
    } else {
      match call
      case FinalizeCall(orderId, ref, platformFee, partnerFee, _, done, _) =>
        SubsetIsARun(digest, s.ledger, FinalFlows(s.orders[orderId], ref, platformFee, partnerFee), done, s'.ledger);
      case EventCall(event, _) =>
        var e :| RowFor(digest, s.ledger, event, e) && s'.ledger == Post(s.ledger, e);
        RowIsARun(digest, s.ledger, event, e);
      case SweepCall => SweepsAreARun(digest, s.ledger, s'.ledger);
      case ReconcileCall(onChainTotal, reference, _) =>
        var f := DeltaAdjusted(Abs(Judge(UserTotal(s.ledger.snapshots), onChainTotal).delta), reference);
        var e :| RowFor(digest, s.ledger, f, e) && s'.ledger == Post(s.ledger, e);
        RowIsARun(digest, s.ledger, f, e);
      case _ =>
        var accountId, amount, reservationId, e := ReserveRowOf(digest, accounts, s, call, s');
        RowIsARun(digest, s.ledger, FundsReserved(accountId, amount, reservationId), e);
    }
  }

  /** Every run of the service from a fresh ledger is a run of the ledger machine; so if its
      finalizations and chain events are clean, both reconcilers compute the same total after it. */
  lemma ServiceRunReconciles(digest: Digest, accounts: set<string>, states: seq<Service>, calls: seq<Call>)
    requires IsRun(digest, accounts, states, calls) && states[0].ledger == Initial()
    requires forall i | 0 <= i < |calls| :: CleanCall(states[i], calls[i])
    ensures UserTotal(states[|calls|].ledger.snapshots) == EntryTotal(states[|calls|].ledger.entries)
  {
    ServiceRunIsALedgerRun(digest, accounts, states, calls);
    var steps, flows :| Leads(digest, Initial(), steps, states[|calls|].ledger) && FromFlows(steps, flows)
      && AllClean(flows);
    ReconcilersAgree(digest, steps, states[|calls|].ledger, flows);
  }

  lemma {:induction false} ServiceRunIsALedgerRun(
      digest: Digest, accounts: set<string>, states: seq<Service>, calls: seq<Call>)
    requires IsRun(digest, accounts, states, calls) && states[0].ledger.pending == map[]
    requires forall i | 0 <= i < |calls| :: CleanCall(states[i], calls[i])
    ensures CleanFlowsLead(digest, states[0].ledger, states[|calls|].ledger) && states[|calls|].ledger.pending == map[]
    decreases |calls|
  {
    if calls == [] {
      CleanReflexive(digest, states[0].ledger);
    } else {
      var n := |calls| - 1;
      RunPrefix(digest, accounts, states, calls);
      ServiceRunIsALedgerRun(digest, accounts, states[..n + 1], calls[..n]);
      assert StepAt(digest, accounts, states, calls, n);
      CallIsARun(digest, accounts, states[n], calls[n], states[n + 1]);
      CleanTransitive(digest, states[0].ledger, states[n].ledger, states[n + 1].ledger);
    }
  }

  // ---------------------------------------------------------------- the exact gap over service runs

  ghost function Gap(s: State): int {
    UserTotal(s.snapshots) - EntryTotal(s.entries)
  }

  lemma RowGap(digest: Digest, s: State, f: FlowEvent, e: Entry)
    requires RowFor(digest, s, f, e) && ByCode(f)
    ensures Gap(Post(s, e)) == Gap(s) + Misread(f)
  {
    PostMoves(s, e, UserWeight);
    assert Post(s, e).entries[..|s.entries|] == s.entries;
    DriftIsMisread(f, e);
  }

  function MisreadOf(flows: seq<FlowEvent>, done: seq<bool>): int
    requires |flows| == |done|
  {
    if flows == [] then 0
    else (if done[0] then Misread(flows[0]) else 0) + MisreadOf(flows[1..], done[1..])
  }

  lemma {:induction false} SubsetGap(digest: Digest, s: State, flows: seq<FlowEvent>, done: seq<bool>, s': State)
    requires |flows| == |done| && PostsSubset(digest, s, flows, done, s') && forall f | f in flows :: ByCode(f)
    ensures Gap(s') == Gap(s) + MisreadOf(flows, done)
    decreases |flows|
  {
    if flows != [] {
      if done[0] {
        var e :| RowFor(digest, s, flows[0], e) && PostsSubset(digest, Post(s, e), flows[1..], done[1..], s');
        RowGap(digest, s, flows[0], e);
        SubsetGap(digest, Post(s, e), flows[1..], done[1..], s');
      } else {
        SubsetGap(digest, s, flows[1..], done[1..], s');
      }
    }
  }

  /** The account ids are of the code's making: those of the account table, and of chain events. */
  ghost predicate MadeAccounts(accounts: set<string>, calls: seq<Call>) {
    (forall a | a in accounts :: MadeId(a)) && forall c | c in calls && c.EventCall? :: ByCode(c.event)
  }

  ghost predicate MadeOrders(s: Service) {
    forall id | id in s.orders :: MadeId(s.orders[id].accountId)
  }

  /** The call's settlement goes through, under a reference that is not plain. */
  predicate Misreads(s: Service, call: Call)
    requires call.FinalizeCall? ==> |call.done| == 3
  {
    call.FinalizeCall? && call.orderId in s.orders && call.chainOk && call.done[0] && !PlainSettlementRef(call.settlementRef)
  }

  /** What the call adds to the gap between the totals. */
  function MisreadBy(s: Service, call: Call): int
    requires call.FinalizeCall? ==> |call.done| == 3
  {
    if Misreads(s, call) then s.orders[call.orderId].sendAmount else 0
  }

  lemma FinalizeGap(
      digest: Digest, s: Service, orderId: string, ref: string, platformFee: int, partnerFee: int, chainOk: bool,
      done: seq<bool>, resp: Result<(), Error>, s': Service)
    requires FinalizeStep(digest, s, orderId, ref, platformFee, partnerFee, chainOk, done, resp, s') && MadeOrders(s)
    ensures var call := FinalizeCall(orderId, ref, platformFee, partnerFee, chainOk, done, resp);
      Gap(s'.ledger) == Gap(s.ledger) + MisreadBy(s, call) && (Misreads(s, call) ==> MisreadBy(s, call) > 0)
  {
    if orderId in s.orders && chainOk {
      var flows := FinalFlows(s.orders[orderId], ref, platformFee, partnerFee);
      SubsetGap(digest, s.ledger, flows, done, s'.ledger);
      assert MisreadOf(flows, done) == if done[0] then Misread(flows[0]) else 0 by {
        assert flows[1..][1..] == [flows[2]] && done[1..][1..] == [done[2]];
        assert MisreadOf([flows[2]], [done[2]]) == 0;
      }
      if done[0] {
        PostedIsPositive(digest, s.ledger, flows, done, s'.ledger, 0);
      }
    }
  }

  lemma EventGap(digest: Digest, s: Service, event: FlowEvent, posted: bool, s': Service)
    requires EventStep(digest, s, event, posted, s') && ByCode(event)
    ensures Gap(s'.ledger) == Gap(s.ledger)
  {
    if posted {
      var e :| RowFor(digest, s.ledger, event, e) && s'.ledger == Post(s.ledger, e);
      RowGap(digest, s.ledger, event, e);
    }
  }

  lemma ReconcileGap(digest: Digest, s: State, onChainTotal: int, reference: string, posted: bool, s': State)
    requires Reconciled(digest, s, onChainTotal, reference, posted, s')
    ensures Gap(s') == Gap(s)
  {
    if posted {
      var f := DeltaAdjusted(Abs(Judge(UserTotal(s.snapshots), onChainTotal).delta), reference);
      var e :| RowFor(digest, s, f, e) && s' == Post(s, e);
      RowGap(digest, s, f, e);
    }
  }

  lemma ReserveGap(digest: Digest, accounts: set<string>, s: Service, call: Call, s': Service)
    requires CallStep(digest, accounts, s, call, s') && (call.ReserveCall? || call.QuoteCall? || call.OrderCall?)
    ensures Gap(s'.ledger) == Gap(s.ledger)
  {
    if s'.ledger != s.ledger {
      var accountId, amount, reservationId, e := ReserveRowOf(digest, accounts, s, call, s');
      ReserveKeepsHeld(digest, s.ledger, accountId, amount, reservationId, e, accountId);
      assert s'.ledger.entries[..|s.ledger.entries|] == s.ledger.entries;
    }
  }

  lemma CallGap(digest: Digest, accounts: set<string>, s: Service, call: Call, s': Service)
    requires CallStep(digest, accounts, s, call, s') && MadeOrders(s) && (call.EventCall? ==> ByCode(call.event))
    ensures Gap(s'.ledger) == Gap(s.ledger) + MisreadBy(s, call) && (Misreads(s, call) ==> MisreadBy(s, call) > 0)
  {
    match call
    case FinalizeCall(orderId, ref, platformFee, partnerFee, chainOk, done, resp) =>
      FinalizeGap(digest, s, orderId, ref, platformFee, partnerFee, chainOk, done, resp, s');
    case EventCall(event, posted) => EventGap(digest, s, event, posted, s');
    case SweepCall =>
      var steps :| OnlySweeps(steps) && Leads(digest, s.ledger, steps, s'.ledger);
      SweepsMoveNothing(digest, s.ledger, steps, s'.ledger);
    case ReconcileCall(onChainTotal, reference, posted) =>
      ReconcileGap(digest, s.ledger, onChainTotal, reference, posted, s'.ledger);
    case _ => ReserveGap(digest, accounts, s, call, s');
  }

  lemma CallKeepsMadeOrders(digest: Digest, accounts: set<string>, s: Service, call: Call, s': Service)
    requires CallStep(digest, accounts, s, call, s') && MadeOrders(s) && forall a | a in accounts :: MadeId(a)
    ensures MadeOrders(s')
  {
  }

  ghost predicate NoneMisread(states: seq<Service>, calls: seq<Call>)
    requires |states| == |calls| + 1 && forall c | c in calls && c.FinalizeCall? :: |c.done| == 3
  {
    forall i | 0 <= i < |calls| :: !Misreads(states[i], calls[i])
  }

  function TotalMisread(states: seq<Service>, calls: seq<Call>): int
    requires |states| == |calls| + 1 && forall c | c in calls && c.FinalizeCall? :: |c.done| == 3
  {
    if calls == [] then 0
    else
      var n := |calls| - 1;
      TotalMisread(states[..n + 1], calls[..n]) + MisreadBy(states[n], calls[n])
  }

  lemma LastMisread(states: seq<Service>, calls: seq<Call>)
    requires |states| == |calls| + 1 && calls != [] && forall c | c in calls && c.FinalizeCall? :: |c.done| == 3
    ensures var n := |calls| - 1;
      NoneMisread(states, calls) <==> NoneMisread(states[..n + 1], calls[..n]) && !Misreads(states[n], calls[n])
  {
    var n := |calls| - 1;
    assert forall i | 0 <= i < n :: states[..n + 1][i] == states[i] && calls[..n][i] == calls[i];
  }

  /** What a run adds to the gap between the totals, exactly. */
  lemma {:induction false} GapOverRuns(
      digest: Digest, accounts: set<string>, states: seq<Service>, calls: seq<Call>)
    requires IsRun(digest, accounts, states, calls) && MadeOrders(states[0])
    requires MadeAccounts(accounts, calls)
    ensures forall c | c in calls && c.FinalizeCall? :: |c.done| == 3
    ensures MadeOrders(states[|calls|])
    ensures Gap(states[|calls|].ledger) == Gap(states[0].ledger) + TotalMisread(states, calls)
    ensures TotalMisread(states, calls) >= 0
    ensures TotalMisread(states, calls) == 0 <==> NoneMisread(states, calls)
    decreases |calls|
  {
    RunShape(digest, accounts, states, calls);
    if calls != [] {
      var n := |calls| - 1;
      RunPrefix(digest, accounts, states, calls);
      GapOverRuns(digest, accounts, states[..n + 1], calls[..n]);
      assert StepAt(digest, accounts, states, calls, n);
      CallGap(digest, accounts, states[n], calls[n], states[n + 1]);
      CallKeepsMadeOrders(digest, accounts, states[n], calls[n], states[n + 1]);
      LastMisread(states, calls);
    }
  }

  /** Over any run of the service on accounts of the code's making, sweeps and reconciliations included, the
      snapshot total exceeds the entry total by exactly the sums settled under references that are not
      plain, and is equal to it exactly if there were none. */
  lemma ServiceTotalsAgreeIff(digest: Digest, accounts: set<string>, states: seq<Service>, calls: seq<Call>)
    requires IsRun(digest, accounts, states, calls) && states[0].ledger == Initial() && states[0].orders == map[]
    requires MadeAccounts(accounts, calls)
    ensures forall c | c in calls && c.FinalizeCall? :: |c.done| == 3
    ensures var end := states[|calls|].ledger;
      && UserTotal(end.snapshots) == EntryTotal(end.entries) + TotalMisread(states, calls)
      && (UserTotal(end.snapshots) == EntryTotal(end.entries) <==> NoneMisread(states, calls))
  {
    GapOverRuns(digest, accounts, states, calls);
    WeightedZero(Initial().snapshots, UserWeight);
  }
}
