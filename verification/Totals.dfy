/**
 The two ledger totals. One reconciler sums the user-side balance snapshots, the other sums the
 entries by type. They are independent computations; this module says exactly when they agree.
 */
module Totals {
  import opened Prelude
  import opened Ledger

  // ---------------------------------------------------------------- the snapshot total

  /** Rows of the snapshot query: not a revenue or system account, and one of three suffixes. */
  predicate Counted(account: string) {
    !HasPrefix(account, "revenue:") && !HasPrefix(account, "system:")
  }

  predicate IsUserSide(account: string) {
    Counted(account) &&
    (HasSuffix(account, ":available") || HasSuffix(account, ":reserved") || HasSuffix(account, ":invested"))
  }

  function UserWeight(account: string): int {
    if IsUserSide(account) then 1 else 0
  }

  /** The ledger total of the snapshot-based reconciler. */
  ghost function UserTotal(snapshots: map<string, int>): int {
    Weighted(snapshots, UserWeight)
  }

  // ---------------------------------------------------------------- the entry total

  function SumOf(entries: seq<Entry>, kinds: set<EntryType>): int {
    if entries == [] then 0
    else
      var e := entries[|entries| - 1];
      SumOf(entries[..|entries| - 1], kinds) + if e.posting.kind in kinds then e.posting.amount else 0
  }

  const CREDIT_KINDS := {Deposit}
  const DEBIT_KINDS := {Withdrawal, Settlement, Fee}

  /** The ledger total of the entry-based reconciler. */
  function EntryTotal(entries: seq<Entry>): int {
    SumOf(entries, CREDIT_KINDS) - SumOf(entries, DEBIT_KINDS)
  }

  // ---------------------------------------------------------------- their difference

  /** What the type-based total attributes to an entry. */
  function TypeEffect(e: Entry): int {
    if e.posting.kind == Deposit then e.posting.amount
    else if e.posting.kind in DEBIT_KINDS then -e.posting.amount
    else 0
  }

  /** How far one entry moves the snapshot total away from the entry total. */
  ghost function Drift(e: Entry): int {
    EntryFlow(e, UserWeight) - TypeEffect(e)
  }

  ghost function TotalDrift(entries: seq<Entry>): int {
    if entries == [] then 0
    else TotalDrift(entries[..|entries| - 1]) + Drift(entries[|entries| - 1])
  }

  lemma {:induction false} DriftIsDifference(entries: seq<Entry>)
    ensures Flow(entries, UserWeight) - EntryTotal(entries) == TotalDrift(entries)
  {
    if entries != [] {
      DriftIsDifference(entries[..|entries| - 1]);
    }
  }

  /** Over any interleaving whatsoever, the two totals differ by exactly the accumulated drift. */
  lemma TotalsDifferByDrift(digest: Digest, steps: seq<Step>, s: State)
    requires Leads(digest, Initial(), steps, s)
    ensures UserTotal(s.snapshots) - EntryTotal(s.entries) == TotalDrift(s.entries)
  {
    ReachableConserved(digest, steps, s, UserWeight);
    DriftIsDifference(s.entries);
  }

  ghost predicate DriftFree(entries: seq<Entry>) {
    forall e | e in entries :: Drift(e) == 0
  }

  lemma {:induction false} NoDriftSumsToZero(entries: seq<Entry>)
    requires DriftFree(entries)
    ensures TotalDrift(entries) == 0
  {
    if entries != [] {
      NoDriftSumsToZero(entries[..|entries| - 1]);
    }
  }

  // ---------------------------------------------------------------- the flows that post

  /** The postings made by the treasury event bridge, the treasury service and the reconciler. */
  datatype FlowEvent =
    | DepositProcessed(account: string, assets: int, ledgerEntryId: string)
    | YieldAccrued(amount: int, reference: string)
    | FundsReserved(accountId: string, amount: int, reservationId: string)
    | OrderSettled(accountId: string, settlementRef: string, sendAmount: int, orderId: string)
    | PlatformFeeTaken(accountId: string, fee: int, orderId: string)
    | PartnerFeeTaken(accountId: string, fee: int, orderId: string)
    | DeltaAdjusted(delta: int, reference: string)

  function PostingOf(f: FlowEvent, metadata: string): Posting {
    match f
    case DepositProcessed(account, assets, id) =>
      Posting(Deposit, "custodian:inbound", account + ":available", assets, "USDC", id, metadata)
    case YieldAccrued(amount, reference) =>
      Posting(Yield, "strategies:yield", "vault:total_assets", amount, "USDC", reference, metadata)
    case FundsReserved(acc, amount, id) =>
      Posting(Reserve, acc + ":available", acc + ":reserved", amount, "USDC", id, metadata)
    case OrderSettled(acc, ref, amount, orderId) =>
      Posting(Settlement, acc + ":reserved", "settlement:" + ref, amount, "USDC", orderId, metadata)
    case PlatformFeeTaken(acc, fee, orderId) =>
      Posting(Fee, acc + ":reserved", "revenue:platform", fee, "USDC", orderId, metadata)
    case PartnerFeeTaken(acc, fee, orderId) =>
      Posting(Fee, acc + ":reserved", "revenue:partner", fee, "USDC", orderId, metadata)
    case DeltaAdjusted(delta, reference) =>
      Posting(Adjustment, "suspense:reconciliation", "system:delta_reserve", delta, "USDC", reference, metadata)
  }

  /** An account id whose sub-accounts the snapshot query counts. */
  predicate UserAccountId(accountId: string) {
    !HasPrefix(accountId + ":", "revenue:") && !HasPrefix(accountId + ":", "system:")
  }

  /** A settlement reference whose `settlement:` account is not mistaken for a user balance. */
  predicate PlainSettlementRef(ref: string) {
    !HasSuffix(":" + ref, ":available") && !HasSuffix(":" + ref, ":reserved") && !HasSuffix(":" + ref, ":invested")
  }

  /** What a caller can check before a flow posts. */
  predicate CleanFlow(f: FlowEvent) {
    match f
    case DepositProcessed(account, _, _) => UserAccountId(account)
    case OrderSettled(acc, ref, _, _) => UserAccountId(acc) && PlainSettlementRef(ref)
    case PlatformFeeTaken(acc, _, _) => UserAccountId(acc)
    case PartnerFeeTaken(acc, _, _) => UserAccountId(acc)
    case _ => true
  }

  lemma SubAccountPrefix(accountId: string, sub: string, prefix: string)
    requires |prefix| > 0 && prefix[|prefix| - 1] == ':'
    requires forall i | 0 <= i < |prefix| - 1 :: prefix[i] != ':'
    ensures HasPrefix(accountId + ":" + sub, prefix) <==> HasPrefix(accountId + ":", prefix)
  {
    var whole, head := accountId + ":" + sub, accountId + ":";
    PrefixMeans(whole, prefix);
    PrefixMeans(head, prefix);
    assert whole[|accountId|] == ':';
    assert forall i | 0 <= i < |head| :: whole[i] == head[i];
    assert |prefix| > |head| ==> whole[|accountId|] != prefix[|accountId|];
  }

  lemma SubAccountCounted(accountId: string, sub: string)
    ensures Counted(accountId + ":" + sub) <==> UserAccountId(accountId)
  {
    SubAccountPrefix(accountId, sub, "revenue:");
    SubAccountPrefix(accountId, sub, "system:");
  }

  lemma SuffixOfConcat(head: string, tail: string, suffix: string)
    requires |suffix| <= |tail|
    ensures HasSuffix(head + tail, suffix) <==> HasSuffix(tail, suffix)
  {
  }

  lemma SubAccountSides(accountId: string)
    ensures IsUserSide(accountId + ":available") <==> UserAccountId(accountId)
    ensures IsUserSide(accountId + ":reserved") <==> UserAccountId(accountId)
  {
    assert accountId + ":available" == accountId + ":" + "available";
    assert accountId + ":reserved" == accountId + ":" + "reserved";
    SubAccountCounted(accountId, "available");
    SubAccountCounted(accountId, "reserved");
    SuffixOfConcat(accountId, ":available", ":available");
    SuffixOfConcat(accountId, ":reserved", ":reserved");
  }

  /** A suffix starting with a colon cannot reach back over the colon of `settlement:`. */
  lemma SettlementSuffix(ref: string, suffix: string)
    requires |suffix| <= 10 && |suffix| > 0 && suffix[0] == ':'
    ensures HasSuffix("settlement:" + ref, suffix) <==> HasSuffix(":" + ref, suffix)
  {
  }

  lemma SettlementSide(ref: string)
    ensures IsUserSide("settlement:" + ref) <==> !PlainSettlementRef(ref)
  {
    var whole := "settlement:" + ref;
    PrefixMeans(whole, "revenue:");
    PrefixMeans(whole, "system:");
    assert whole[0] != "revenue:"[0] && whole[1] != "system:"[1];
    SettlementSuffix(ref, ":available");
    SettlementSuffix(ref, ":reserved");
    SettlementSuffix(ref, ":invested");
  }

  lemma FixedAccountsNotUserSide()
    ensures !IsUserSide("custodian:inbound") && !IsUserSide("strategies:yield") && !IsUserSide("vault:total_assets")
    ensures !IsUserSide("revenue:platform") && !IsUserSide("revenue:partner")
    ensures !IsUserSide("suspense:reconciliation") && !IsUserSide("system:delta_reserve")
  {
  }

  /** Which of a flow's two accounts weigh as user money. */
  lemma FlowWeights(f: FlowEvent, metadata: string)
    ensures var p := PostingOf(f, metadata);
      match f
      case DepositProcessed(a, _, _) => !IsUserSide(p.debit) && (IsUserSide(p.credit) <==> UserAccountId(a))
      case FundsReserved(a, _, _) => IsUserSide(p.debit) <==> IsUserSide(p.credit)
      case OrderSettled(a, ref, _, _) =>
        (IsUserSide(p.debit) <==> UserAccountId(a)) && (IsUserSide(p.credit) <==> !PlainSettlementRef(ref))
      case PlatformFeeTaken(a, _, _) => (IsUserSide(p.debit) <==> UserAccountId(a)) && !IsUserSide(p.credit)
      case PartnerFeeTaken(a, _, _) => (IsUserSide(p.debit) <==> UserAccountId(a)) && !IsUserSide(p.credit)
      case _ => !IsUserSide(p.debit) && !IsUserSide(p.credit)
  {
    FixedAccountsNotUserSide();
    match f
    case DepositProcessed(a, _, _) => SubAccountSides(a);
    case FundsReserved(a, _, _) => SubAccountSides(a);
    case OrderSettled(a, ref, _, _) => SubAccountSides(a); SettlementSide(ref);
    case PlatformFeeTaken(a, _, _) => SubAccountSides(a);
    case PartnerFeeTaken(a, _, _) => SubAccountSides(a);
    case _ =>
  }

  /** A committed flow leaves the two totals equally far apart exactly when it is clean. */
  lemma FlowDriftsIffUnclean(f: FlowEvent, metadata: string, e: Entry)
    requires e.Posted? && e.posting == PostingOf(f, metadata) && e.posting.amount > 0
    ensures Drift(e) == 0 <==> CleanFlow(f)
  {
    DriftByWeights(e);
    FlowWeights(f, metadata);
  }

  lemma DriftByWeights(e: Entry)
    requires e.Posted?
    ensures var p := e.posting;
      Drift(e) == (if IsUserSide(p.credit) then p.amount else 0) - (if IsUserSide(p.debit) then p.amount else 0)
                  - TypeEffect(e)
  {
  }

  // ---------------------------------------------------------------- agreement over all runs

  /** Every transaction of the run was begun by one of the flows, as recorded in `flows`. */
  ghost predicate FromFlows(steps: seq<Step>, flows: set<FlowEvent>) {
    forall i | 0 <= i < |steps| && steps[i].Begin? ::
      exists f | f in flows :: steps[i].posting == PostingOf(f, steps[i].posting.metadata)
  }

  ghost predicate RowFromFlows(e: Entry, flows: set<FlowEvent>) {
    if e.Posted? then
      e.posting.amount > 0 && exists f | f in flows :: e.posting == PostingOf(f, e.posting.metadata)
    else e.posting.kind == Release
  }

  ghost predicate RowsFromFlows(s: State, flows: set<FlowEvent>) {
    (forall e | e in s.entries :: RowFromFlows(e, flows)) &&
    forall tx | tx in s.pending :: s.pending[tx].Posted? && RowFromFlows(s.pending[tx], flows)
  }

  lemma {:induction false} RunRowsFromFlows(
      digest: Digest, s: State, steps: seq<Step>, s': State, flows: set<FlowEvent>)
    requires Leads(digest, s, steps, s') && FromFlows(steps, flows) && RowsFromFlows(s, flows)
    ensures RowsFromFlows(s', flows)
    decreases |steps|
  {
    if steps != [] {
      var s1 := Do(digest, s, steps[0]);
      assert RowsFromFlows(s1, flows) by {
        if steps[0].Begin? {
          assert steps[0].posting.amount > 0 ==> RowFromFlows(s1.pending[steps[0].tx], flows);
        }
      }
      assert FromFlows(steps[1..], flows);
      RunRowsFromFlows(digest, s1, steps[1..], s', flows);
    }
  }

  /** The reconcilers agree: in every state reachable by any interleaving of deposits, reserves,
      yield, settlements and fees in any combination, adjustments, failed posts and expiry sweeps,
      if each flow is clean, the snapshot total equals the entry total. */
  lemma ReconcilersAgree(digest: Digest, steps: seq<Step>, s: State, flows: set<FlowEvent>)
    requires Leads(digest, Initial(), steps, s) && FromFlows(steps, flows)
    requires forall f | f in flows :: CleanFlow(f)
    ensures UserTotal(s.snapshots) == EntryTotal(s.entries)
  {
    RunRowsFromFlows(digest, Initial(), steps, s, flows);
    FlowRowsDriftFreeIffClean(s.entries, flows);
    NoDriftSumsToZero(s.entries);
    TotalsDifferByDrift(digest, steps, s);
  }

  /** Nothing weaker than cleanliness will do: a state whose totals agree stops agreeing as soon
      as an unclean flow commits. */
  lemma UncleanFlowSplitsTotals(digest: Digest, steps: seq<Step>, s: State, tx: nat, f: FlowEvent)
    requires Leads(digest, Initial(), steps, s)
    requires tx in s.pending && Insertable(s.entries, s.pending[tx])
    requires s.pending[tx].posting == PostingOf(f, s.pending[tx].posting.metadata)
    ensures var s' := Do(digest, s, Commit(tx));
      (UserTotal(s'.snapshots) - EntryTotal(s'.entries) == UserTotal(s.snapshots) - EntryTotal(s.entries))
      <==> CleanFlow(f)
  {
    WeightedZero(Initial().snapshots, UserWeight);
    RunConserves(digest, Initial(), steps, s, UserWeight);
    var e := s.pending[tx];
    var s' := Do(digest, s, Commit(tx));
    StepConserves(digest, s, Commit(tx), UserWeight);
    DriftIsDifference(s.entries);
    DriftIsDifference(s'.entries);
    assert s'.entries[..|s.entries|] == s.entries;
    FlowDriftsIffUnclean(f, e.posting.metadata, e);
  }

  ghost predicate CommittedFlowsClean(entries: seq<Entry>, flows: set<FlowEvent>) {
    forall f, e | f in flows && e in entries && e.Posted? && e.posting == PostingOf(f, e.posting.metadata) ::
      CleanFlow(f)
  }

  lemma FlowRowsDriftFreeIffClean(entries: seq<Entry>, flows: set<FlowEvent>)
    requires forall e | e in entries :: RowFromFlows(e, flows)
    ensures DriftFree(entries) <==> CommittedFlowsClean(entries, flows)
  {
    forall f, e | f in flows && e in entries && e.Posted? && e.posting == PostingOf(f, e.posting.metadata)
      ensures Drift(e) == 0 <==> CleanFlow(f)
    {
      FlowDriftsIffUnclean(f, e.posting.metadata, e);
    }
    if CommittedFlowsClean(entries, flows) {
      forall e | e in entries ensures Drift(e) == 0 {
        if e.Posted? {
          var f :| f in flows && e.posting == PostingOf(f, e.posting.metadata);
          FlowDriftsIffUnclean(f, e.posting.metadata, e);
        }
      }
    }
  }

  /** The two totals are equal in every state the run goes through. */
  ghost predicate AgreeThroughout(digest: Digest, steps: seq<Step>) {
    forall k, mid | 0 <= k <= |steps| && Leads(digest, Initial(), steps[..k], mid) ::
      UserTotal(mid.snapshots) == EntryTotal(mid.entries)
  }

  lemma DriftFreeThenAgree(digest: Digest, steps: seq<Step>, s: State)
    requires Leads(digest, Initial(), steps, s) && DriftFree(s.entries)
    ensures AgreeThroughout(digest, steps)
  {
    forall k, mid | 0 <= k <= |steps| && Leads(digest, Initial(), steps[..k], mid)
      ensures UserTotal(mid.snapshots) == EntryTotal(mid.entries)
    {
      var m := LeadsSplit(digest, Initial(), steps, s, k);
      LeadsOnce(digest, Initial(), steps[..k], m, mid);
      LogGrows(digest, mid, steps[k..], s);
      NoDriftSumsToZero(mid.entries);
      TotalsDifferByDrift(digest, steps[..k], mid);
    }
  }

  lemma {:induction false} AgreeThenDriftFree(digest: Digest, steps: seq<Step>, s: State)
    requires Leads(digest, Initial(), steps, s) && AgreeThroughout(digest, steps)
    ensures DriftFree(s.entries)
    decreases |steps|
  {
    if steps != [] {
      var n := |steps| - 1;
      var mid := LeadsSplit(digest, Initial(), steps, s, n);
      AgreeBefore(digest, steps, n);
      AgreeThenDriftFree(digest, steps[..n], mid);
      NoDriftSumsToZero(mid.entries);
      AgreeInTheEnd(digest, steps, s);
      LastStep(digest, mid, steps[n..], s);
    }
  }

  lemma AgreeBefore(digest: Digest, steps: seq<Step>, n: nat)
    requires AgreeThroughout(digest, steps) && n <= |steps|
    ensures AgreeThroughout(digest, steps[..n])
  {
    forall k | 0 <= k <= n ensures steps[..n][..k] == steps[..k] {
    }
  }

  lemma AgreeInTheEnd(digest: Digest, steps: seq<Step>, s: State)
    requires Leads(digest, Initial(), steps, s) && AgreeThroughout(digest, steps)
    ensures TotalDrift(s.entries) == 0
  {
    assert steps[..|steps|] == steps;
    TotalsDifferByDrift(digest, steps, s);
  }

  /** One step adds one row at most, so a log whose drift stays zero gains no drifting row. */
  lemma LastStep(digest: Digest, mid: State, last: seq<Step>, s: State)
    requires |last| == 1 && Leads(digest, mid, last, s)
    requires DriftFree(mid.entries) && TotalDrift(mid.entries) == TotalDrift(s.entries) == 0
    ensures DriftFree(s.entries)
  {
    assert s == Do(digest, mid, last[0]);
    if s.entries != mid.entries {
      assert s.entries[..|s.entries| - 1] == mid.entries;
    }
  }

  /** A run of flows keeps the two totals equal in every state it goes through exactly when every
      flow that committed was clean. */
  lemma AgreeThroughoutIffClean(digest: Digest, steps: seq<Step>, s: State, flows: set<FlowEvent>)
    requires Leads(digest, Initial(), steps, s) && FromFlows(steps, flows)
    ensures AgreeThroughout(digest, steps) <==> CommittedFlowsClean(s.entries, flows)
  {
    RunRowsFromFlows(digest, Initial(), steps, s, flows);
    FlowRowsDriftFreeIffClean(s.entries, flows);
    if DriftFree(s.entries) {
      DriftFreeThenAgree(digest, steps, s);
    }
    if AgreeThroughout(digest, steps) {
      AgreeThenDriftFree(digest, steps, s);
    }
  }

  // ---------------------------------------------------------------- inputs that split the totals

  /** Which account ids are not clean. */
  lemma UncleanAccountIds(accountId: string)
    ensures !UserAccountId(accountId) <==>
      accountId == "revenue" || accountId == "system" || HasPrefix(accountId, "revenue:") || HasPrefix(accountId, "system:")
  {
    var revenue, system := "revenue", "system";
    assert revenue + ":" == "revenue:" && system + ":" == "system:";
    ColonPrefix(accountId, revenue);
    ColonPrefix(accountId, system);
  }

  predicate EndsInWord(ref: string, word: string) {
    ref == word || HasSuffix(ref, ":" + word)
  }

  /** Which settlement references are not clean. */
  lemma UncleanReferences(ref: string)
    ensures !PlainSettlementRef(ref) <==>
      EndsInWord(ref, "available") || EndsInWord(ref, "reserved") || EndsInWord(ref, "invested")
  {
    ColonSuffix(ref, "available", ":available");
    ColonSuffix(ref, "reserved", ":reserved");
    ColonSuffix(ref, "invested", ":invested");
  }

  lemma ColonPrefix(text: string, word: string)
    ensures HasPrefix(text + ":", word + ":") <==> text == word || HasPrefix(text, word + ":")
  {
    if HasPrefix(text + ":", word + ":") {
      assert (text + ":")[..|word|] == word && (word + ":")[|word|] == (text + ":")[|word|];
      if |text| > |word| {
        assert forall i | 0 <= i <= |word| :: text[i] == (text + ":")[i];
      } else {
        assert text == (text + ":")[..|text|];
      }
    }
  }

  lemma ColonSuffix(text: string, word: string, suffix: string)
    requires suffix == ":" + word
    ensures HasSuffix(":" + text, suffix) <==> EndsInWord(text, word)
  {
    if |text| > |word| {
      SuffixOfConcat(":", text, suffix);
    } else if |text| == |word| {
      WholeSuffix(":" + text, suffix);
      CancelColon(text, word);
    }
  }

  lemma WholeSuffix(a: string, b: string)
    requires |a| == |b|
    ensures HasSuffix(a, b) <==> a == b
  {
    assert a[0..] == a;
  }

  lemma CancelColon(a: string, b: string)
    ensures ":" + a == ":" + b <==> a == b
  {
    assert (":" + a)[1..] == a && (":" + b)[1..] == b;
  }

  /** Some run of these flows, from a fresh ledger, leads to `s`. */
  ghost predicate FlowsReach(digest: Digest, flows: set<FlowEvent>, s: State) {
    exists steps :: Leads(digest, Initial(), steps, s) && FromFlows(steps, flows)
  }

  /** Every unclean flow of a positive amount, posted alone on a fresh ledger, leaves the two
      reconcilers with different totals. */
  lemma UncleanFlowSplitsFreshLedger(digest: Digest, f: FlowEvent) returns (s: State)
    requires !CleanFlow(f) && PostingOf(f, "{}").amount > 0
    ensures FlowsReach(digest, {f}, s)
    ensures UserTotal(s.snapshots) != EntryTotal(s.entries)
  {
    var steps, e;
    s, steps, e := PostedAlone(digest, f);
    TotalsDifferByDrift(digest, steps, s);
    assert [e][..0] == [];
    FlowDriftsIffUnclean(f, "{}", e);
  }

  lemma PostedAlone(digest: Digest, f: FlowEvent) returns (s: State, steps: seq<Step>, e: Entry)
    requires PostingOf(f, "{}").amount > 0
    ensures Leads(digest, Initial(), steps, s) && FromFlows(steps, {f}) && FlowsReach(digest, {f}, s)
    ensures s.entries == [e] && e.Posted? && e.posting == PostingOf(f, "{}")
  {
    var p := PostingOf(f, "{}");
    e := MakeEntry(digest, p, "ent_1", ZERO_HASH, 0, 0);
    steps := [Begin(0, p, "ent_1", ZERO_HASH, 0, 0), Commit(0)];
    s := Post(Initial(), e);
    PostIsARun(digest, Initial(), 0, p, "ent_1", ZERO_HASH, 0, 0);
  }

  // ---------------------------------------------------------------- the account ids the code makes

  /** Treasury account ids are made with the prefix `pta-`; deposit events carry an address. */
  predicate MadeId(id: string) {
    HasPrefix(id, "pta-") || HasPrefix(id, "0x")
  }

  lemma MadeIdsAreClean(id: string)
    requires MadeId(id)
    ensures UserAccountId(id)
  {
    UncleanAccountIds(id);
    assert id[0] == 'p' || id[0] == '0';
    FirstLetters(id);
  }

  lemma FirstLetters(id: string)
    requires id != "" && id[0] != 'r' && id[0] != 's'
    ensures id != "revenue" && id != "system" && !HasPrefix(id, "revenue:") && !HasPrefix(id, "system:")
  {
    PrefixMeans(id, "revenue:");
    PrefixMeans(id, "system:");
    assert "revenue:"[0] == 'r' && "system:"[0] == 's' && "revenue"[0] == 'r' && "system"[0] == 's';
  }

  /** The account ids of the flow are of the code's making. */
  predicate ByCode(f: FlowEvent) {
    match f
    case DepositProcessed(account, _, _) => MadeId(account)
    case FundsReserved(acc, _, _) => MadeId(acc)
    case OrderSettled(acc, _, _, _) => MadeId(acc)
    case PlatformFeeTaken(acc, _, _) => MadeId(acc)
    case PartnerFeeTaken(acc, _, _) => MadeId(acc)
    case _ => true
  }

  /** What a posted flow with such ids adds to the gap between the totals: nothing, unless it settles
      under a reference that makes the settlement's account look like user money. */
  function Misread(f: FlowEvent): int {
    if f.OrderSettled? && !PlainSettlementRef(f.settlementRef) then f.sendAmount else 0
  }

  lemma DriftIsMisread(f: FlowEvent, e: Entry)
    requires e.Posted? && e.posting == PostingOf(f, e.posting.metadata) && ByCode(f)
    ensures Drift(e) == Misread(f)
  {
    DriftByWeights(e);
    FlowWeights(f, e.posting.metadata);
    match f
    case DepositProcessed(a, _, _) => MadeIdsAreClean(a);
    case OrderSettled(a, _, _, _) => MadeIdsAreClean(a);
    case PlatformFeeTaken(a, _, _) => MadeIdsAreClean(a);
    case PartnerFeeTaken(a, _, _) => MadeIdsAreClean(a);
    case _ =>
  }

  ghost predicate PlainRow(e: Entry, flows: set<FlowEvent>) {
    forall f | f in flows && f.OrderSettled? && e.Posted? && e.posting == PostingOf(f, e.posting.metadata) ::
      PlainSettlementRef(f.settlementRef)
  }

  /** Every committed settlement went under a plain reference. */
  ghost predicate SettledPlainly(entries: seq<Entry>, flows: set<FlowEvent>) {
    forall e | e in entries :: PlainRow(e, flows)
  }

  lemma RowDrift(e: Entry, flows: set<FlowEvent>)
    requires RowFromFlows(e, flows) && forall f | f in flows :: ByCode(f)
    ensures Drift(e) >= 0
    ensures Drift(e) == 0 <==> PlainRow(e, flows)
  {
    if e.Posted? {
      forall f | f in flows && e.posting == PostingOf(f, e.posting.metadata) ensures Drift(e) == Misread(f) {
        DriftIsMisread(f, e);
      }
    }
  }

  lemma {:induction false} DriftNeverNegative(entries: seq<Entry>)
    requires forall e | e in entries :: Drift(e) >= 0
    ensures TotalDrift(entries) >= 0
    ensures TotalDrift(entries) == 0 <==> DriftFree(entries)
  {
    if entries != [] {
      var n := |entries| - 1;
      DriftNeverNegative(entries[..n]);
      assert forall e | e in entries :: e in entries[..n] || e == entries[n];
    }
  }

  /** With the account ids the code makes, the settlement reference is all that matters: in every state
      reachable by any interleaving of flows, the snapshot total is at least the entry total, and equal to
      it exactly if every committed settlement went under a plain reference. */
  lemma AgreeIffSettledPlainly(digest: Digest, steps: seq<Step>, s: State, flows: set<FlowEvent>)
    requires Leads(digest, Initial(), steps, s) && FromFlows(steps, flows)
    requires forall f | f in flows :: ByCode(f)
    ensures UserTotal(s.snapshots) >= EntryTotal(s.entries)
    ensures UserTotal(s.snapshots) == EntryTotal(s.entries) <==> SettledPlainly(s.entries, flows)
  {
    RunRowsFromFlows(digest, Initial(), steps, s, flows);
    forall e | e in s.entries ensures Drift(e) >= 0 && (Drift(e) == 0 <==> PlainRow(e, flows)) {
      RowDrift(e, flows);
    }
    DriftNeverNegative(s.entries);
    TotalsDifferByDrift(digest, steps, s);
  }

  /** Settling any account the code made under any of the unclean references, alone on a fresh ledger,
      leaves the snapshot total higher by the settled amount. */
  lemma MisreadReferenceSplits(digest: Digest, x: string, ref: string, amount: int, orderId: string) returns (s: State)
    requires amount > 0
    requires EndsInWord(ref, "available") || EndsInWord(ref, "reserved") || EndsInWord(ref, "invested")
    ensures FlowsReach(digest, {OrderSettled("pta-" + x, ref, amount, orderId)}, s)
    ensures UserTotal(s.snapshots) == EntryTotal(s.entries) + amount
  {
    var f := OrderSettled("pta-" + x, ref, amount, orderId);
    UncleanReferences(ref);
    var steps, e;
    s, steps, e := PostedAlone(digest, f);
    TotalsDifferByDrift(digest, steps, s);
    assert [e][..0] == [];
    assert MadeId("pta-" + x);
    DriftIsMisread(f, e);
  }
}
