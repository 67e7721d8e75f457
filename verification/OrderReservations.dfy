/**
 Which reservation stands behind an order. Over any run of calls every stored order is backed by a RESERVE
 row that a call under its own key posted, orders under different keys by different rows, and the row is of
 the order's own account and amount exactly as long as its key was not used before for something else.
 */
module OrderReservations {
  import opened Prelude
  import opened Ledger
  import opened HashChain
  import opened Totals
  import opened LedgerService
  import opened TreasuryFlows
  import opened TreasuryMoney

  // ---------------------------------------------------------------- the derived key

  /** An order reserves under its own key behind `res:`, so no two order keys share a reservation. */
  lemma DerivedKeys(a: string, b: string)
    ensures ReserveKey(a) == "res:" + a
    ensures ReserveKey(a) == ReserveKey(b) ==> a == b
  {
    assert ("res:" + a)[4..] == a && ("res:" + b)[4..] == b;
  }

  // ---------------------------------------------------------------- which call posted a row

  /** The cache key a call reserves under, if it is one that reserves. */
  function KeyReserved(call: Call): Option<string> {
    match call
    case ReserveCall(key, _, _, _) => Some(key)
    case OrderCall(key, _, _, _, _) => Some("res:" + key)
    case _ => None
  }

  function AccountAsked(call: Call): string {
    match call
    case ReserveCall(_, accountId, _, _) => accountId
    case OrderCall(_, _, accountId, _, _) => accountId
    case _ => ""
  }

  /** What a reserving call asks to be reserved: an order, its quote's amount. */
  function AmountAsked(s: Service, call: Call): int {
    match call
    case ReserveCall(_, _, amount, _) => amount
    case OrderCall(_, quoteId, _, _, _) =>
      if quoteId in s.cache && s.cache[quoteId].CachedQuote? then s.cache[quoteId].quote.sendAmount else 0
    case _ => 0
  }

  predicate ReserveRow(e: Entry, accountId: string, amount: int, reservationId: string) {
    && e.Posted? && e.posting.kind == Reserve && e.posting.amount == amount && e.posting.reference == reservationId
    && e.posting.debit == accountId + ":available" && e.posting.credit == accountId + ":reserved"
  }

  /** The call, made in state `s`, reserves under `key` and posts the row `e` as it asks. */
  ghost predicate PostsFor(s: Service, call: Call, s': Service, key: string, r: Reservation, e: Entry) {
    && KeyReserved(call) == Some(key) && s'.ledger.entries == s.ledger.entries + [e]
    && r.Reserved? && e.id == r.ledgerEntryId && r.accountId == AccountAsked(call) && r.amount == AmountAsked(s, call)
    && ReserveRow(e, r.accountId, r.amount, r.reservationId)
  }

  ghost predicate PostsSome(s: Service, call: Call, s': Service, key: string, r: Reservation) {
    exists e :: PostsFor(s, call, s', key, r, e)
  }

  /** Call `i` posted the row behind the reservation `r` cached under `key`. */
  ghost predicate Behind(states: seq<Service>, calls: seq<Call>, i: nat, key: string, r: Reservation) {
    i < |calls| && i + 1 < |states| && PostsSome(states[i], calls[i], states[i + 1], key, r)
  }

  predicate HasReserved(s: Service, key: string) {
    key in s.cache && s.cache[key].CachedReservation? && s.cache[key].reservation.Reserved?
  }

  lemma ReserveAnswers(
      digest: Digest, accounts: set<string>, s: Service, key: string, accountId: string, amount: int,
      resp: Result<Cached, Error>, s': Service) returns (e: Entry)
    requires ReserveStep(digest, accounts, s, key, accountId, amount, resp, s')
    requires key !in s.cache && resp.Ok? && resp.value.reservation.Reserved?
    ensures var r := resp.value.reservation;
      && s'.ledger.entries == s.ledger.entries + [e] && e.id == r.ledgerEntryId
      && r.accountId == accountId && r.amount == amount && ReserveRow(e, accountId, amount, r.reservationId)
  {
    var r := resp.value.reservation;
    e :| RowFor(digest, s.ledger, FundsReserved(accountId, amount, r.reservationId), e) && e.id == r.ledgerEntryId
      && s'.ledger == Post(s.ledger, e);
  }

  /** A reservation cached after a call was cached before it, or the call has just posted its row. */
  lemma CachedByCall(digest: Digest, accounts: set<string>, s: Service, call: Call, s': Service, key: string)
    requires CallStep(digest, accounts, s, call, s') && HasReserved(s', key)
    requires !(HasReserved(s, key) && s'.cache[key] == s.cache[key])
    ensures PostsSome(s, call, s', key, s'.cache[key].reservation)
  {
    match call
    case ReserveCall(k, accountId, amount, resp) =>
      var e := ReserveAnswers(digest, accounts, s, k, accountId, amount, resp, s');
      assert PostsFor(s, call, s', key, s'.cache[key].reservation, e);
    case OrderCall(k, quoteId, accountId, now, resp) =>
      DerivedKeys(k, k);
      var reply, mid := OrderReserves(digest, accounts, s, k, quoteId, accountId, now, resp, s');
      var e := ReserveAnswers(digest, accounts, s, ReserveKey(k), accountId, s.cache[quoteId].quote.sendAmount, reply, mid);
      assert PostsFor(s, call, s', key, s'.cache[key].reservation, e);
    case _ =>
  }

  /** Every cached reservation has a call that posted its row. */
  lemma {:induction false} CachedIsBacked(
      digest: Digest, accounts: set<string>, states: seq<Service>, calls: seq<Call>, n: nat, key: string)
    returns (i: nat)
    requires IsRun(digest, accounts, states, calls) && states[0].cache == map[] && n <= |calls|
    requires HasReserved(states[n], key)
    ensures i < n && Behind(states, calls, i, key, states[n].cache[key].reservation)
  {
    assert n > 0;
    assert StepAt(digest, accounts, states, calls, n - 1);
    if HasReserved(states[n - 1], key) && states[n].cache[key] == states[n - 1].cache[key] {
      i := CachedIsBacked(digest, accounts, states, calls, n - 1, key);
    } else {
      CachedByCall(digest, accounts, states[n - 1], calls[n - 1], states[n], key);
      i := n - 1;
    }
  }

  // ---------------------------------------------------------------- the reservation behind an order

  /** Call `j` stores an order. */
  predicate Orders(calls: seq<Call>, j: nat) {
    j < |calls| && calls[j].OrderCall? && calls[j].ordered.Ok?
  }

  /** An order carries its quote's figures and no partner fee, and the id of the reservation cached for it. */
  lemma OrderFigures(digest: Digest, accounts: set<string>, s: Service, call: Call, s': Service)
    requires CallStep(digest, accounts, s, call, s') && call.OrderCall? && call.ordered.Ok?
    ensures call.quoteId in s.cache && s.cache[call.quoteId].CachedQuote?
    ensures var order, quote := call.ordered.value, s.cache[call.quoteId].quote;
      && quote.expiresAt >= call.now && call.accountId in accounts
      && order.orderId == call.quoteId && order.accountId == call.accountId && order.status == InTransit
      && order.sendAmount == quote.sendAmount && order.receiveAmount == quote.receiveAmount
      && order.platformFee == quote.txFee && order.fxRevenue == quote.fxFee && order.partnerFee == 0
    ensures s'.orders == s.orders[call.quoteId := call.ordered.value] && call.quoteId !in s.orders
    ensures HasReserved(s', "res:" + call.key)
    ensures call.ordered.value.reservationId == s'.cache["res:" + call.key].reservation.reservationId
    ensures "res:" + call.key in s.cache ==> s'.cache == s.cache
  {
    DerivedKeys(call.key, call.key);
  }

  /** What the order's derived key holds before the call, if anything, is its own account and amount. */
  predicate KeyFitsOrder(s: Service, call: Call)
    requires call.OrderCall?
  {
    HasReserved(s, "res:" + call.key) ==>
      var r := s.cache["res:" + call.key].reservation;
      r.accountId == call.accountId && r.amount == AmountAsked(s, call)
  }

  /** Call `i` posted row number `row` of the log, the reservation behind the order of call `j`. */
  ghost predicate Backs(states: seq<Service>, calls: seq<Call>, i: nat, row: nat, j: nat)
    requires |states| == |calls| + 1 && Orders(calls, j)
  {
    && i <= j && KeyReserved(calls[i]) == Some("res:" + calls[j].key)
    && row == |states[i].ledger.entries| && row < |states[i + 1].ledger.entries|
    && ReserveRow(states[i + 1].ledger.entries[row], AccountAsked(calls[i]), AmountAsked(states[i], calls[i]),
                  calls[j].ordered.value.reservationId)
  }

  /** Behind every stored order stands a RESERVE row posted under its own derived key, whose reference is
      the order's reservation id; and it is of the order's account and amount exactly if what the key
      held before the order, if it held anything, was. */
  lemma OrderIsBacked(digest: Digest, accounts: set<string>, states: seq<Service>, calls: seq<Call>, j: nat)
    returns (i: nat, row: nat)
    requires IsRun(digest, accounts, states, calls) && states[0].cache == map[] && Orders(calls, j)
    ensures Backs(states, calls, i, row, j)
    ensures AccountAsked(calls[i]) == calls[j].ordered.value.accountId
         && AmountAsked(states[i], calls[i]) == calls[j].ordered.value.sendAmount
      <==> KeyFitsOrder(states[j], calls[j])
  {
    assert StepAt(digest, accounts, states, calls, j);
    OrderFigures(digest, accounts, states[j], calls[j], states[j + 1]);
    var key := "res:" + calls[j].key;
    i := CachedIsBacked(digest, accounts, states, calls, j + 1, key);
    row := |states[i].ledger.entries|;
    if key in states[j].cache {
      assert states[j + 1].cache[key] == states[j].cache[key];
    } else if i < j {
      KeyStaysCached(digest, accounts, states, calls, i, j, key);
    }
  }

  /** A call that posts a row under a key finds the key uncached and leaves it cached. */
  lemma PosterCaches(digest: Digest, accounts: set<string>, s: Service, call: Call, s': Service, key: string)
    requires CallStep(digest, accounts, s, call, s') && KeyReserved(call) == Some(key)
    requires s'.ledger != s.ledger
    ensures key !in s.cache && key in s'.cache
  {
    if call.OrderCall? {
      DerivedKeys(call.key, call.key);
      var reply, mid := OrderReserves(digest, accounts, s, call.key, call.quoteId, call.accountId, call.now, call.ordered, s');
    }
  }

  lemma {:induction false} KeysStay(
      digest: Digest, accounts: set<string>, states: seq<Service>, calls: seq<Call>, m: nat, n: nat, key: string)
    requires IsRun(digest, accounts, states, calls) && m <= n <= |calls| && key in states[m].cache
    ensures key in states[n].cache
    decreases n - m
  {
    if m < n {
      KeysStay(digest, accounts, states, calls, m, n - 1, key);
      assert StepAt(digest, accounts, states, calls, n - 1);
      CallReservesOnce(digest, accounts, states[n - 1], calls[n - 1], states[n], key);
    }
  }

  lemma KeyStaysCached(
      digest: Digest, accounts: set<string>, states: seq<Service>, calls: seq<Call>, i: nat, j: nat, key: string)
    requires IsRun(digest, accounts, states, calls) && i < j <= |calls|
    requires KeyReserved(calls[i]) == Some(key) && states[i + 1].ledger != states[i].ledger
    ensures key in states[j].cache
  {
    assert StepAt(digest, accounts, states, calls, i);
    PosterCaches(digest, accounts, states[i], calls[i], states[i + 1], key);
    KeysStay(digest, accounts, states, calls, i + 1, j, key);
  }

  /** The condition can fail: a key reserves for one quote, whose payout then fails, and an order under the
      same key on another quote is stored and paid out against that reservation. */
  lemma ReusedKeyUnderReserves(
      digest: Digest, key: string, now: int, quoteKey: string, quote: Quote, quoteKey': string, quote': Quote)
    returns (states: seq<Service>, calls: seq<Call>)
    requires Injective(digest) && 0 < quote.sendAmount < quote'.sendAmount
    requires quote.accountId == quote'.accountId && quote.expiresAt >= now && quote'.expiresAt >= now
    requires quoteKey' != quoteKey && quoteKey' != quote.quoteId && quote'.quoteId != quote.quoteId
    requires ReserveKey(key) != quoteKey && ReserveKey(key) != quote.quoteId
    requires ReserveKey(key) != quoteKey' && ReserveKey(key) != quote'.quoteId
    ensures IsRun(digest, {quote.accountId}, states, calls) && states[0] == Service(map[], map[], Initial())
    ensures |calls| == 4 && Orders(calls, 3) && calls[3].key == key && calls[3].ordered.value.sendAmount == quote'.sendAmount
    ensures |states[4].ledger.entries| == 1 && states[4].ledger.entries[0].posting.amount == quote.sendAmount
  {
    var acc := quote.accountId;
    states, calls := TwoQuotes(digest, quoteKey, quote, quoteKey', quote');
    var s2 := states[2];
    var e := CanPost(digest, s2.ledger, FundsReserved(acc, quote.sendAmount, "res_1"));
    var answer := CachedReservation(Reserved("res_1", acc, quote.sendAmount, e.id));
    var s3 := s2.(cache := s2.cache[ReserveKey(key) := answer], ledger := Post(s2.ledger, e));
    ReservesThenFails(digest, s2, key, quote, now, e, s3);
    var failed := OrderCall(key, quote.quoteId, acc, now, Err(PayoutFailed));
    OneMoreCall(digest, {acc}, states, calls, failed, s3);
    states, calls := states + [s3], calls + [failed];
    var order := Order(quote'.quoteId, acc, "res_1", InTransit, quote'.sendAmount, quote'.receiveAmount, quote'.txFee, 0,
                       quote'.fxFee);
    var s4 := s3.(orders := map[quote'.quoteId := order]);
    OrderOnCached(digest, s3, key, quote', now, answer, order, s4);
    var stored := OrderCall(key, quote'.quoteId, acc, now, Ok(order));
    OneMoreCall(digest, {acc}, states, calls, stored, s4);
    states, calls := states + [s4], calls + [stored];
  }

  lemma TwoQuotes(digest: Digest, quoteKey: string, quote: Quote, quoteKey': string, quote': Quote)
    returns (states: seq<Service>, calls: seq<Call>)
    requires quoteKey' != quoteKey && quoteKey' != quote.quoteId && quote'.quoteId != quote.quoteId
    ensures IsRun(digest, {quote.accountId}, states, calls) && |calls| == 2
    ensures states[0] == Service(map[], map[], Initial())
    ensures states[2].orders == map[] && states[2].ledger == Initial()
    ensures states[2].cache.Keys == {quoteKey, quote.quoteId, quoteKey', quote'.quoteId}
    ensures states[2].cache[quote.quoteId] == CachedQuote(quote) && states[2].cache[quote'.quoteId] == CachedQuote(quote')
  {
    var s0, c, c' := Service(map[], map[], Initial()), CachedQuote(quote), CachedQuote(quote');
    var s1 := s0.(cache := s0.cache[quoteKey := c][quote.quoteId := c]);
    var s2 := s1.(cache := s1.cache[quoteKey' := c'][quote'.quoteId := c']);
    states, calls := [s0, s1, s2], [QuoteCall(quoteKey, Ok(c)), QuoteCall(quoteKey', Ok(c'))];
    assert StepAt(digest, {quote.accountId}, states, calls, 0) && StepAt(digest, {quote.accountId}, states, calls, 1);
  }

  /** An order that reserves and whose payout then fails. */
  lemma ReservesThenFails(digest: Digest, s: Service, key: string, quote: Quote, now: int, e: Entry, s': Service)
    requires quote.quoteId in s.cache && s.cache[quote.quoteId] == CachedQuote(quote) && quote.expiresAt >= now
    requires ReserveKey(key) !in s.cache
    requires RowFor(digest, s.ledger, FundsReserved(quote.accountId, quote.sendAmount, "res_1"), e)
    requires var answer := CachedReservation(Reserved("res_1", quote.accountId, quote.sendAmount, e.id));
      s' == s.(cache := s.cache[ReserveKey(key) := answer], ledger := Post(s.ledger, e))
    ensures OrderStep(digest, {quote.accountId}, s, key, quote.quoteId, quote.accountId, now, Err(PayoutFailed), s')
  {
    var answer := CachedReservation(Reserved("res_1", quote.accountId, quote.sendAmount, e.id));
    assert ReserveStep(digest, {quote.accountId}, s, ReserveKey(key), quote.accountId, quote.sendAmount, Ok(answer), s');
  }

  /** An order on a reservation cached under its key. */
  lemma OrderOnCached(
      digest: Digest, s: Service, key: string, quote: Quote, now: int, answer: Cached, order: Order, s': Service)
    requires quote.quoteId in s.cache && s.cache[quote.quoteId] == CachedQuote(quote) && quote.expiresAt >= now
    requires ReserveKey(key) in s.cache && s.cache[ReserveKey(key)] == answer
    requires answer.CachedReservation? && answer.reservation.Reserved? && quote.quoteId !in s.orders
    requires order == Order(quote.quoteId, quote.accountId, answer.reservation.reservationId, InTransit, quote.sendAmount,
                            quote.receiveAmount, quote.txFee, 0, quote.fxFee)
    requires s' == s.(orders := s.orders[quote.quoteId := order])
    ensures OrderStep(digest, {quote.accountId}, s, key, quote.quoteId, quote.accountId, now, Ok(order), s')
  {
    assert ReserveStep(digest, {quote.accountId}, s, ReserveKey(key), quote.accountId, quote.sendAmount, Ok(answer), s);
  }

  // ---------------------------------------------------------------- different keys, different rows

  lemma {:induction false} SubsetGrows(digest: Digest, s: State, flows: seq<FlowEvent>, done: seq<bool>, s': State)
    requires |flows| == |done| && PostsSubset(digest, s, flows, done, s')
    ensures s.entries <= s'.entries
    decreases |flows|
  {
    if flows != [] {
      if done[0] {
        var e :| RowFor(digest, s, flows[0], e) && PostsSubset(digest, Post(s, e), flows[1..], done[1..], s');
        SubsetGrows(digest, Post(s, e), flows[1..], done[1..], s');
      } else {
        SubsetGrows(digest, s, flows[1..], done[1..], s');
      }
    }
  }

  lemma CallGrows(digest: Digest, accounts: set<string>, s: Service, call: Call, s': Service)
    requires CallStep(digest, accounts, s, call, s')
    ensures s.ledger.entries <= s'.ledger.entries
  {
    match call
    case FinalizeCall(orderId, ref, platformFee, partnerFee, chainOk, done, _) =>
      if orderId in s.orders && chainOk {
        SubsetGrows(digest, s.ledger, FinalFlows(s.orders[orderId], ref, platformFee, partnerFee), done, s'.ledger);
      }
    case SweepCall =>
      var steps :| OnlySweeps(steps) && Leads(digest, s.ledger, steps, s'.ledger);
      LogGrows(digest, s.ledger, steps, s'.ledger);
    case EventCall(_, _) =>
    case ReconcileCall(_, _, _) =>
    case _ =>
      if s'.ledger != s.ledger {
        var accountId, amount, reservationId, e := ReserveRowOf(digest, accounts, s, call, s');
      }
  }

  lemma {:induction false} LedgerGrows(
      digest: Digest, accounts: set<string>, states: seq<Service>, calls: seq<Call>, m: nat, n: nat)
    requires IsRun(digest, accounts, states, calls) && m <= n <= |calls|
    ensures states[m].ledger.entries <= states[n].ledger.entries
    decreases n - m
  {
    if m < n {
      LedgerGrows(digest, accounts, states, calls, m, n - 1);
      assert StepAt(digest, accounts, states, calls, n - 1);
      CallGrows(digest, accounts, states[n - 1], calls[n - 1], states[n]);
    }
  }

  /** The order of call `j` is backed by row `row` of the final log: a RESERVE row that carries the
      order's reservation id. */
  ghost predicate BackedBy(states: seq<Service>, calls: seq<Call>, j: nat, row: nat)
    requires |states| == |calls| + 1 && Orders(calls, j)
  {
    var entries := states[|calls|].ledger.entries;
    row < |entries| && entries[row].posting.kind == Reserve &&
    entries[row].posting.reference == calls[j].ordered.value.reservationId
  }

  /** Two orders stored under different keys are backed by different RESERVE rows of the final log, each of
      its own order's account and amount if the key was not used before for something else. */
  lemma DifferentKeysDifferentRows(
      digest: Digest, accounts: set<string>, states: seq<Service>, calls: seq<Call>, j: nat, j': nat)
    returns (row: nat, row': nat)
    requires IsRun(digest, accounts, states, calls) && states[0].cache == map[]
    requires Orders(calls, j) && Orders(calls, j') && calls[j].key != calls[j'].key
    ensures row != row' && BackedBy(states, calls, j, row) && BackedBy(states, calls, j', row')
    ensures KeyFitsOrder(states[j], calls[j]) ==>
      var order := calls[j].ordered.value;
      ReserveRow(states[|calls|].ledger.entries[row], order.accountId, order.sendAmount, order.reservationId)
    ensures KeyFitsOrder(states[j'], calls[j']) ==>
      var order := calls[j'].ordered.value;
      ReserveRow(states[|calls|].ledger.entries[row'], order.accountId, order.sendAmount, order.reservationId)
  {
    var i, i';
    i, row := BackedInTheEnd(digest, accounts, states, calls, j);
    i', row' := BackedInTheEnd(digest, accounts, states, calls, j');
    DerivedKeys(calls[j].key, calls[j'].key);
    if i < i' {
      LedgerGrows(digest, accounts, states, calls, i + 1, i');
    } else {
      LedgerGrows(digest, accounts, states, calls, i' + 1, i);
    }
  }

  lemma BackedInTheEnd(digest: Digest, accounts: set<string>, states: seq<Service>, calls: seq<Call>, j: nat)
    returns (i: nat, row: nat)
    requires IsRun(digest, accounts, states, calls) && states[0].cache == map[] && Orders(calls, j)
    ensures Backs(states, calls, i, row, j) && BackedBy(states, calls, j, row)
    ensures KeyFitsOrder(states[j], calls[j]) ==>
      var order := calls[j].ordered.value;
      ReserveRow(states[|calls|].ledger.entries[row], order.accountId, order.sendAmount, order.reservationId)
  {
    i, row := OrderIsBacked(digest, accounts, states, calls, j);
    LedgerGrows(digest, accounts, states, calls, i + 1, |calls|);
    assert states[|calls|].ledger.entries[row] == states[i + 1].ledger.entries[row];
  }

  // ---------------------------------------------------------------- how many rows

  /** The order keys whose reservation posted. */
  ghost function PostedKeys(states: seq<Service>, calls: seq<Call>): set<string>
    requires |states| == |calls| + 1
    decreases |calls|
  {
    if calls == [] then {}
    else
      var n := |calls| - 1;
      PostedKeys(states[..n + 1], calls[..n]) +
      if calls[n].OrderCall? && states[n + 1].ledger != states[n].ledger then {calls[n].key} else {}
  }

  lemma RowCounts(digest: Digest, s: State, f: FlowEvent, e: Entry)
    requires RowFor(digest, s, f, e)
    ensures ReserveRows(Post(s, e).entries) == ReserveRows(s.entries) + if f.FundsReserved? then 1 else 0
  {
    assert Post(s, e).entries[..|s.entries|] == s.entries;
    assert e.posting.kind == PostingOf(f, "").kind;
  }

  lemma {:induction false} SubsetCounts(digest: Digest, s: State, flows: seq<FlowEvent>, done: seq<bool>, s': State)
    requires |flows| == |done| && PostsSubset(digest, s, flows, done, s') && forall f | f in flows :: !f.FundsReserved?
    ensures ReserveRows(s'.entries) == ReserveRows(s.entries)
    decreases |flows|
  {
    if flows != [] {
      if done[0] {
        var e :| RowFor(digest, s, flows[0], e) && PostsSubset(digest, Post(s, e), flows[1..], done[1..], s');
        RowCounts(digest, s, flows[0], e);
        SubsetCounts(digest, Post(s, e), flows[1..], done[1..], s');
      } else {
        SubsetCounts(digest, s, flows[1..], done[1..], s');
      }
    }
  }

  lemma {:induction false} SweepsCount(digest: Digest, s: State, steps: seq<Step>, s': State)
    requires Leads(digest, s, steps, s') && OnlySweeps(steps)
    ensures ReserveRows(s'.entries) == ReserveRows(s.entries)
    decreases |steps|
  {
    if steps != [] {
      assert steps[0] in steps && OnlySweeps(steps[1..]);
      var s1 := Do(digest, s, steps[0]);
      assert s1.entries[..|s.entries|] == s.entries;
      SweepsCount(digest, s1, steps[1..], s');
    }
  }

  /** A call that does not reserve adds no RESERVE row. */
  lemma OthersCountNone(digest: Digest, accounts: set<string>, s: Service, call: Call, s': Service)
    requires CallStep(digest, accounts, s, call, s') && KeyReserved(call).None?
    ensures ReserveRows(s'.ledger.entries) == ReserveRows(s.ledger.entries)
  {
    match call
    case FinalizeCall(orderId, ref, platformFee, partnerFee, chainOk, done, _) =>
      if orderId in s.orders && chainOk {
        SubsetCounts(digest, s.ledger, FinalFlows(s.orders[orderId], ref, platformFee, partnerFee), done, s'.ledger);
      }
    case SweepCall =>
      var steps :| OnlySweeps(steps) && Leads(digest, s.ledger, steps, s'.ledger);
      SweepsCount(digest, s.ledger, steps, s'.ledger);
    case EventCall(event, posted) => AttemptCountsNone(digest, s.ledger, event, posted, s'.ledger);
    case ReconcileCall(onChainTotal, reference, posted) =>
      if posted {
        var f := DeltaAdjusted(Abs(Judge(UserTotal(s.ledger.snapshots), onChainTotal).delta), reference);
        AttemptCountsNone(digest, s.ledger, f, posted, s'.ledger);
      }
    case _ =>
  }

  lemma AttemptCountsNone(digest: Digest, s: State, f: FlowEvent, posted: bool, s': State)
    requires Attempt(digest, s, f, posted, s') && !f.FundsReserved?
    ensures ReserveRows(s'.entries) == ReserveRows(s.entries)
  {
    if posted {
      var e :| RowFor(digest, s, f, e) && s' == Post(s, e);
      RowCounts(digest, s, f, e);
    }
  }

  lemma ReserverCountsOne(digest: Digest, accounts: set<string>, s: Service, call: Call, s': Service)
    requires CallStep(digest, accounts, s, call, s') && call.OrderCall? && s'.ledger != s.ledger
    ensures ReserveRows(s'.ledger.entries) == ReserveRows(s.ledger.entries) + 1
  {
    var accountId, amount, reservationId, e := ReserveRowOf(digest, accounts, s, call, s');
    RowCounts(digest, s.ledger, FundsReserved(accountId, amount, reservationId), e);
  }

  /** Over any run without reservations made directly, whatever else it holds, there are exactly as many
      new RESERVE rows as order keys whose reservation posted, and those keys stay cached. */
  lemma {:induction false} OneRowPerOrderKey(
      digest: Digest, accounts: set<string>, states: seq<Service>, calls: seq<Call>)
    requires IsRun(digest, accounts, states, calls) && forall c | c in calls :: !c.ReserveCall?
    ensures ReserveRows(states[|calls|].ledger.entries) ==
      ReserveRows(states[0].ledger.entries) + |PostedKeys(states, calls)|
    ensures forall key | key in PostedKeys(states, calls) :: "res:" + key in states[|calls|].cache
    decreases |calls|
  {
    if calls != [] {
      var n := |calls| - 1;
      var s, call, s' := states[n], calls[n], states[n + 1];
      RunPrefix(digest, accounts, states, calls);
      OneRowPerOrderKey(digest, accounts, states[..n + 1], calls[..n]);
      var posted := PostedKeys(states[..n + 1], calls[..n]);
      assert StepAt(digest, accounts, states, calls, n) && call in calls;
      CallCounts(digest, accounts, s, call, s');
      forall key | key in posted ensures "res:" + key in s'.cache {
        CallReservesOnce(digest, accounts, s, call, s', "");
      }
      assert PostedKeys(states, calls) == posted + if PostsOrder(s, call, s') then {call.key} else {};
    }
  }

  ghost predicate PostsOrder(s: Service, call: Call, s': Service) {
    call.OrderCall? && s'.ledger != s.ledger
  }

  /** An order that posts adds one RESERVE row, under a key not cached before; other calls add none. */
  lemma CallCounts(digest: Digest, accounts: set<string>, s: Service, call: Call, s': Service)
    requires CallStep(digest, accounts, s, call, s') && !call.ReserveCall?
    ensures ReserveRows(s'.ledger.entries) == ReserveRows(s.ledger.entries) + if PostsOrder(s, call, s') then 1 else 0
    ensures PostsOrder(s, call, s') ==> "res:" + call.key !in s.cache && "res:" + call.key in s'.cache
  {
    if PostsOrder(s, call, s') {
      ReserverCountsOne(digest, accounts, s, call, s');
      PosterCaches(digest, accounts, s, call, s', "res:" + call.key);
    } else if !call.OrderCall? {
      OthersCountNone(digest, accounts, s, call, s');
    }
  }
}
