/**
 The treasury service's calls as relations between states, and what they keep over any sequential
 run of calls with retries: one RESERVE per idempotency key, and stable cached answers.
 */
module TreasuryFlows {
  import opened Prelude
  import opened Ledger
  import opened Totals
  import opened LedgerService

  datatype Quote = Quote(
    quoteId: string, accountId: string, sendAmount: int, txFee: int, fxFee: int, receiveAmount: int, expiresAt: int)

  datatype Reservation =
    | Reserved(reservationId: string, accountId: string, amount: int, ledgerEntryId: string)
    | Refused(accountId: string, amount: int, failureReason: string)

  /** The values of the one idempotency cache shared by reservations and quotes. */
  datatype Cached = CachedQuote(quote: Quote) | CachedReservation(reservation: Reservation)

  datatype OrderStatus = InTransit | Settled

  datatype Order = Order(
    orderId: string, accountId: string, reservationId: string, status: OrderStatus,
    sendAmount: int, receiveAmount: int, platformFee: int, partnerFee: int, fxRevenue: int)

  datatype Error =
    | AccountNotFound | ChainCallFailed | PostFailed(cause: PostError) | QuoteFailed
    | QuoteNotFound | QuoteExpired | ReservationFailed | PayoutFailed | OrderNotStored | OrderNotFound | FinalizationIncomplete

  /** The service's in-memory cache, the order table and the ledger tables. */
  datatype Service = Service(cache: map<string, Cached>, orders: map<string, Order>, ledger: State)

  /** What one `reserveFunds` call may do. A cached answer is returned; a refused screening is
      cached; a failure records nothing; success posts one RESERVE entry and caches the answer. */
  ghost predicate ReserveStep(
      digest: Digest, accounts: set<string>, s: Service, key: string, accountId: string, amount: int,
      resp: Result<Cached, Error>, s': Service)
  {
    if key in s.cache then resp == Ok(s.cache[key]) && s' == s
    else if accountId !in accounts then resp == Err(AccountNotFound) && s' == s
    else if resp.Err? then s' == s
    else
      resp.value.CachedReservation? &&
      s'.cache == s.cache[key := resp.value] && s'.orders == s.orders &&
      match resp.value.reservation
      case Refused(acc, amt, _) => acc == accountId && amt == amount && s'.ledger == s.ledger
      case Reserved(reservationId, acc, amt, entryId) =>
        acc == accountId && amt == amount &&
        exists e :: RowFor(digest, s.ledger, FundsReserved(accountId, amount, reservationId), e) &&
                    e.id == entryId && s'.ledger == Post(s.ledger, e)
  }

  /** What one `buildQuote` call may do: the quote is cached under its key and under its own id. */
  ghost predicate QuoteStep(s: Service, key: string, resp: Result<Cached, Error>, s': Service) {
    if key in s.cache then resp == Ok(s.cache[key]) && s' == s
    else if resp.Err? then s' == s
    else
      resp.value.CachedQuote? &&
      s' == s.(cache := s.cache[key := resp.value][resp.value.quote.quoteId := resp.value])
  }

  function ReserveKey(orderKey: string): string {
    "res:" + orderKey
  }

  /** What one `createOrder` call may do: find the quote, reserve under a derived key, pay out, store the
      order, whose id must be new and whose account must exist. A failure after the reservation keeps
      the reservation. */
  ghost predicate OrderStep(
      digest: Digest, accounts: set<string>, s: Service, key: string, quoteId: string, accountId: string, now: int,
      resp: Result<Order, Error>, s': Service)
  {
    if quoteId !in s.cache || !s.cache[quoteId].CachedQuote? then resp == Err(QuoteNotFound) && s' == s
    else
      var quote := s.cache[quoteId].quote;
      if quote.expiresAt < now then resp == Err(QuoteExpired) && s' == s
      else
        exists reply, mid ::
          ReserveStep(digest, accounts, s, ReserveKey(key), accountId, quote.sendAmount, reply, mid) &&
          if reply.Err? then resp == Err(reply.error) && s' == mid
          else if !(reply.value.CachedReservation? && reply.value.reservation.Reserved?)
            then resp == Err(ReservationFailed) && s' == mid
          else if resp.Err? then s' == mid
          else
            quoteId !in mid.orders && accountId in accounts && s' == mid.(orders := mid.orders[quoteId := resp.value]) &&
            resp.value == Order(quoteId, accountId, reply.value.reservation.reservationId, InTransit,
                                quote.sendAmount, quote.receiveAmount, quote.txFee, 0, quote.fxFee)
  }

  function FinalFlows(order: Order, settlementRef: string, platformFee: int, partnerFee: int): seq<FlowEvent> {
    [OrderSettled(order.accountId, settlementRef, order.sendAmount, order.orderId),
     PlatformFeeTaken(order.accountId, platformFee, order.orderId),
     PartnerFeeTaken(order.accountId, partnerFee, order.orderId)]
  }

  /** `s'` is `s` after the postings of `flows` whose flag in `done` is set, in that order. */
  ghost predicate PostsSubset(digest: Digest, s: State, flows: seq<FlowEvent>, done: seq<bool>, s': State)
    requires |flows| == |done|
    decreases |flows|
  {
    if flows == [] then s' == s
    else if !done[0] then PostsSubset(digest, s, flows[1..], done[1..], s')
    else exists e :: RowFor(digest, s, flows[0], e) && PostsSubset(digest, Post(s, e), flows[1..], done[1..], s')
  }

  lemma AttemptThenRest(
      digest: Digest, s: State, f: FlowEvent, ok: bool, s': State, flows: seq<FlowEvent>, done: seq<bool>, s'': State)
    requires |flows| == |done| && Attempt(digest, s, f, ok, s') && PostsSubset(digest, s', flows, done, s'')
    ensures PostsSubset(digest, s, [f] + flows, [ok] + done, s'')
  {
  }

  lemma ThreeAttempts(
      digest: Digest, s0: State, f0: FlowEvent, ok0: bool, s1: State, f1: FlowEvent, ok1: bool, s2: State,
      f2: FlowEvent, ok2: bool, s3: State)
    requires Attempt(digest, s0, f0, ok0, s1) && Attempt(digest, s1, f1, ok1, s2) && Attempt(digest, s2, f2, ok2, s3)
    ensures PostsSubset(digest, s0, [f0, f1, f2], [ok0, ok1, ok2], s3)
  {
    AttemptThenRest(digest, s2, f2, ok2, s3, [], [], s3);
    assert [f2] + [] == [f2] && [ok2] + [] == [ok2];
    AttemptThenRest(digest, s1, f1, ok1, s2, [f2], [ok2], s3);
    assert [f1] + [f2] == [f1, f2] && [ok1] + [ok2] == [ok1, ok2];
    AttemptThenRest(digest, s0, f0, ok0, s1, [f1, f2], [ok1, ok2], s3);
    assert [f0] + [f1, f2] == [f0, f1, f2] && [ok0] + [ok1, ok2] == [ok0, ok1, ok2];
  }

  function AmountOf(f: FlowEvent): int {
    PostingOf(f, "").amount
  }

  /** What one `finalizeOrder` call may do: after the chain call, each of its three postings goes
      through or not, and the order settles exactly if all three did. */
  ghost predicate FinalizeStep(
      digest: Digest, s: Service, orderId: string, settlementRef: string, platformFee: int, partnerFee: int,
      chainOk: bool, done: seq<bool>, resp: Result<(), Error>, s': Service)
  {
    |done| == 3 &&
    if orderId !in s.orders then resp == Err(OrderNotFound) && s' == s
    else if !chainOk then resp == Err(ChainCallFailed) && s' == s
    else
      && PostsSubset(digest, s.ledger, FinalFlows(s.orders[orderId], settlementRef, platformFee, partnerFee), done, s'.ledger)
      && (if done == [true, true, true] then resp == Ok(()) else resp == Err(FinalizationIncomplete))
      && s'.cache == s.cache
      && s'.orders == if resp.Ok? then s.orders[orderId := s.orders[orderId].(status := Settled)] else s.orders
  }

  /** What one chain event may do: post its row, or nothing. */
  ghost predicate EventStep(digest: Digest, s: Service, event: FlowEvent, posted: bool, s': Service) {
    (event.DepositProcessed? || event.YieldAccrued?) &&
    s'.cache == s.cache && s'.orders == s.orders && Attempt(digest, s.ledger, event, posted, s'.ledger)
  }

  /** A run of the expiry sweep, seen from the ledger: it inserts RELEASE rows. */
  ghost predicate SweepStep(digest: Digest, s: Service, s': Service) {
    s'.cache == s.cache && s'.orders == s.orders && SweepsLead(digest, s.ledger, s'.ledger)
  }

  /** One snapshot-based reconciliation. */
  ghost predicate ReconcileStep(
      digest: Digest, s: Service, onChainTotal: int, reference: string, posted: bool, s': Service)
  {
    s'.cache == s.cache && s'.orders == s.orders &&
    Reconciled(digest, s.ledger, onChainTotal, reference, posted, s'.ledger)
  }

  datatype Call =
    | ReserveCall(key: string, accountId: string, amount: int, reserved: Result<Cached, Error>)
    | QuoteCall(key: string, quoted: Result<Cached, Error>)
    | OrderCall(key: string, quoteId: string, accountId: string, now: int, ordered: Result<Order, Error>)
    | FinalizeCall(orderId: string, settlementRef: string, platformFee: int, partnerFee: int, chainOk: bool,
                   done: seq<bool>, finalized: Result<(), Error>)
    | EventCall(event: FlowEvent, posted: bool)
    | SweepCall
    | ReconcileCall(onChainTotal: int, reference: string, posted: bool)

  ghost predicate CallStep(digest: Digest, accounts: set<string>, s: Service, call: Call, s': Service) {
    match call
    case ReserveCall(key, acc, amount, resp) => ReserveStep(digest, accounts, s, key, acc, amount, resp, s')
    case QuoteCall(key, resp) => QuoteStep(s, key, resp, s')
    case OrderCall(key, quoteId, acc, now, resp) => OrderStep(digest, accounts, s, key, quoteId, acc, now, resp, s')
    case FinalizeCall(orderId, ref, platformFee, partnerFee, chainOk, done, resp) =>
      FinalizeStep(digest, s, orderId, ref, platformFee, partnerFee, chainOk, done, resp, s')
    case EventCall(event, posted) => EventStep(digest, s, event, posted, s')
    case SweepCall => SweepStep(digest, s, s')
    case ReconcileCall(onChainTotal, reference, posted) => ReconcileStep(digest, s, onChainTotal, reference, posted, s')
  }

  ghost predicate StepAt(digest: Digest, accounts: set<string>, states: seq<Service>, calls: seq<Call>, i: nat)
    requires |states| == |calls| + 1 && i < |calls|
  {
    CallStep(digest, accounts, states[i], calls[i], states[i + 1])
  }

  /** A sequential run: `states[i]` is the state before `calls[i]`. */
  ghost predicate IsRun(digest: Digest, accounts: set<string>, states: seq<Service>, calls: seq<Call>) {
    |states| == |calls| + 1 &&
    forall i: nat | i < |calls| :: StepAt(digest, accounts, states, calls, i)
  }

  // ---------------------------------------------------------------- one RESERVE per key

  /** The cache key a call reserves under, if it is a reserving call. */
  function ReservesUnder(call: Call): Option<string> {
    match call
    case ReserveCall(key, _, _, _) => Some(key)
    case OrderCall(key, _, _, _, _) => Some(ReserveKey(key))
    case _ => None
  }

  function ReserveRows(entries: seq<Entry>): nat {
    if entries == [] then 0
    else ReserveRows(entries[..|entries| - 1]) + if entries[|entries| - 1].posting.kind == Reserve then 1 else 0
  }

  /** How many RESERVE entries calls under `key` added during a run. */
  ghost function ReservedUnder(states: seq<Service>, calls: seq<Call>, key: string): int
    requires |states| == |calls| + 1
    decreases |calls|
  {
    if calls == [] then 0
    else
      ReservedUnder(states[..|calls|], calls[..|calls| - 1], key) +
      if ReservesUnder(calls[|calls| - 1]) == Some(key)
      then ReserveRows(states[|calls|].ledger.entries) - ReserveRows(states[|calls| - 1].ledger.entries)
      else 0
  }

  lemma RunPrefix(digest: Digest, accounts: set<string>, states: seq<Service>, calls: seq<Call>)
    requires IsRun(digest, accounts, states, calls) && calls != []
    ensures IsRun(digest, accounts, states[..|calls|], calls[..|calls| - 1])
    ensures states[..|calls|][|calls| - 1] == states[|calls| - 1]
  {
    var n := |calls| - 1;
    var shorter, first := states[..n + 1], calls[..n];
    forall i: nat | i < n ensures StepAt(digest, accounts, shorter, first, i) {
      assert StepAt(digest, accounts, states, calls, i);
    }
  }

  lemma ReserveAddsOnce(
      digest: Digest, accounts: set<string>, s: Service, key: string, accountId: string, amount: int,
      resp: Result<Cached, Error>, s': Service)
    requires ReserveStep(digest, accounts, s, key, accountId, amount, resp, s')
    ensures s.cache.Keys <= s'.cache.Keys
    ensures var added := ReserveRows(s'.ledger.entries) - ReserveRows(s.ledger.entries);
      0 <= added <= 1 && (added == 1 ==> key !in s.cache && key in s'.cache)
  {
    if s'.ledger != s.ledger {
      assert s'.ledger.entries[..|s.ledger.entries|] == s.ledger.entries;
    }
  }

  /** One call adds at most one RESERVE row, only if its key is not cached, and then caches it. */
  lemma CallReservesOnce(digest: Digest, accounts: set<string>, s: Service, call: Call, s': Service, key: string)
    requires CallStep(digest, accounts, s, call, s')
    ensures s.cache.Keys <= s'.cache.Keys
    ensures ReservesUnder(call) == Some(key) ==>
      var added := ReserveRows(s'.ledger.entries) - ReserveRows(s.ledger.entries);
      0 <= added <= 1 && (added == 1 ==> key !in s.cache && key in s'.cache)
  {
    match call
    case ReserveCall(k, acc, amount, resp) => ReserveAddsOnce(digest, accounts, s, k, acc, amount, resp, s');
    case OrderCall(k, quoteId, acc, now, resp) =>
      if s'.ledger != s.ledger {
        var reply, mid := OrderReserves(digest, accounts, s, k, quoteId, acc, now, resp, s');
        ReserveAddsOnce(digest, accounts, s, ReserveKey(k), acc, s.cache[quoteId].quote.sendAmount, reply, mid);
      }
    case _ =>
  }

  /** An order with a live quote reserves its amount and changes cache and ledger in no other way. */
  lemma OrderReserves(
      digest: Digest, accounts: set<string>, s: Service, key: string, quoteId: string, accountId: string, now: int,
      resp: Result<Order, Error>, s': Service)
    returns (reply: Result<Cached, Error>, mid: Service)
    requires OrderStep(digest, accounts, s, key, quoteId, accountId, now, resp, s') && s' != s
    ensures quoteId in s.cache && s.cache[quoteId].CachedQuote?
    ensures ReserveStep(digest, accounts, s, ReserveKey(key), accountId, s.cache[quoteId].quote.sendAmount, reply, mid)
    ensures s'.ledger == mid.ledger && s'.cache == mid.cache
  {
    reply, mid :|
      ReserveStep(digest, accounts, s, ReserveKey(key), accountId, s.cache[quoteId].quote.sendAmount, reply, mid) &&
      s'.ledger == mid.ledger && s'.cache == mid.cache;
  }

  /** Over any run of calls with any retries, a reservation key posts at most one RESERVE entry,
      and once it has, the key is cached. This needs no assumption on how cache keys are chosen. */
  lemma {:induction false} AtMostOneReservePerKey(
      digest: Digest, accounts: set<string>, states: seq<Service>, calls: seq<Call>, key: string)
    requires IsRun(digest, accounts, states, calls)
    ensures 0 <= ReservedUnder(states, calls, key) <= 1
    ensures ReservedUnder(states, calls, key) == 1 ==> key in states[|calls|].cache
    decreases |calls|
  {
    if calls != [] {
      var n := |calls|;
      RunPrefix(digest, accounts, states, calls);
      AtMostOneReservePerKey(digest, accounts, states[..n], calls[..n - 1], key);
      assert StepAt(digest, accounts, states, calls, n - 1);
      CallReservesOnce(digest, accounts, states[n - 1], calls[n - 1], states[n], key);
    }
  }

  // ---------------------------------------------------------------- what is recorded

  /** An answer is cached under its key, a quote also under its own id, and nothing else in the cache changes;
      a failed call caches nothing, except an order's reservation. */
  lemma AnswersAreCached(digest: Digest, accounts: set<string>, s: Service, call: Call, s': Service, other: string)
    requires CallStep(digest, accounts, s, call, s')
    ensures call.ReserveCall? ==>
      (call.reserved.Ok? ==> call.key in s'.cache && s'.cache[call.key] == call.reserved.value) &&
      (call.reserved.Err? || call.key in s.cache ==> s' == s) &&
      (other != call.key ==> (other in s'.cache <==> other in s.cache) && (other in s.cache ==> s'.cache[other] == s.cache[other]))
    ensures call.QuoteCall? ==>
      (call.quoted.Ok? ==> call.key in s'.cache && s'.cache[call.key] == call.quoted.value) &&
      (call.quoted.Err? || call.key in s.cache ==> s' == s) &&
      (call.quoted.Ok? && call.key !in s.cache ==>
        call.quoted.value.CachedQuote? && call.quoted.value.quote.quoteId in s'.cache &&
        s'.cache[call.quoted.value.quote.quoteId] == call.quoted.value && s'.ledger == s.ledger && s'.orders == s.orders)
    ensures !call.ReserveCall? && !call.QuoteCall? && !call.OrderCall? ==> s'.cache == s.cache
  {
  }

  // ---------------------------------------------------------------- stable answers

  /** Call `i` freshly builds a quote whose own id is `key`. */
  ghost predicate Overwrites(states: seq<Service>, calls: seq<Call>, i: nat, key: string)
    requires i < |calls| && i < |states|
  {
    calls[i].QuoteCall? && calls[i].quoted.Ok? && calls[i].key !in states[i].cache &&
    calls[i].quoted.value.CachedQuote? && calls[i].quoted.value.quote.quoteId == key
  }

  lemma CallKeepsReservation(
      digest: Digest, accounts: set<string>, states: seq<Service>, calls: seq<Call>, i: nat, key: string)
    requires IsRun(digest, accounts, states, calls) && i < |calls| && key in states[i].cache
    ensures key in states[i + 1].cache
    ensures if Overwrites(states, calls, i, key) then states[i + 1].cache[key].CachedQuote?
            else states[i + 1].cache[key] == states[i].cache[key]
  {
    assert StepAt(digest, accounts, states, calls, i);
  }

  /** Once a reservation is cached under a key, every later reserve call with that key returns
      exactly that answer, if and only if no quote built in between has the key as its quote id. */
  lemma {:induction false} RepeatsReturnTheCachedAnswer(
      digest: Digest, accounts: set<string>, states: seq<Service>, calls: seq<Call>, i: nat, j: nat,
      key: string, answer: Reservation)
    requires IsRun(digest, accounts, states, calls) && i <= j < |calls|
    requires key in states[i].cache && states[i].cache[key] == CachedReservation(answer)
    ensures key in states[j].cache
    ensures states[j].cache[key] == CachedReservation(answer)
      <==> forall t | i <= t < j :: !Overwrites(states, calls, t, key)
    ensures calls[j].ReserveCall? && calls[j].key == key ==>
      calls[j].reserved == Ok(states[j].cache[key]) && states[j + 1] == states[j]
    ensures states[j].cache[key].CachedReservation? ==> states[j].cache[key] == CachedReservation(answer)
    decreases j - i
  {
    assert StepAt(digest, accounts, states, calls, j);
    if i < j {
      RepeatsReturnTheCachedAnswer(digest, accounts, states, calls, i, j - 1, key, answer);
      CallKeepsReservation(digest, accounts, states, calls, j - 1, key);
    }
  }

  /** A quote can overwrite a reservation under any key: funds reserved and posted under it, then a quote
      built whose own id is that key, and the retry of the reservation is answered with the quote. */
  lemma QuoteOverwritesReservation(digest: Digest, key: string, other: string)
    returns (states: seq<Service>, calls: seq<Call>)
    requires key != other
    ensures |calls| == 3 && IsRun(digest, {"pta-1"}, states, calls)
    ensures states[0] == Service(map[], map[], Initial())
    ensures calls[0].ReserveCall? && calls[0].key == key && calls[0].reserved.Ok? && calls[0].reserved.value.CachedReservation?
    ensures |states[1].ledger.entries| == 1 && Overwrites(states, calls, 1, key)
    ensures calls[2].ReserveCall? && calls[2].key == key && calls[2].reserved.Ok? && calls[2].reserved.value.CachedQuote?
  {
    var reserved := FundsReserved("pta-1", 1_000_000, "res_1");
    var e := MakeEntry(digest, PostingOf(reserved, "{}"), "ent_1", ZERO_HASH, 0, 0);
    var answer := CachedReservation(Reserved("res_1", "pta-1", 1_000_000, "ent_1"));
    var quote := CachedQuote(Quote(key, "pta-1", 1_000_000, 250_000, 2_500, 41_000_000, 300_000));
    var s0 := Service(map[], map[], Initial());
    var s1 := Service(map[key := answer], map[], Post(Initial(), e));
    var s2 := s1.(cache := s1.cache[other := quote][key := quote]);
    states := [s0, s1, s2, s2];
    calls := [ReserveCall(key, "pta-1", 1_000_000, Ok(answer)), QuoteCall(other, Ok(quote)),
              ReserveCall(key, "pta-1", 1_000_000, Ok(quote))];
    assert RowFor(digest, s0.ledger, reserved, e);
    assert CallStep(digest, {"pta-1"}, s0, calls[0], s1);
    assert CallStep(digest, {"pta-1"}, s1, calls[1], s2);
    assert CallStep(digest, {"pta-1"}, s2, calls[2], s2);
  }
}
