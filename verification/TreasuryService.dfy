/**
 The treasury service: its methods read and write the idempotency cache and call the ledger in
 sequence. Outcomes of the chain, screening, FX and payout calls are parameters.
 */
module TreasuryService {
  import opened Prelude
  import opened Ledger
  import opened Totals
  import opened L = LedgerService
  import opened TreasuryFlows
  import R = Remittance

  /** The ledger-side inputs of one post: row id, clock readings, and whether the database works. */
  datatype PostEnv = PostEnv(id: string, ts: nat, createdAt: nat, dbOk: bool)

  /** A posting with this environment meets no obstacle but its amount: the log is as every reachable
      log is, the database works and the row id is fresh. */
  ghost predicate Unhindered(digest: Digest, entries: seq<Entry>, env: PostEnv) {
    Healthy(digest, entries) && env.dbOk && FreshId(entries, env.id)
  }

  /** All three postings of a finalization are unhindered, and their row ids differ. */
  ghost predicate AllUnhindered(digest: Digest, entries: seq<Entry>, envs: seq<PostEnv>) {
    (forall env | env in envs :: Unhindered(digest, entries, env)) &&
    forall i, j | 0 <= i < j < |envs| :: envs[i].id != envs[j].id
  }

  predicate LiveQuote(cache: map<string, Cached>, quoteId: string, now: int) {
    quoteId in cache && cache[quoteId].CachedQuote? && cache[quoteId].quote.expiresAt >= now
  }

  predicate IsReserved(c: Cached) {
    c.CachedReservation? && c.reservation.Reserved?
  }

  class TreasuryService {
    const ledger: L.LedgerService
    const accounts: set<string>
    var cache: map<string, Cached>
    var orders: map<string, Order>

    ghost function State(): Service
      reads this, ledger
    {
      Service(cache, orders, ledger.Tables())
    }

    constructor (ledger: L.LedgerService, accounts: set<string>)
      ensures this.ledger == ledger && this.accounts == accounts
      ensures cache == map[] && orders == map[]
    {
      this.ledger := ledger;
      this.accounts := accounts;
      cache, orders := map[], map[];
    }

    /** Post one flow; failing leaves the ledger as it was, and unhindered it fails exactly for its
        amount. */
    method PostFlow(f: FlowEvent, metadata: string, tx: nat, env: PostEnv) returns (r: Result<Entry, PostError>)
      requires tx !in ledger.pending
      modifies ledger
      ensures r.Err? ==> ledger.Tables() == old(ledger.Tables())
      ensures r.Ok? ==> RowFor(ledger.digest, old(ledger.Tables()), f, r.value) && r.value.id == env.id
      ensures r.Ok? ==> ledger.Tables() == Post(old(ledger.Tables()), r.value)
      ensures Attempt(ledger.digest, old(ledger.Tables()), f, r.Ok?, ledger.Tables())
      ensures r == Err(InvalidAmount) <==> AmountOf(f) <= 0
      ensures !env.dbOk ==> r.Err?
      ensures Unhindered(ledger.digest, old(ledger.entries), env) ==> (r.Ok? <==> AmountOf(f) > 0)
      ensures Healthy(ledger.digest, old(ledger.entries)) ==> Healthy(ledger.digest, ledger.entries)
      ensures tx !in ledger.pending
    {
      var p := PostingOf(f, metadata);
      if Unhindered(ledger.digest, ledger.entries, env) {
        FreshIdNoConflict(ledger.digest, ledger.entries, p, env.id, env.ts, env.createdAt);
      }
      ghost var before := ledger.entries;
      r := ledger.PostEntry(tx, p, env.id, env.ts, env.createdAt, env.dbOk);
      if r.Ok? && Healthy(ledger.digest, before) {
        InsertKeepsHealthy(ledger.digest, before, r.value);
      }
    }

    /** Reserve for an outgoing transfer. `screening` is a refusal reason, if any; `onChain` the
        reservation id of the confirmed chain call, if it succeeded. */
    method ReserveFunds(
        key: string, accountId: string, amount: int, screening: Option<string>, onChain: Option<string>,
        tx: nat, env: PostEnv)
      returns (r: Result<Cached, Error>)
      requires tx !in ledger.pending
      modifies this`cache, ledger
      ensures ReserveStep(ledger.digest, accounts, old(State()), key, accountId, amount, r, State())
      ensures key !in old(cache) && accountId in accounts ==>
        && (screening.Some? ==> r == Ok(CachedReservation(Refused(accountId, amount, screening.value))))
        && (screening.None? && onChain.None? ==> r == Err(ChainCallFailed))
        && (screening.None? && onChain.Some? && amount <= 0 ==> r == Err(PostFailed(InvalidAmount)))
        && (r.Ok? && screening.None? ==> onChain.Some?)
        && (screening.None? && onChain.Some? && Unhindered(ledger.digest, old(ledger.entries), env) ==>
              (r.Ok? <==> amount > 0))
        && (r.Ok? && screening.None? ==>
              r.value == CachedReservation(Reserved(onChain.value, accountId, amount, env.id)))
      ensures tx !in ledger.pending
    {
      if key in cache {
        return Ok(cache[key]);
      }
      if accountId !in accounts {
        return Err(AccountNotFound);
      }
      if screening.Some? {
        var refusal := CachedReservation(Refused(accountId, amount, screening.value));
        cache := cache[key := refusal];
        return Ok(refusal);
      }
      if onChain.None? {
        return Err(ChainCallFailed);
      }
      var posted := PostFlow(FundsReserved(accountId, amount, onChain.value), "reserve", tx, env);
      if posted.Err? {
        return Err(PostFailed(posted.error));
      }
      var answer := CachedReservation(Reserved(onChain.value, accountId, amount, posted.value.id));
      cache := cache[key := answer];
      r := Ok(answer);
    }

    /** Build a quote from the FX quote obtained for it; cache it under its key and its own id. */
    method BuildQuote(
        key: string, accountId: string, fx: Result<R.FXQuote, R.QuoteError>, quoteId: string, now: int)
      returns (r: Result<Cached, Error>)
      modifies this`cache
      ensures QuoteStep(old(State()), key, r, State())
      ensures key !in old(cache) ==> (r.Ok? <==> fx.Ok? && accountId in accounts)
      ensures key !in old(cache) && r.Ok? ==>
        var q := r.value.quote;
        q.quoteId == quoteId && q.accountId == accountId && q.sendAmount == fx.value.sendAmount &&
        q.txFee == fx.value.txFee && q.fxFee == fx.value.fxFee && q.receiveAmount == fx.value.receiveAmount &&
        q.expiresAt == now + 300_000
    {
      if key in cache {
        return Ok(cache[key]);
      }
      if fx.Err? {
        return Err(QuoteFailed);
      }
      if accountId !in accounts {
        return Err(AccountNotFound);
      }
      var f := fx.value;
      var answer := CachedQuote(
        Quote(quoteId, accountId, f.sendAmount, f.txFee, f.fxFee, f.receiveAmount, now + 300_000));
      cache := cache[key := answer];
      cache := cache[quoteId := answer];
      r := Ok(answer);
    }

    /** Create an order from a cached quote: reserve under a derived key, pay out, store the order. The
        order row refers to its account and to a stored quote; `quoteStored` says whether there is one. */
    method CreateOrder(
        key: string, quoteId: string, accountId: string, now: int,
        screening: Option<string>, onChain: Option<string>, payoutOk: bool, quoteStored: bool, tx: nat, env: PostEnv)
      returns (r: Result<Order, Error>)
      requires tx !in ledger.pending
      modifies this, ledger
      ensures OrderStep(ledger.digest, accounts, old(State()), key, quoteId, accountId, now, r, State())
      ensures !payoutOk || !quoteStored ==> r.Err?
      ensures quoteId !in old(cache) || old(cache)[quoteId].CachedReservation? ==> r == Err(QuoteNotFound)
      ensures quoteId in old(cache) && old(cache)[quoteId].CachedQuote? && old(cache)[quoteId].quote.expiresAt < now ==>
        r == Err(QuoteExpired)
      ensures LiveQuote(old(cache), quoteId, now) && payoutOk && quoteStored && quoteId !in old(orders) ==>
        && (ReserveKey(key) in old(cache) ==>
              (r.Ok? <==> IsReserved(old(cache)[ReserveKey(key)]) && accountId in accounts))
        && (ReserveKey(key) !in old(cache) && Unhindered(ledger.digest, old(ledger.entries), env) ==>
              (r.Ok? <==> accountId in accounts && screening.None? && onChain.Some?
                          && old(cache)[quoteId].quote.sendAmount > 0))
      ensures tx !in ledger.pending
    {
      if quoteId !in cache || !cache[quoteId].CachedQuote? {
        return Err(QuoteNotFound);
      }
      var quote := cache[quoteId].quote;
      if quote.expiresAt < now {
        return Err(QuoteExpired);
      }
      var reply := ReserveFunds(ReserveKey(key), accountId, quote.sendAmount, screening, onChain, tx, env);
      ghost var mid := State();
      assert ReserveStep(ledger.digest, accounts, old(State()), ReserveKey(key), accountId, quote.sendAmount, reply, mid);
      if reply.Err? {
        return Err(reply.error);
      }
      if !(reply.value.CachedReservation? && reply.value.reservation.Reserved?) {
        return Err(ReservationFailed);
      }
      if !payoutOk {
        return Err(PayoutFailed);
      }
      if quoteId in orders || accountId !in accounts || !quoteStored {
        return Err(OrderNotStored);
      }
      var order := Order(quoteId, accountId, reply.value.reservation.reservationId, InTransit,
                         quote.sendAmount, quote.receiveAmount, quote.txFee, 0, quote.fxFee);
      orders := orders[quoteId := order];
      r := Ok(order);
    }

    /** Finalize: three postings, each of which goes through or not on its own, then the status.
        Unhindered, the order settles exactly if its amount and both fees are positive. */
    method FinalizeOrder(
        orderId: string, settlementRef: string, platformFee: int, partnerFee: int, chainOk: bool,
        tx: nat, envs: seq<PostEnv>)
      returns (r: Result<(), Error>, done: seq<bool>)
      requires tx !in ledger.pending && |envs| == 3
      modifies this`orders, ledger
      ensures FinalizeStep(
        ledger.digest, old(State()), orderId, settlementRef, platformFee, partnerFee, chainOk, done, r, State())
      ensures orderId in old(orders) && chainOk && AllUnhindered(ledger.digest, old(ledger.entries), envs) ==>
        && done == [old(orders)[orderId].sendAmount > 0, platformFee > 0, partnerFee > 0]
        && (r.Ok? <==> old(orders)[orderId].sendAmount > 0 && platformFee > 0 && partnerFee > 0)
      ensures tx !in ledger.pending
    {
      done := [false, false, false];
      if orderId !in orders {
        return Err(OrderNotFound), done;
      }
      if !chainOk {
        return Err(ChainCallFailed), done;
      }
      done := PostFinalEntries(orders[orderId], settlementRef, platformFee, partnerFee, tx, envs);
      if done != [true, true, true] {
        return Err(FinalizationIncomplete), done;
      }
      orders := orders[orderId := orders[orderId].(status := Settled)];
      r := Ok(());
    }

    /** One of several postings: it is attempted, and hinders none of those with another row id. */
    method TryPost(f: FlowEvent, metadata: string, tx: nat, env: PostEnv) returns (ok: bool)
      requires tx !in ledger.pending
      modifies ledger
      ensures Attempt(ledger.digest, old(ledger.Tables()), f, ok, ledger.Tables())
      ensures Unhindered(ledger.digest, old(ledger.entries), env) ==> (ok <==> AmountOf(f) > 0)
      ensures forall other: PostEnv | Unhindered(ledger.digest, old(ledger.entries), other) && other.id != env.id ::
        Unhindered(ledger.digest, ledger.entries, other)
      ensures tx !in ledger.pending
    {
      var r := PostFlow(f, metadata, tx, env);
      ok := r.Ok?;
    }

    /** The three concurrent postings of a finalization. */
    method PostFinalEntries(
        order: Order, settlementRef: string, platformFee: int, partnerFee: int, tx: nat, envs: seq<PostEnv>)
      returns (done: seq<bool>)
      requires tx !in ledger.pending && |envs| == 3
      modifies ledger
      ensures |done| == 3
      ensures PostsSubset(ledger.digest, old(ledger.Tables()),
        FinalFlows(order, settlementRef, platformFee, partnerFee), done, ledger.Tables())
      ensures AllUnhindered(ledger.digest, old(ledger.entries), envs) ==>
        done == [order.sendAmount > 0, platformFee > 0, partnerFee > 0]
      ensures tx !in ledger.pending
    {
      var flows := FinalFlows(order, settlementRef, platformFee, partnerFee);
      ghost var s0 := ledger.Tables();
      var settled, platform, partner;
      ghost var s1, s2;
      settled, platform, partner, s1, s2 := TryThree(flows[0], flows[1], flows[2], tx, envs);
      done := [settled, platform, partner];
      ThreeAttempts(ledger.digest, s0, flows[0], settled, s1, flows[1], platform, s2, flows[2], partner, ledger.Tables());
    }

    method TryThree(f0: FlowEvent, f1: FlowEvent, f2: FlowEvent, tx: nat, envs: seq<PostEnv>)
      returns (ok0: bool, ok1: bool, ok2: bool, ghost s1: State, ghost s2: State)
      requires tx !in ledger.pending && |envs| == 3
      modifies ledger
      ensures Attempt(ledger.digest, old(ledger.Tables()), f0, ok0, s1)
      ensures Attempt(ledger.digest, s1, f1, ok1, s2) && Attempt(ledger.digest, s2, f2, ok2, ledger.Tables())
      ensures AllUnhindered(ledger.digest, old(ledger.entries), envs) ==>
        (ok0 <==> AmountOf(f0) > 0) && (ok1 <==> AmountOf(f1) > 0) && (ok2 <==> AmountOf(f2) > 0)
      ensures tx !in ledger.pending
    {
      ok0 := TryPost(f0, "settlement", tx, envs[0]);
      s1 := ledger.Tables();
      ok1 := TryPost(f1, "{}", tx, envs[1]);
      s2 := ledger.Tables();
      ok2 := TryPost(f2, "{}", tx, envs[2]);
    }

    /** The `DepositProcessed` and `YieldAccrued` listeners: one posting per chain event. */
    method OnChainEvent(event: FlowEvent, tx: nat, env: PostEnv) returns (r: Result<Entry, PostError>)
      requires event.DepositProcessed? || event.YieldAccrued?
      requires tx !in ledger.pending
      modifies ledger
      ensures EventStep(ledger.digest, old(State()), event, r.Ok?, State())
      ensures Unhindered(ledger.digest, old(ledger.entries), env) ==> (r.Ok? <==> AmountOf(event) > 0)
      ensures r.Err? ==> ledger.Tables() == old(ledger.Tables())
      ensures r.Ok? ==> RowFor(ledger.digest, old(ledger.Tables()), event, r.value)
      ensures r.Ok? ==> ledger.Tables() == Post(old(ledger.Tables()), r.value)
      ensures r == Err(InvalidAmount) <==> AmountOf(event) <= 0
    {
      r := PostFlow(event, "event", tx, env);
    }
  }
}
