/**
 Cross-border quotes: corridor limits, the integer transaction fee with its floor, the FX spread
 and the rate cache. Amounts are micro-USDC; rates are reals.
 */
module Remittance {
  import opened Prelude

  const FX_SPREAD_BPS := 25
  const TX_FEE_RATE_PPM := 80
  const TX_FEE_MIN := 250_000
  const FX_CACHE_TTL_MS := 30_000

  datatype Corridor = Corridor(enabled: bool, provider: string, min: int, max: int, slaHours: int, receiveCurrency: string)

  function CorridorOf(name: string): Option<Corridor> {
    if name == "US-PH" then Some(Corridor(true, "moneygram", 1_000_000, 5_000_000_000, 1, "PHP"))
    else if name == "US-MX" then Some(Corridor(true, "moneygram", 1_000_000, 5_000_000_000, 2, "MXN"))
    else if name == "US-IN" then Some(Corridor(true, "circle_cctp", 1_000_000, 10_000_000_000, 1, "INR"))
    else if name == "US-NG" then Some(Corridor(false, "moneygram", 1_000_000, 2_000_000_000, 24, "NGN"))
    else None
  }

  datatype QuoteError = CorridorUnavailable | BelowMinimum | AboveMaximum

  datatype FXQuote = FXQuote(
    sendAmount: int, receiveAmount: int, fxRate: real, genesisRate: real, platformFeeBps: int,
    txFee: int, fxFee: int, totalFees: int, netSend: int, provider: string)

  /** What the Zero Hash adapter answered, if it is used and did not fail. */
  datatype ProviderQuote = ProviderQuote(fxRate: Option<real>, receiveAmount: Option<int>)

  // ---------------------------------------------------------------- the fee arithmetic

  function VariableFee(send: int): int {
    send * TX_FEE_RATE_PPM / 1_000_000
  }

  function TxFee(send: int): int {
    if VariableFee(send) > TX_FEE_MIN then VariableFee(send) else TX_FEE_MIN
  }

  function FxFee(send: int): int {
    send * FX_SPREAD_BPS / 10_000
  }

  function NetSend(send: int): int {
    send - TxFee(send)
  }

  function GenesisRate(midRate: real): real {
    midRate * (1.0 - FX_SPREAD_BPS as real / 10_000.0)
  }

  function ReceiveAmount(send: int, midRate: real): int {
    (NetSend(send) as real / 1_000_000.0 * GenesisRate(midRate)).Floor
  }

  /** Sending more never costs less, and never nets less. */
  lemma FeeMonotone(a: int, b: int)
    requires a <= b
    ensures TxFee(a) <= TxFee(b)
    ensures NetSend(a) <= NetSend(b)
    ensures TxFee(b) - TxFee(a) <= b - a
  {
  }

  /** The figures in numbers: 80 millionths rounded down, at least a quarter dollar; and 25 basis points
      rounded down. */
  lemma FeesInNumbers(send: int)
    ensures TxFee(send) >= 250_000 && (TxFee(send) + 1) * 1_000_000 > send * 80
    ensures TxFee(send) == 250_000 || TxFee(send) * 1_000_000 <= send * 80
    ensures FxFee(send) * 10_000 <= send * 25 < (FxFee(send) + 1) * 10_000
    ensures NetSend(send) == send - TxFee(send)
  {
  }

  /** The corridors and their limits. */
  lemma CorridorLimits(name: string, send: int)
    ensures Acceptable(name, send) <==>
      if name == "US-PH" || name == "US-MX" then 1_000_000 <= send <= 5_000_000_000
      else name == "US-IN" && 1_000_000 <= send <= 10_000_000_000
    ensures CorridorOf(name).Some? && CorridorOf(name).value.enabled <==> name == "US-PH" || name == "US-MX" || name == "US-IN"
  {
  }

  /** How much of the sum of two variable fees is lost to rounding. */
  predicate Carries(a: int, b: int) {
    a * TX_FEE_RATE_PPM % 1_000_000 + b * TX_FEE_RATE_PPM % 1_000_000 >= 1_000_000
  }

  /** One transfer costs at most one micro-USDC more than the same sum split in two, and that one
      micro-USDC exactly when both parts clear the fee floor and rounding carries. */
  lemma SplittingGainsAtMostOne(a: int, b: int)
    requires a >= 0 && b >= 0
    ensures TxFee(a + b) <= TxFee(a) + TxFee(b) + 1
    ensures TxFee(a + b) == TxFee(a) + TxFee(b) + 1 <==>
      VariableFee(a) >= TX_FEE_MIN && VariableFee(b) >= TX_FEE_MIN && Carries(a, b)
  {
  }

  // ---------------------------------------------------------------- accepted quotes

  /** What every amount within a corridor's limits guarantees. */
  lemma AcceptedAmountBounds(send: int)
    requires send >= 1_000_000
    ensures 4 * TxFee(send) <= send
    ensures TxFee(send) + FxFee(send) <= send
    ensures NetSend(send) as real * (1.0 - FX_SPREAD_BPS as real / 10_000.0)
      > (send - TxFee(send) - FxFee(send) - 1) as real
    ensures NetSend(send) as real * 0.9975 > (send - TxFee(send) - FxFee(send) - 1) as real
  {
  }

  /** At a fixed positive rate the receive amount is nondecreasing in the send amount. */
  lemma ReceiveMonotone(a: int, b: int, midRate: real)
    requires a <= b && midRate > 0.0
    ensures ReceiveAmount(a, midRate) <= ReceiveAmount(b, midRate)
  {
    FeeMonotone(a, b);
    var x, y := NetSend(a) as real / 1_000_000.0, NetSend(b) as real / 1_000_000.0;
    var rate := GenesisRate(midRate);
    assert x <= y && rate > 0.0;
    assert y * rate - x * rate == (y - x) * rate >= 0.0;
  }

  /** The receive amount in whole units: at most the net amount in dollars times the mid rate less a
      quarter of a percent, and within one unit of it. */
  lemma ReceiveIsNetTimesRate(send: int, midRate: real)
    ensures GenesisRate(midRate) == midRate * 0.9975
    ensures var exact := NetSend(send) as real / 1_000_000.0 * (midRate * 0.9975);
      ReceiveAmount(send, midRate) as real <= exact < (ReceiveAmount(send, midRate) + 1) as real
  {
    SpreadInNumbers(midRate);
    FloorBounds(NetSend(send) as real / 1_000_000.0 * GenesisRate(midRate));
  }

  predicate FreshIn(cache: map<string, (real, int)>, pair: string, now: int) {
    pair in cache && now - cache[pair].1 < FX_CACHE_TTL_MS
  }

  /** Zero Hash is used, answered, and gave a positive rate. */
  predicate GivesRate(useZeroHash: bool, provider: Option<ProviderQuote>) {
    useZeroHash && provider.Some? && provider.value.fxRate.Some? && provider.value.fxRate.value > 0.0
  }

  /** Likewise for the amount received. */
  predicate GivesAmount(useZeroHash: bool, provider: Option<ProviderQuote>) {
    useZeroHash && provider.Some? && provider.value.receiveAmount.Some? && provider.value.receiveAmount.value > 0
  }

  predicate Enabled(corridor: string) {
    CorridorOf(corridor).Some? && CorridorOf(corridor).value.enabled
  }

  predicate Acceptable(corridor: string, send: int) {
    var c := CorridorOf(corridor);
    c.Some? && c.value.enabled && c.value.min <= send <= c.value.max
  }

  lemma AcceptableIsAtLeastOneDollar(corridor: string, send: int)
    requires Acceptable(corridor, send)
    ensures send >= 1_000_000
  {
  }

  /** The figures of a quote conserve the sum sent and bound what is taken from it. */
  ghost predicate SoundQuote(q: FXQuote, send: int) {
    && q.sendAmount == send
    && q.netSend + q.txFee == send
    && q.totalFees == q.txFee + q.fxFee <= send
    && 250_000 <= q.txFee && 4 * q.txFee <= send
    && (q.txFee == 250_000 || q.txFee * 1_000_000 <= send * 80) && send * 80 < (q.txFee + 1) * 1_000_000
    && q.fxFee * 10_000 <= send * 25 < (q.fxFee + 1) * 10_000
    && q.platformFeeBps * send <= q.txFee * 10_000 < (q.platformFeeBps + 1) * send
    && q.netSend as real * 0.9975 > (send - q.totalFees - 1) as real
    && q.genesisRate == q.fxRate * 0.9975
  }

  /** The receive amount is what the net amount is worth at the quoted rate, in whole units, rounded down. */
  ghost predicate ReceivesAtRate(q: FXQuote) {
    var exact := q.netSend as real / 1_000_000.0 * q.genesisRate;
    q.receiveAmount as real <= exact < (q.receiveAmount + 1) as real
  }

  class RemittanceOrchestrator {
    var fxCache: map<string, (real, int)>

    constructor ()
      ensures fxCache == map[]
    {
      fxCache := map[];
    }

    /** A rate read less than 30 seconds ago is reused; otherwise the source's rate is cached. */
    method GetFXRate(pair: string, sourceRate: real, now: int) returns (rate: real)
      modifies this
      ensures rate ==
        if pair in old(fxCache) && now - old(fxCache)[pair].1 < 30_000 then old(fxCache)[pair].0 else sourceRate
      ensures fxCache ==
        if FreshIn(old(fxCache), pair, now) then old(fxCache) else old(fxCache)[pair := (sourceRate, now)]
    {
      if pair in fxCache && now - fxCache[pair].1 < FX_CACHE_TTL_MS {
        return fxCache[pair].0;
      }
      rate := sourceRate;
      fxCache := fxCache[pair := (rate, now)];
    }

    /** A quote: rejected outside the corridor's limits without touching the cache, otherwise fees
        and net amount conserve the sum sent. Zero Hash may override the rate and receive amount. */
    method GetFXQuote(
        send: int, pair: string, corridor: string, useZeroHash: bool, provider: Option<ProviderQuote>,
        sourceRate: real, now: int)
      returns (r: Result<FXQuote, QuoteError>)
      modifies this
      ensures r.Ok? <==> Acceptable(corridor, send)
      ensures r.Err? ==> fxCache == old(fxCache)
      ensures r == Err(CorridorUnavailable) <==> !Enabled(corridor)
      ensures r == Err(BelowMinimum) <==> Enabled(corridor) && send < CorridorOf(corridor).value.min
      ensures r == Err(AboveMaximum) <==>
        Enabled(corridor) && send > CorridorOf(corridor).value.max && send >= CorridorOf(corridor).value.min
      ensures r.Ok? ==> SoundQuote(r.value, send)
      ensures r.Ok? && GivesRate(useZeroHash, provider) ==> r.value.fxRate == provider.value.fxRate.value
      ensures r.Ok? && !GivesRate(useZeroHash, provider) ==>
        r.value.fxRate == if pair in old(fxCache) && now - old(fxCache)[pair].1 < 30_000 then old(fxCache)[pair].0 else sourceRate
      ensures r.Ok? ==>
        if GivesAmount(useZeroHash, provider) then r.value.receiveAmount == provider.value.receiveAmount.value
        else ReceivesAtRate(r.value)
      ensures r.Ok? ==>
        r.value.provider == if useZeroHash then "zerohash" else CorridorOf(corridor).value.provider
    {
      var config := CorridorOf(corridor);
      if config.None? || !config.value.enabled {
        return Err(CorridorUnavailable);
      }
      if send < config.value.min {
        return Err(BelowMinimum);
      }
      if send > config.value.max {
        return Err(AboveMaximum);
      }
      var midRate := GetFXRate(pair, sourceRate, now);
      var providerReceive: Option<int> := None;
      if useZeroHash && provider.Some? {
        var p := provider.value;
        if p.fxRate.Some? && p.fxRate.value > 0.0 {
          midRate := p.fxRate.value;
        }
        if p.receiveAmount.Some? && p.receiveAmount.value > 0 {
          providerReceive := p.receiveAmount;
        }
      }
      AcceptableIsAtLeastOneDollar(corridor, send);
      var q := Price(send, midRate, providerReceive, if useZeroHash then "zerohash" else config.value.provider);
      r := Ok(q);
    }
  }

  /** The fee, spread and net computation on an accepted amount. */
  method Price(send: int, midRate: real, providerReceive: Option<int>, provider: string) returns (q: FXQuote)
    requires send >= 1_000_000
    ensures SoundQuote(q, send)
    ensures q.fxRate == midRate && q.provider == provider
    ensures if providerReceive.Some? then q.receiveAmount == providerReceive.value else ReceivesAtRate(q)
  {
    var genesisRate := GenesisRate(midRate);
    var variableTxFee := send * TX_FEE_RATE_PPM / 1_000_000;
    var txFee := if variableTxFee > TX_FEE_MIN then variableTxFee else TX_FEE_MIN;
    var fxFee := send * FX_SPREAD_BPS / 10_000;
    var netSend := send - txFee;
    var effectiveBps := txFee * 10_000 / send;
    var sendUsd := netSend as real / 1_000_000.0;
    var localAmt := (sendUsd * genesisRate).Floor;
    var receive := if providerReceive.Some? then providerReceive.value else localAmt;
    q := FXQuote(send, receive, midRate, genesisRate, effectiveBps, txFee, fxFee, txFee + fxFee, netSend,
                 provider);
    assert txFee == TxFee(send) && fxFee == FxFee(send);
    FiguresAreSound(send, q);
    FloorBounds(sendUsd * genesisRate);
  }

  lemma FloorBounds(x: real)
    ensures x.Floor as real <= x < (x.Floor + 1) as real
  {
  }

  lemma FiguresAreSound(send: int, q: FXQuote)
    requires send >= 1_000_000 && q.sendAmount == send && q.txFee == TxFee(send) && q.fxFee == FxFee(send)
    requires q.netSend == send - q.txFee && q.totalFees == q.txFee + q.fxFee
    requires q.genesisRate == GenesisRate(q.fxRate) && q.platformFeeBps == q.txFee * 10_000 / send
    ensures SoundQuote(q, send)
  {
    AcceptedAmountBounds(send);
    FeesInNumbers(send);
    SpreadInNumbers(q.fxRate);
    QuotientBounds(q.txFee * 10_000, send);
  }

  lemma SpreadInNumbers(midRate: real)
    ensures GenesisRate(midRate) == midRate * 0.9975
  {
  }

  lemma QuotientBounds(n: int, d: int)
    requires d > 0
    ensures n / d * d <= n < (n / d + 1) * d
  {
  }
}
