/**
 The investor model's arithmetic over the reals: the fee it shares with the remittance engine,
 the average fee of a traffic mix, the ramp loop and the steady-state loop.
 */
module BoardModel {
  import opened Prelude
  import Remittance

  const STEADY_STATE_TX := 100_000

  function Max(a: real, b: real): real {
    if a < b then b else a
  }

  // ---------------------------------------------------------------- fees

  /** The fee in US dollars of a transfer of US dollars. */
  function TxFee(amount: real): real {
    Max(0.25, amount * 0.00008)
  }

  /** For every amount the integer fee is the floor of the board model's fee, in micro-USDC. */
  lemma IntegerFeeIsBoardFeeFloored(send: int)
    ensures Remittance.TxFee(send) == (TxFee(send as real / 1_000_000.0) * 1_000_000.0).Floor
  {
  }

  /** One ticket size of a traffic mix and its share of the traffic. */
  datatype Ticket = Ticket(amount: real, weight: real) {
    function Share(): real {
      TxFee(amount) * weight
    }
  }

  /** Adds to `sum` each ticket's share of the fee, in order. */
  function AvgFeeFrom(sum: real, mix: seq<Ticket>): real
    decreases |mix|
  {
    if mix == [] then sum else AvgFeeFrom(sum + mix[0].Share(), mix[1..])
  }

  function AvgFeeForMix(mix: seq<Ticket>): real {
    AvgFeeFrom(0.0, mix)
  }

  /** The average fee is the weighted sum of the tickets' fees: of one ticket its weight times the greater of
      25 cents and eight thousandths of a percent, of two mixes the sum. */
  lemma {:induction false} AvgFeeIsWeightedSum(a: seq<Ticket>, b: seq<Ticket>, t: Ticket)
    ensures AvgFeeForMix(a + b) == AvgFeeForMix(a) + AvgFeeForMix(b)
    ensures AvgFeeForMix([t]) == (if t.amount * 0.00008 < 0.25 then 0.25 else t.amount * 0.00008) * t.weight
    ensures AvgFeeForMix([]) == 0.0
  {
    AvgFeeAppend(0.0, a, b);
    AvgFeeShift(AvgFeeForMix(a), b);
    assert [t][1..] == [] && AvgFeeForMix([t]) == AvgFeeFrom(0.0 + t.Share(), []);
    assert t.Share() == (if t.amount * 0.00008 < 0.25 then 0.25 else t.amount * 0.00008) * t.weight;
  }

  lemma {:induction false} AvgFeeAppend(sum: real, a: seq<Ticket>, b: seq<Ticket>)
    ensures AvgFeeFrom(sum, a + b) == AvgFeeFrom(AvgFeeFrom(sum, a), b)
    decreases |a|
  {
    if a == [] {
      assert a + b == b;
    } else {
      assert (a + b)[1..] == a[1..] + b;
      AvgFeeAppend(sum + a[0].Share(), a[1..], b);
    }
  }

  lemma {:induction false} AvgFeeShift(sum: real, mix: seq<Ticket>)
    ensures AvgFeeFrom(sum, mix) == sum + AvgFeeFrom(0.0, mix)
    decreases |mix|
  {
    if mix != [] {
      AvgFeeShift(sum + mix[0].Share(), mix[1..]);
      AvgFeeShift(0.0 + mix[0].Share(), mix[1..]);
    }
  }

  function TotalWeight(mix: seq<Ticket>): real {
    if mix == [] then 0.0 else mix[0].weight + TotalWeight(mix[1..])
  }

  function AvgTicket(mix: seq<Ticket>): real {
    if mix == [] then 0.0 else mix[0].amount * mix[0].weight + AvgTicket(mix[1..])
  }

  /** The average fee is at least the fee of the average ticket. */
  lemma AvgFeeCoversAvgTicket(mix: seq<Ticket>)
    requires forall t | t in mix :: t.weight >= 0.0
    requires TotalWeight(mix) == 1.0
    ensures AvgFeeForMix(mix) >= TxFee(AvgTicket(mix))
  {
    AvgFeeBounds(0.0, mix);
  }

  lemma {:induction false} AvgFeeBounds(sum: real, mix: seq<Ticket>)
    requires forall t | t in mix :: t.weight >= 0.0
    ensures AvgFeeFrom(sum, mix) >= sum + 0.25 * TotalWeight(mix)
    ensures AvgFeeFrom(sum, mix) >= sum + 0.00008 * AvgTicket(mix)
    decreases |mix|
  {
    if mix != [] {
      ShareBounds(mix[0]);
      AvgFeeBounds(sum + mix[0].Share(), mix[1..]);
    }
  }

  lemma ShareBounds(t: Ticket)
    requires t.weight >= 0.0
    ensures t.Share() >= 0.25 * t.weight
    ensures t.Share() >= 0.00008 * (t.amount * t.weight)
  {
  }

  // ---------------------------------------------------------------- the ramp, by reference

  /** The contribution margin of a month. */
  function Margin(tx: int, avgFee: real, costPerTx: real): real {
    tx as real * avgFee - tx as real * costPerTx
  }

  function Margins(txCounts: seq<int>, avgFee: real, costPerTx: real): (m: seq<real>)
    ensures |m| == |txCounts|
    ensures forall i | 0 <= i < |m| :: m[i] == Margin(txCounts[i], avgFee, costPerTx)
  {
    seq(|txCounts|, i requires 0 <= i < |txCounts| => Margin(txCounts[i], avgFee, costPerTx))
  }

  function Sum(xs: seq<real>): real {
    if xs == [] then 0.0 else Sum(xs[..|xs| - 1]) + xs[|xs| - 1]
  }

  function Volume(txCounts: seq<int>): int {
    if txCounts == [] then 0 else Volume(txCounts[..|txCounts| - 1]) + txCounts[|txCounts| - 1]
  }

  /** Each month's gross revenue. */
  function Gross(txCounts: seq<int>, avgFee: real): (g: seq<real>)
    ensures |g| == |txCounts|
  {
    seq(|txCounts|, i requires 0 <= i < |txCounts| => txCounts[i] as real * avgFee)
  }

  function VolumeAtFee(txCounts: seq<int>, avgFee: real): real {
    avgFee * Volume(txCounts) as real
  }

  lemma {:induction false} GrossIsVolumeAtFee(txCounts: seq<int>, avgFee: real)
    ensures Sum(Gross(txCounts, avgFee)) == VolumeAtFee(txCounts, avgFee)
  {
    if txCounts != [] {
      var n := |txCounts| - 1;
      GrossIsVolumeAtFee(txCounts[..n], avgFee);
      var g, init := Gross(txCounts, avgFee), Gross(txCounts[..n], avgFee);
      assert forall i | 0 <= i < n :: g[i] == init[i];
      assert g[..n] == init;
      Distribute(avgFee, Volume(txCounts[..n]) as real, txCounts[n] as real);
    }
  }

  /** What the positive margins add up to. */
  function Retained(margins: seq<real>): (r: real)
    ensures r >= 0.0
  {
    if margins == [] then 0.0 else Retained(margins[..|margins| - 1]) + Max(0.0, margins[|margins| - 1])
  }

  /** Month by month, all that was retained before the month. */
  function RetainedBefore(margins: seq<real>): real {
    if margins == [] then 0.0
    else RetainedBefore(margins[..|margins| - 1]) + Retained(margins[..|margins| - 1])
  }

  /** Each month's yield at `rate` on all that was retained before the month. */
  function Yields(margins: seq<real>, rate: real): (y: seq<real>)
    ensures |y| == |margins|
  {
    seq(|margins|, i requires 0 <= i < |margins| => Retained(margins[..i]) * rate)
  }

  lemma YieldsPrefix(margins: seq<real>, rate: real, n: nat)
    requires n < |margins|
    ensures Yields(margins, rate)[..n] == Yields(margins[..n], rate)
    ensures Yields(margins, rate)[n] == Retained(margins[..n]) * rate
  {
    var y, init := Yields(margins, rate), Yields(margins[..n], rate);
    forall i | 0 <= i < n ensures y[i] == init[i] {
      assert margins[..n][..i] == margins[..i];
    }
  }

  lemma {:induction false} YieldIsRateTimesCapital(margins: seq<real>, rate: real)
    ensures IsProduct(Sum(Yields(margins, rate)), rate, RetainedBefore(margins))
  {
    if margins == [] {
      TimesNothing(rate);
    } else {
      var n := |margins| - 1;
      YieldIsRateTimesCapital(margins[..n], rate);
      YieldsPrefix(margins, rate, n);
      ProductGrows(Sum(Yields(margins, rate)[..n]), rate, RetainedBefore(margins[..n]), Yields(margins, rate)[n],
                   Retained(margins[..n]));
    }
  }

  predicate IsProduct(p: real, a: real, b: real) {
    p == a * b
  }

  lemma TimesNothing(a: real)
    ensures IsProduct(0.0, a, 0.0)
  {
  }

  lemma ProductGrows(p: real, a: real, b: real, q: real, c: real)
    requires IsProduct(p, a, b) && q == c * a
    ensures IsProduct(p + q, a, b + c)
  {
    Distribute(a, b, c);
  }

  /** Treasury yield at an annual percentage: a twelfth of it on each month's retained capital. */
  function AnnualYield(margins: seq<real>, apy: real): real {
    apy / 12.0 * RetainedBefore(margins)
  }

  lemma YieldsAddUp(margins: seq<real>, apy: real)
    ensures Sum(Yields(margins, apy / 12.0)) == AnnualYield(margins, apy)
  {
    YieldIsRateTimesCapital(margins, apy / 12.0);
  }

  /** The same sum taken margin by margin: month `k` (from 0) of `n` is retained for n - 1 - k months. */
  function MonthsRetained(margins: seq<real>, n: nat): real {
    if margins == [] then 0.0
    else
      var k := |margins| - 1;
      MonthsRetained(margins[..k], n) + (n - 1 - k) as real * Max(0.0, margins[k])
  }

  /** Summing capital over months or months over capital gives the same treasury base. */
  lemma EachMarginEarnsFromTheNextMonth(margins: seq<real>)
    ensures RetainedBefore(margins) == MonthsRetained(margins, |margins|)
  {
    CapitalMonths(margins, |margins|);
  }

  lemma {:induction false} CapitalMonths(margins: seq<real>, n: nat)
    ensures MonthsRetained(margins, n) == RetainedBefore(margins) + (n - |margins|) as real * Retained(margins)
  {
    if margins != [] {
      var k := |margins| - 1;
      CapitalMonths(margins[..k], n);
      var before, last := Retained(margins[..k]), Max(0.0, margins[k]);
      assert (n - k) as real * before == (n - k - 1) as real * before + before;
      assert (n - k - 1) as real * (before + last) == (n - k - 1) as real * before + (n - k - 1) as real * last;
    }
  }

  predicate LeastPositive(margins: seq<real>, month: Option<nat>) {
    match month
    case None => forall i | 0 <= i < |margins| :: margins[i] <= 0.0
    case Some(m) => 1 <= m <= |margins| && margins[m - 1] > 0.0 && forall i | 0 <= i < m - 1 :: margins[i] <= 0.0
  }

  /** With some volume in the first month the ramp breaks even at once or never, and at once exactly
      if the average fee exceeds the cost of a transfer. */
  lemma BreakEvenAtOnceOrNever(txCounts: seq<int>, avgFee: real, costPerTx: real, month: Option<nat>)
    requires txCounts != [] && forall i | 0 <= i < |txCounts| :: txCounts[i] > 0
    requires LeastPositive(Margins(txCounts, avgFee, costPerTx), month)
    ensures month == if avgFee > costPerTx then Some(1) else None
  {
    var margins := Margins(txCounts, avgFee, costPerTx);
    forall i | 0 <= i < |margins| ensures margins[i] > 0.0 <==> avgFee > costPerTx {
      var t, d := txCounts[i] as real, avgFee - costPerTx;
      assert margins[i] == t * d;
      if d > 0.0 {
        assert t * d > 0.0;
      } else {
        assert t * d <= 0.0;
      }
    }
    assert margins[0] > 0.0 <==> avgFee > costPerTx;
  }

  // ---------------------------------------------------------------- the ramp loop

  datatype MonthlyRow = MonthlyRow(
    month: nat, txCount: int, avgFee: real, grossRevenue: real, cost: real, contributionMargin: real,
    retainedCapital: real, treasuryYield: real, totalRevenue: real)

  datatype AnnualSummary = AnnualSummary(
    totalGrossRevenue: real, totalContributionMargin: real, totalTreasuryYield: real, totalCombinedRevenue: real,
    totalCombinedMargin: real, endingRetainedCapital: real, avgFeePerTx: real, breakEvenMonth: Option<nat>)

  /** A row reports its own month: its margin, the capital retained by its end, and the yield of the
      capital retained before it. */
  ghost predicate RowIsRight(row: MonthlyRow, i: nat, txCounts: seq<int>, margins: seq<real>, avgFee: real, rate: real)
    requires i < |margins| == |txCounts|
  {
    && row.month == i + 1 && row.txCount == txCounts[i] && row.avgFee == avgFee
    && row.grossRevenue - row.cost == row.contributionMargin == margins[i]
    && row.grossRevenue == Gross(txCounts, avgFee)[i]
    && row.retainedCapital == Retained(margins[..i + 1])
    && row.treasuryYield == Yields(margins, rate)[i]
    && row.totalRevenue == row.grossRevenue + row.treasuryYield
  }

  lemma BreakEvenStep(margins: seq<real>, i: nat, month: Option<nat>)
    requires i < |margins| && LeastPositive(margins[..i], month)
    ensures LeastPositive(margins[..i + 1], if month.None? && margins[i] > 0.0 then Some(i + 1) else month)
  {
    PrefixGrows(margins, i);
  }

  lemma SumAdds(xs: seq<real>, i: nat)
    requires i < |xs|
    ensures Sum(xs[..i + 1]) == Sum(xs[..i]) + xs[i]
  {
    assert xs[..i + 1][..i] == xs[..i];
  }

  /** What a month takes in, costs and leaves. */
  method MonthFlows(tx: int, avgFee: real, costPerTx: real) returns (gross: real, cost: real, margin: real)
    ensures gross == tx as real * avgFee
    ensures gross - cost == margin == Margin(tx, avgFee, costPerTx)
  {
    gross := tx as real * avgFee;
    cost := tx as real * costPerTx;
    margin := gross - cost;
  }

  /** One month's row, from the capital retained when the month starts. */
  method MonthRow(i: nat, txCounts: seq<int>, avgFee: real, costPerTx: real, rate: real, startCapital: real)
    returns (row: MonthlyRow)
    requires i < |txCounts|
    requires startCapital == Retained(Margins(txCounts, avgFee, costPerTx)[..i])
    ensures RowIsRight(row, i, txCounts, Margins(txCounts, avgFee, costPerTx), avgFee, rate)
  {
    ghost var margins := Margins(txCounts, avgFee, costPerTx);
    var grossRevenue, cost, contributionMargin := MonthFlows(txCounts[i], avgFee, costPerTx);
    assert margins[..i + 1][..i] == margins[..i];
    var treasuryYield := startCapital * rate;
    var retainedCapital := startCapital;
    if contributionMargin > 0.0 {
      retainedCapital := retainedCapital + contributionMargin;
    }
    row := MonthlyRow(i + 1, txCounts[i], avgFee, grossRevenue, cost, contributionMargin, retainedCapital,
                      treasuryYield, grossRevenue + treasuryYield);
  }

  /** The months in order, each yielding at `rate` on the capital retained when it starts. */
  method RampMonths(txCounts: seq<int>, avgFee: real, costPerTx: real, rate: real)
    returns (rows: seq<MonthlyRow>, retainedCapital: real, totalGross: real, totalMargin: real, totalTreasury: real,
             breakEvenMonth: Option<nat>)
    ensures |rows| == |txCounts|
    ensures var margins := Margins(txCounts, avgFee, costPerTx);
      && retainedCapital == Retained(margins) && totalMargin == Sum(margins)
      && totalTreasury == Sum(Yields(margins, rate)) && LeastPositive(margins, breakEvenMonth)
      && forall i | 0 <= i < |rows| :: RowIsRight(rows[i], i, txCounts, margins, avgFee, rate)
    ensures totalGross == Sum(Gross(txCounts, avgFee))
    ensures forall i | 0 < i < |rows| :: rows[i - 1].retainedCapital <= rows[i].retainedCapital
  {
    ghost var margins := Margins(txCounts, avgFee, costPerTx);
    ghost var gross, earned := Gross(txCounts, avgFee), Yields(margins, rate);
    retainedCapital, totalGross, totalMargin, totalTreasury := 0.0, 0.0, 0.0, 0.0;
    breakEvenMonth := None;
    rows := [];
    for i := 0 to |txCounts|
      invariant |rows| == i
      invariant retainedCapital == Retained(margins[..i])
      invariant totalGross == Sum(gross[..i])
      invariant totalMargin == Sum(margins[..i])
      invariant totalTreasury == Sum(earned[..i])
      invariant LeastPositive(margins[..i], breakEvenMonth)
      invariant forall k | 0 <= k < i :: RowIsRight(rows[k], k, txCounts, margins, avgFee, rate)
    {
      var row := MonthRow(i, txCounts, avgFee, costPerTx, rate, retainedCapital);
      SumAdds(margins, i);
      SumAdds(gross, i);
      SumAdds(earned, i);
      BreakEvenStep(margins, i, breakEvenMonth);
      retainedCapital := row.retainedCapital;
      if breakEvenMonth.None? && row.contributionMargin > 0.0 {
        breakEvenMonth := Some(i + 1);
      }
      totalGross := totalGross + row.grossRevenue;
      totalMargin := totalMargin + row.contributionMargin;
      totalTreasury := totalTreasury + row.treasuryYield;
      rows := rows + [row];
    }
    RetainedNeverFalls(rows, txCounts, margins, avgFee, rate);
    assert margins[..|txCounts|] == margins && gross[..|txCounts|] == gross && earned[..|txCounts|] == earned;
  }

  lemma RetainedNeverFalls(rows: seq<MonthlyRow>, txCounts: seq<int>, margins: seq<real>, avgFee: real, rate: real)
    requires |rows| == |margins| == |txCounts|
    requires forall i | 0 <= i < |rows| :: RowIsRight(rows[i], i, txCounts, margins, avgFee, rate)
    ensures forall i | 0 < i < |rows| :: rows[i - 1].retainedCapital <= rows[i].retainedCapital
  {
    forall i | 0 < i < |rows| ensures rows[i - 1].retainedCapital <= rows[i].retainedCapital {
      assert RowIsRight(rows[i - 1], i - 1, txCounts, margins, avgFee, rate);
      assert margins[..i + 1][..i] == margins[..i];
    }
  }

  /** For any volumes: total treasury yield is `apy / 12` times the sum, month by month, of all earlier
      positive margins; retained capital never falls; break-even is the least month with a positive margin. */
  method BuildRampModel(txCounts: seq<int>, mix: seq<Ticket>, costPerTx: real, apy: real)
    returns (rows: seq<MonthlyRow>, summary: AnnualSummary)
    ensures |rows| == |txCounts|
    ensures var margins := Margins(txCounts, AvgFeeForMix(mix), costPerTx);
      forall i | 0 <= i < |rows| :: RowIsRight(rows[i], i, txCounts, margins, AvgFeeForMix(mix), apy / 12.0)
    ensures forall i | 0 < i < |rows| :: rows[i - 1].retainedCapital <= rows[i].retainedCapital
    ensures var margins := Margins(txCounts, AvgFeeForMix(mix), costPerTx);
      && summary.totalTreasuryYield == AnnualYield(margins, apy)
      && summary.endingRetainedCapital == Retained(margins)
      && summary.totalContributionMargin == Sum(margins)
      && LeastPositive(margins, summary.breakEvenMonth)
    ensures summary.totalGrossRevenue == VolumeAtFee(txCounts, AvgFeeForMix(mix))
    ensures summary.avgFeePerTx == AvgFeeForMix(mix)
    ensures summary.totalCombinedRevenue == summary.totalGrossRevenue + summary.totalTreasuryYield
    ensures summary.totalCombinedMargin == summary.totalContributionMargin + summary.totalTreasuryYield
  {
    var avgFee := AvgFeeForMix(mix);
    var retainedCapital, totalGross, totalMargin, totalTreasury, breakEvenMonth;
    rows, retainedCapital, totalGross, totalMargin, totalTreasury, breakEvenMonth :=
      RampMonths(txCounts, avgFee, costPerTx, apy / 12.0);
    ghost var margins := Margins(txCounts, avgFee, costPerTx);
    YieldsAddUp(margins, apy);
    GrossIsVolumeAtFee(txCounts, avgFee);
    summary := AnnualSummary(totalGross, totalMargin, totalTreasury, totalGross + totalTreasury,
                             totalMargin + totalTreasury, retainedCapital, avgFee, breakEvenMonth);
  }

  lemma PrefixGrows<T>(s: seq<T>, i: nat)
    requires i < |s|
    ensures s[..i + 1] == s[..i] + [s[i]]
  {
  }

  lemma Distribute(rate: real, a: real, b: real)
    ensures rate * (a + b) == rate * a + rate * b == rate * a + b * rate
  {
  }

  // ---------------------------------------------------------------- the steady state

  /** Treasury yield after `n` months that each earn on what is deployed and then add a positive margin. */
  function SteadyYield(n: nat, start: real, margin: real, rate: real): real {
    if n == 0 then 0.0 else SteadyYield(n - 1, start, margin, rate) + Deployed(n - 1, start, margin) * rate
  }

  function Deployed(n: nat, start: real, margin: real): real {
    if n == 0 then start else Deployed(n - 1, start, margin) + Max(0.0, margin)
  }

  /** 0 + 1 + ... + (n - 1). */
  function Triangle(n: nat): nat {
    if n == 0 then 0 else Triangle(n - 1) + (n - 1)
  }

  lemma {:induction false} TriangleClosedForm(n: nat)
    ensures 2 * Triangle(n) == n * (n - 1)
  {
    if n > 0 {
      TriangleClosedForm(n - 1);
      assert n * (n - 1) == (n - 1) * (n - 2) + 2 * (n - 1);
    }
  }

  /** The closed form, for any number of months. */
  lemma SteadyClosedForm(n: nat, start: real, margin: real, rate: real)
    ensures Deployed(n, start, margin) == start + n as real * Max(0.0, margin)
    ensures SteadyYield(n, start, margin, rate)
         == rate * (n as real * start + Max(0.0, margin) * (n * (n - 1) / 2) as real)
  {
    SteadyByTriangle(n, start, margin, rate);
    TriangleClosedForm(n);
    assert n * (n - 1) / 2 == Triangle(n);
  }

  lemma {:induction false} SteadyByTriangle(n: nat, start: real, margin: real, rate: real)
    ensures Deployed(n, start, margin) == start + n as real * Max(0.0, margin)
    ensures SteadyYield(n, start, margin, rate)
         == rate * (n as real * start + Max(0.0, margin) * Triangle(n) as real)
  {
    var m := Max(0.0, margin);
    if n > 0 {
      SteadyByTriangle(n - 1, start, margin, rate);
      ClosedFormStep((n - 1) as real, Triangle(n - 1) as real, n as real, Triangle(n) as real, start, m, rate);
    }
  }

  lemma ClosedFormStep(k: real, t: real, k': real, t': real, start: real, m: real, rate: real)
    requires k' == k + 1.0 && t' == t + k
    ensures k' * m == k * m + m
    ensures rate * (k' * start + m * t') == rate * (k * start + m * t) + (start + k * m) * rate
  {
  }

  /** From no capital, the steady state is the ramp at constant volume. */
  lemma {:induction false} SteadyIsFlatRamp(margins: seq<real>, margin: real, rate: real)
    requires forall i | 0 <= i < |margins| :: margins[i] == margin
    ensures Deployed(|margins|, 0.0, margin) == Retained(margins)
    ensures SteadyYield(|margins|, 0.0, margin, rate) == rate * RetainedBefore(margins)
  {
    if margins != [] {
      var init := margins[..|margins| - 1];
      SteadyIsFlatRamp(init, margin, rate);
      Distribute(rate, RetainedBefore(init), Retained(init));
    }
  }

  datatype SteadyState = SteadyState(
    annualTxRevenue: real, annualTxMargin: real, annualTreasuryYield: real, arr: real, contributionMarginRate: real)

  method SteadyStateARR(mix: seq<Ticket>, costPerTx: real, apy: real, startingRetained: real)
    returns (s: SteadyState)
    ensures var m := STEADY_STATE_TX as real * (AvgFeeForMix(mix) - costPerTx);
      && s.annualTreasuryYield == apy / 12.0 * (12.0 * startingRetained + Max(0.0, m) * 66.0)
      && s.annualTxMargin == 12.0 * m
    ensures s.annualTxRevenue == 1_200_000.0 * AvgFeeForMix(mix)
    ensures s.arr == s.annualTxRevenue + s.annualTreasuryYield
    ensures AvgFeeForMix(mix) > 0.0 ==>
      s.contributionMarginRate * AvgFeeForMix(mix) == 100.0 * (AvgFeeForMix(mix) - costPerTx)
    ensures AvgFeeForMix(mix) <= 0.0 ==> s.contributionMarginRate == 0.0
  {
    var avgFee := AvgFeeForMix(mix);
    var annualTxRevenue := STEADY_STATE_TX as real * avgFee * 12.0;
    var annualTxMargin := STEADY_STATE_TX as real * (avgFee - costPerTx) * 12.0;
    var monthlyMargin := STEADY_STATE_TX as real * (avgFee - costPerTx);
    var treasuryYield, deployed := 0.0, startingRetained;
    for m := 0 to 12
      invariant deployed == Deployed(m, startingRetained, monthlyMargin)
      invariant treasuryYield == SteadyYield(m, startingRetained, monthlyMargin, apy / 12.0)
    {
      treasuryYield := treasuryYield + deployed * (apy / 12.0);
      if monthlyMargin > 0.0 {
        deployed := deployed + monthlyMargin;
      }
    }
    SteadyClosedForm(12, startingRetained, monthlyMargin, apy / 12.0);
    assert 12 * (12 - 1) / 2 == 66;
    var rate := 0.0;
    if annualTxRevenue > 0.0 {
      rate := annualTxMargin / annualTxRevenue * 100.0;
      MarginRate(avgFee, costPerTx);
    }
    s := SteadyState(annualTxRevenue, annualTxMargin, treasuryYield, annualTxRevenue + treasuryYield, rate);
  }

  lemma MarginRate(avgFee: real, costPerTx: real)
    requires avgFee > 0.0
    ensures 100_000.0 * (avgFee - costPerTx) * 12.0 / (100_000.0 * avgFee * 12.0) * 100.0 * avgFee
         == 100.0 * (avgFee - costPerTx)
  {
  }
}
