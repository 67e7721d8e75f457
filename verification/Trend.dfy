/**
 The dashboard's seven-day trend: signed amounts by ledger entry type, daily buckets over a window,
 running totals, and the sparkline drawn through them. Day keys and labels come from the clock.
 */
module Trend {
  import opened Prelude

  /** `amount` is None where the text is not a finite number, `day` where the date does not parse. */
  datatype HistoryEntry = HistoryEntry(entryType: string, amount: Option<real>, day: Option<string>)

  datatype Day = Day(key: string, weekday: string)

  datatype TrendPoint = TrendPoint(weekday: string, totalAtomic: real)

  datatype TrendError = InvalidDate

  function Max(a: real, b: real): real {
    if a < b then b else a
  }

  // ---------------------------------------------------------------- signed amounts

  function Lower(s: string): (r: string)
    ensures |r| == |s|
    ensures forall i | 0 <= i < |s| :: r[i] == if 'A' <= s[i] <= 'Z' then (s[i] as int + 32) as char else s[i]
  {
    if s == "" then "" else [if 'A' <= s[0] <= 'Z' then (s[0] as int + 32) as char else s[0]] + Lower(s[1..])
  }

  predicate Includes(s: string, part: string) {
    HasPrefix(s, part) || (s != "" && Includes(s[1..], part))
  }

  predicate Inflow(entryType: string) {
    var t := Lower(entryType);
    Includes(t, "credit") || Includes(t, "deposit") || Includes(t, "harvest") || Includes(t, "yield")
  }

  predicate Outflow(entryType: string) {
    var t := Lower(entryType);
    Includes(t, "debit") || Includes(t, "withdraw") || Includes(t, "send") || Includes(t, "reserve")
  }

  function ToSignedAtomic(e: HistoryEntry): real {
    var amount := if e.amount.Some? then e.amount.value else 0.0;
    if Inflow(e.entryType) then amount else if Outflow(e.entryType) then -amount else 0.0
  }

  predicate StandsAt(part: string, s: string, i: nat) {
    i + |part| <= |s| && forall j | 0 <= j < |part| :: s[i + j] == part[j]
  }

  /** `part` stands somewhere in `s`. */
  ghost predicate StandsIn(part: string, s: string) {
    exists i: nat :: StandsAt(part, s, i)
  }

  lemma AtStart(s: string, part: string)
    ensures StandsAt(part, s, 0) <==> HasPrefix(s, part)
  {
    PrefixMeans(s, part);
    if StandsAt(part, s, 0) {
      forall j | 0 <= j < |part| ensures s[j] == part[j] {
        assert s[0 + j] == part[j];
      }
    }
  }

  lemma {:induction false} IncludesMeans(s: string, part: string)
    ensures Includes(s, part) <==> StandsIn(part, s)
  {
    AtStart(s, part);
    if s != "" {
      IncludesMeans(s[1..], part);
      if StandsIn(part, s[1..]) {
        var i: nat :| StandsAt(part, s[1..], i);
        assert StandsAt(part, s, i + 1);
      }
    }
    if StandsIn(part, s) && !HasPrefix(s, part) {
      var i: nat :| StandsAt(part, s, i);
      assert i > 0;
      assert StandsAt(part, s[1..], i - 1);
    }
  }

  /** How the ledger's entry types are signed, whatever their case: an amount that is not a finite number counts as
      nothing, a type naming a credit, deposit, harvest or yield adds it, one naming a debit, withdrawal, sending or
      reserving and none of those takes it away, and any other leaves the total. */
  lemma SignOf(e: HistoryEntry)
    ensures e.amount.None? ==> ToSignedAtomic(e) == 0.0
    ensures e.amount.Some? ==>
      var t, amount := Lower(e.entryType), e.amount.value;
      ToSignedAtomic(e) ==
        if StandsIn("credit", t) || StandsIn("deposit", t) || StandsIn("harvest", t) || StandsIn("yield", t) then amount
        else if StandsIn("debit", t) || StandsIn("withdraw", t) || StandsIn("send", t) || StandsIn("reserve", t) then -amount
        else 0.0
  {
    var t := Lower(e.entryType);
    IncludesMeans(t, "credit");
    IncludesMeans(t, "deposit");
    IncludesMeans(t, "harvest");
    IncludesMeans(t, "yield");
    IncludesMeans(t, "debit");
    IncludesMeans(t, "withdraw");
    IncludesMeans(t, "send");
    IncludesMeans(t, "reserve");
  }

  // ---------------------------------------------------------------- the window, by reference

  /** What the entries of one day add up to. */
  function Bucket(history: seq<HistoryEntry>, key: string): real {
    if history == [] then 0.0
    else
      var e := history[|history| - 1];
      Bucket(history[..|history| - 1], key) + if e.day == Some(key) then ToSignedAtomic(e) else 0.0
  }

  predicate InWindow(e: HistoryEntry, keys: seq<string>) {
    e.day.Some? && e.day.value in keys
  }

  /** What exactly the entries inside the window add up to. */
  function NetChange(history: seq<HistoryEntry>, keys: seq<string>): real {
    if history == [] then 0.0
    else
      var e := history[|history| - 1];
      NetChange(history[..|history| - 1], keys) + if InWindow(e, keys) then ToSignedAtomic(e) else 0.0
  }

  /** The buckets of the first `n` days, one after another. */
  function BucketSum(history: seq<HistoryEntry>, keys: seq<string>, n: nat): real
    requires n <= |keys|
  {
    if n == 0 then 0.0 else BucketSum(history, keys, n - 1) + Bucket(history, keys[n - 1])
  }

  function Keys(days: seq<Day>): (keys: seq<string>)
    ensures |keys| == |days|
    ensures forall i | 0 <= i < |days| :: keys[i] == days[i].key
  {
    seq(|days|, i requires 0 <= i < |days| => days[i].key)
  }

  predicate Distinct(keys: seq<string>) {
    forall i, j | 0 <= i < j < |keys| :: keys[i] != keys[j]
  }

  predicate Dated(history: seq<HistoryEntry>) {
    forall e | e in history :: e.day.Some?
  }

  /** The buckets of distinct days partition the entries of the window. */
  lemma {:induction false} BucketsPartitionWindow(history: seq<HistoryEntry>, keys: seq<string>)
    requires Distinct(keys)
    ensures BucketSum(history, keys, |keys|) == NetChange(history, keys)
  {
    if history == [] {
      EmptyHistory(keys, |keys|);
    } else {
      var n := |history| - 1;
      BucketsPartitionWindow(history[..n], keys);
      OneMoreEntry(history[..n], history[n], keys, |keys|);
      assert history == history[..n] + [history[n]];
    }
  }

  lemma {:induction false} EmptyHistory(keys: seq<string>, n: nat)
    requires n <= |keys|
    ensures BucketSum([], keys, n) == 0.0
  {
    if n > 0 {
      EmptyHistory(keys, n - 1);
    }
  }

  lemma {:induction false} OneMoreEntry(history: seq<HistoryEntry>, e: HistoryEntry, keys: seq<string>, n: nat)
    requires Distinct(keys) && n <= |keys|
    ensures BucketSum(history + [e], keys, n) ==
      BucketSum(history, keys, n) + if exists j | 0 <= j < n :: e.day == Some(keys[j]) then ToSignedAtomic(e) else 0.0
  {
    if n > 0 {
      OneMoreEntry(history, e, keys, n - 1);
      assert (history + [e])[..|history|] == history;
    }
  }

  // ---------------------------------------------------------------- the trend

  /** Where the trend starts, before its first day. */
  function Start(history: seq<HistoryEntry>, days: seq<Day>, current: real): real {
    Max(0.0, current - NetChange(history, Keys(days)))
  }

  /** The total shown for a day: the start plus every bucket so far, never below zero. */
  function Shown(history: seq<HistoryEntry>, days: seq<Day>, current: real, i: nat): real
    requires i < |days|
  {
    Max(0.0, Start(history, days, current) + BucketSum(history, Keys(days), i + 1))
  }

  ghost predicate SameKeys(a: seq<string>, b: seq<string>) {
    forall k :: k in a <==> k in b
  }

  lemma {:induction false} SameKeysSameNet(history: seq<HistoryEntry>, a: seq<string>, b: seq<string>)
    requires SameKeys(a, b)
    ensures NetChange(history, a) == NetChange(history, b)
  {
    if history != [] {
      SameKeysSameNet(history[..|history| - 1], a, b);
    }
  }

  lemma NewKey(keys: seq<string>, key: string)
    requires Distinct(keys) && key !in keys
    ensures Distinct(keys + [key])
  {
  }

  /** One empty bucket for each different day, and the days in the order the buckets were made. */
  method EmptyBuckets(keys: seq<string>) returns (dailyDelta: map<string, real>, order: seq<string>)
    ensures Distinct(order) && SameKeys(order, keys)
    ensures forall k :: k in dailyDelta <==> k in keys
    ensures forall k | k in dailyDelta :: dailyDelta[k] == 0.0
  {
    dailyDelta := map[];
    order := [];
    for i := 0 to |keys|
      invariant Distinct(order) && forall k :: k in order <==> k in keys[..i]
      invariant forall k :: k in dailyDelta <==> k in keys[..i]
      invariant forall k | k in dailyDelta :: dailyDelta[k] == 0.0
    {
      assert keys[..i + 1] == keys[..i] + [keys[i]];
      if keys[i] !in dailyDelta {
        NewKey(order, keys[i]);
        order := order + [keys[i]];
      }
      dailyDelta := dailyDelta[keys[i] := 0.0];
    }
    assert keys[..|keys|] == keys;
  }

  /** Adds each entry of the window to its day's bucket. */
  method FillBuckets(empty: map<string, real>, history: seq<HistoryEntry>)
    returns (r: Result<map<string, real>, TrendError>)
    requires forall k | k in empty :: empty[k] == 0.0
    ensures r.Ok? <==> Dated(history)
    ensures r.Ok? ==> r.value.Keys == empty.Keys
    ensures r.Ok? ==> forall k | k in r.value :: r.value[k] == Bucket(history, k)
  {
    var dailyDelta := empty;
    for i := 0 to |history|
      invariant dailyDelta.Keys == empty.Keys
      invariant Dated(history[..i])
      invariant forall k | k in dailyDelta :: dailyDelta[k] == Bucket(history[..i], k)
    {
      assert history[..i + 1][..i] == history[..i];
      var e := history[i];
      if e.day.None? {
        return Err(InvalidDate);
      }
      if e.day.value in dailyDelta {
        dailyDelta := dailyDelta[e.day.value := dailyDelta[e.day.value] + ToSignedAtomic(e)];
      }
    }
    assert history[..|history|] == history;
    r := Ok(dailyDelta);
  }

  predicate Covers(dailyDelta: map<string, real>, keys: seq<string>) {
    forall i | 0 <= i < |keys| :: keys[i] in dailyDelta
  }

  /** The sum of the first `n` days' buckets as computed. */
  function DeltaSum(dailyDelta: map<string, real>, keys: seq<string>, n: nat): real
    requires Covers(dailyDelta, keys) && n <= |keys|
  {
    if n == 0 then 0.0 else DeltaSum(dailyDelta, keys, n - 1) + dailyDelta[keys[n - 1]]
  }

  lemma {:induction false} DeltasAreBuckets(
      dailyDelta: map<string, real>, history: seq<HistoryEntry>, keys: seq<string>, n: nat)
    requires Covers(dailyDelta, keys) && n <= |keys|
    requires forall k | k in dailyDelta :: dailyDelta[k] == Bucket(history, k)
    ensures DeltaSum(dailyDelta, keys, n) == BucketSum(history, keys, n)
  {
    if n > 0 {
      DeltasAreBuckets(dailyDelta, history, keys, n - 1);
    }
  }

  /** The sum over all buckets. */
  method SumBuckets(dailyDelta: map<string, real>, order: seq<string>) returns (total: real)
    requires Covers(dailyDelta, order)
    ensures total == DeltaSum(dailyDelta, order, |order|)
  {
    total := 0.0;
    for i := 0 to |order|
      invariant total == DeltaSum(dailyDelta, order, i)
    {
      total := total + dailyDelta[order[i]];
    }
  }

  function RunningTotal(dailyDelta: map<string, real>, keys: seq<string>, start: real, i: nat): real
    requires Covers(dailyDelta, keys) && i < |keys|
  {
    Max(0.0, start + DeltaSum(dailyDelta, keys, i + 1))
  }

  /** The running total after each day, shown as zero while it is negative. */
  method RunningTotals(days: seq<Day>, dailyDelta: map<string, real>, start: real) returns (points: seq<TrendPoint>)
    requires Covers(dailyDelta, Keys(days))
    ensures |points| == |days|
    ensures forall i | 0 <= i < |days| ::
      points[i] == TrendPoint(days[i].weekday, RunningTotal(dailyDelta, Keys(days), start, i))
  {
    ghost var keys := Keys(days);
    var running := start;
    points := [];
    for i := 0 to |days|
      invariant |points| == i
      invariant running == start + DeltaSum(dailyDelta, keys, i)
      invariant forall k | 0 <= k < i ::
        points[k] == TrendPoint(days[k].weekday, RunningTotal(dailyDelta, keys, start, k))
    {
      running := running + dailyDelta[days[i].key];
      assert running == start + DeltaSum(dailyDelta, keys, i + 1);
      points := points + [TrendPoint(days[i].weekday, Max(0.0, running))];
    }
  }

  /** The trend of any history over any days; an entry without a valid date fails the whole call. */
  method BuildTrend(days: seq<Day>, history: seq<HistoryEntry>, currentTotalAtomic: real)
    returns (r: Result<seq<TrendPoint>, TrendError>)
    ensures r.Ok? <==> Dated(history)
    ensures r.Ok? ==> |r.value| == |days|
    ensures r.Ok? ==> forall i | 0 <= i < |days| ::
      r.value[i] == TrendPoint(days[i].weekday, Shown(history, days, currentTotalAtomic, i))
  {
    var empty, order := EmptyBuckets(Keys(days));
    var dailyDelta :- FillBuckets(empty, history);
    var totalRecentDelta := SumBuckets(dailyDelta, order);
    DeltasAreBuckets(dailyDelta, history, order, |order|);
    BucketsPartitionWindow(history, order);
    SameKeysSameNet(history, order, Keys(days));
    var points := RunningTotals(days, dailyDelta, Max(0.0, currentTotalAtomic - totalRecentDelta));
    forall n: nat | n <= |days|
      ensures DeltaSum(dailyDelta, Keys(days), n) == BucketSum(history, Keys(days), n)
    {
      DeltasAreBuckets(dailyDelta, history, Keys(days), n);
    }
    r := Ok(points);
  }

  /** Over distinct days, the trend ends at the current total exactly if that total is nonnegative and
      not below the window's net change. */
  lemma EndsAtCurrentTotalIff(history: seq<HistoryEntry>, days: seq<Day>, current: real)
    requires days != [] && Distinct(Keys(days))
    ensures Shown(history, days, current, |days| - 1) == current <==>
      current >= 0.0 && current >= NetChange(history, Keys(days))
  {
    BucketsPartitionWindow(history, Keys(days));
  }

  /** Whatever the days: from a nonnegative total not below the net change, the trend ends there exactly
      if the buckets of repeated days cancel, or push a zero total down. */
  lemma RepeatedDaysCountAgain(history: seq<HistoryEntry>, days: seq<Day>, current: real)
    requires days != [] && current >= 0.0 && current >= NetChange(history, Keys(days))
    ensures var extra := BucketSum(history, Keys(days), |days|) - NetChange(history, Keys(days));
      Shown(history, days, current, |days| - 1) == current <==> extra == 0.0 || (current == 0.0 && extra < 0.0)
  {
  }

  /** The seven days up to Monday, 31 March 2025, half past one in the morning in Paris: clocks went
      forward on the Sunday, and both Sunday and Monday fall on the UTC date of the Sunday. */
  function SpringDays(): seq<Day> {
    [Day("2025-03-25", "Tue"), Day("2025-03-26", "Wed"), Day("2025-03-27", "Thu"), Day("2025-03-28", "Fri"),
     Day("2025-03-29", "Sat"), Day("2025-03-30", "Sun"), Day("2025-03-30", "Mon")]
  }

  /** A deposit on that date is drawn twice. */
  lemma RepeatedDayMissesCurrentTotal()
    ensures Shown([HistoryEntry("DEPOSIT", Some(5.0), Some("2025-03-30"))], SpringDays(), 5.0, 6) == 10.0
  {
    var e := HistoryEntry("DEPOSIT", Some(5.0), Some("2025-03-30"));
    var keys := Keys(SpringDays());
    DepositIsInflow();
    assert ToSignedAtomic(e) == 5.0;
    forall j | 0 <= j < 5 ensures keys[j] != "2025-03-30" {
      assert keys[j][8] == '2';
    }
    OneEntry(e, keys, 5);
    OneEntryBucket(e, keys[5]);
    assert BucketSum([e], keys, 6) == 5.0 && BucketSum([e], keys, 7) == 10.0;
    assert InWindow(e, keys) by {
      assert keys[5] == "2025-03-30";
    }
    assert [e][..0] == [];
    assert NetChange([e], keys) == 5.0;
  }

  lemma OneEntryBucket(e: HistoryEntry, key: string)
    ensures Bucket([e], key) == if e.day == Some(key) then ToSignedAtomic(e) else 0.0
  {
    assert [e][..0] == [];
  }

  lemma {:induction false} OneEntry(e: HistoryEntry, keys: seq<string>, n: nat)
    requires n <= |keys| && forall j | 0 <= j < n :: e.day != Some(keys[j])
    ensures BucketSum([e], keys, n) == 0.0
  {
    if n > 0 {
      OneEntry(e, keys, n - 1);
      OneEntryBucket(e, keys[n - 1]);
    }
  }

  lemma DepositIsInflow()
    ensures Inflow("DEPOSIT")
  {
    assert Lower("DEPOSIT") == "deposit" by {
      assert Lower("SIT") == "sit" by {
        assert "SIT"[1..] == "IT" && "IT"[1..] == "T" && "T"[1..] == "";
      }
      assert "DEPOSIT"[1..] == "EPOSIT" && "EPOSIT"[1..] == "POSIT";
      assert "POSIT"[1..] == "OSIT" && "OSIT"[1..] == "SIT";
      assert Lower("OSIT") == "osit" && Lower("POSIT") == "posit";
    }
  }

  // ---------------------------------------------------------------- the sparkline

  datatype Point = Point(x: real, y: real)

  function MinOf(values: seq<real>): (m: real)
    requires values != []
    ensures forall i | 0 <= i < |values| :: m <= values[i]
  {
    if |values| == 1 then values[0]
    else
      var rest := MinOf(values[1..]);
      assert forall i | 1 <= i < |values| :: values[i] == values[1..][i - 1];
      if values[0] < rest then values[0] else rest
  }

  function MaxOf(values: seq<real>): (m: real)
    requires values != []
    ensures forall i | 0 <= i < |values| :: values[i] <= m
  {
    if |values| == 1 then values[0]
    else
      var rest := MaxOf(values[1..]);
      assert forall i | 1 <= i < |values| :: values[i] == values[1..][i - 1];
      Max(values[0], rest)
  }

  /** Where the `index`-th of `n` values is drawn. */
  function Place(value: real, index: nat, n: nat, min: real, span: real, width: real, height: real): Point
    requires span > 0.0
  {
    var xStep := if n > 1 then width / (n - 1) as real else width;
    Point(index as real * xStep, height - (value - min) / span * height)
  }

  function SparklinePoints(values: seq<real>, width: real, height: real): (points: seq<Point>)
    ensures |points| == |values|
  {
    if values == [] then []
    else
      var min := MinOf(values);
      var span := Max(1.0, MaxOf(values) - min);
      seq(|values|, i requires 0 <= i < |values| => Place(values[i], i, |values|, min, span, width, height))
  }

  /** Every point lies in the drawing area, and the line runs from its left edge to its right one. */
  lemma SparklineFits(values: seq<real>, width: real, height: real, i: nat)
    requires width >= 0.0 && height >= 0.0 && i < |values|
    ensures var p := SparklinePoints(values, width, height)[i];
      && 0.0 <= p.x <= width && 0.0 <= p.y <= height
      && (|values| > 1 && i == 0 ==> p.x == 0.0) && (|values| > 1 && i == |values| - 1 ==> p.x == width)
  {
    var min := MinOf(values);
    PlaceFits(values[i], i, |values|, min, Max(1.0, MaxOf(values) - min), width, height);
  }

  /** A larger value is drawn higher, and only a larger one is. */
  lemma SparklineOrder(values: seq<real>, width: real, height: real, i: nat, j: nat)
    requires height > 0.0 && i < |values| && j < |values|
    ensures var points := SparklinePoints(values, width, height);
      values[i] < values[j] <==> points[j].y < points[i].y
  {
    var min := MinOf(values);
    PlaceOrder(values[i], i, values[j], j, |values|, min, Max(1.0, MaxOf(values) - min), width, height);
  }

  lemma PlaceOrder(a: real, i: nat, b: real, j: nat, n: nat, min: real, span: real, width: real, height: real)
    requires span > 0.0 && height > 0.0
    ensures a < b <==> Place(b, j, n, min, span, width, height).y < Place(a, i, n, min, span, width, height).y
  {
  }

  lemma PlaceFits(value: real, index: nat, n: nat, min: real, span: real, width: real, height: real)
    requires index < n && span > 0.0 && width >= 0.0 && height >= 0.0 && min <= value <= min + span
    ensures var p := Place(value, index, n, min, span, width, height);
      && 0.0 <= p.x <= width && 0.0 <= p.y <= height
      && (n > 1 && index == 0 ==> p.x == 0.0) && (n > 1 && index == n - 1 ==> p.x == width)
  {
    ShareFits(value - min, span, height);
    if n > 1 {
      StepsFit(index as real, (n - 1) as real, width);
    }
  }

  lemma ShareFits(part: real, span: real, height: real)
    requires span > 0.0 && height >= 0.0 && 0.0 <= part <= span
    ensures 0.0 <= part / span * height <= height
  {
  }

  lemma StepsFit(index: real, last: real, width: real)
    requires 0.0 <= index <= last && last > 0.0 && width >= 0.0
    ensures 0.0 <= index * (width / last) <= width
    ensures last * (width / last) == width
  {
    var step := width / last;
    assert step * last == width;
    assert step >= 0.0;
    assert index * step >= 0.0 && (last - index) * step >= 0.0;
  }

}
