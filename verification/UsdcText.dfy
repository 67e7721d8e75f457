/**
 The deposit form's reading of an amount typed as text, `toUsdcAtomic`: commas dropped, split at
 points, everything but digits dropped, six fractional digits, superfluous zeros stripped.
 The reference it is compared with is the real number that decimal text denotes.
 */
module UsdcText {

  predicate IsDigit(c: char) {
    '0' <= c <= '9'
  }

  /** What JavaScript's `trim` removes. */
  predicate IsSpace(c: char) {
    || '\U{0009}' <= c <= '\U{000D}' || c == ' ' || c == '\U{00A0}' || c == '\U{1680}'
    || '\U{2000}' <= c <= '\U{200A}' || c == '\U{2028}' || c == '\U{2029}' || c == '\U{202F}'
    || c == '\U{205F}' || c == '\U{3000}' || c == '\U{FEFF}'
  }

  // ---------------------------------------------------------------- the string operations

  function TrimStart(s: string): string {
    if s != "" && IsSpace(s[0]) then TrimStart(s[1..]) else s
  }

  function TrimEnd(s: string): string {
    if s != "" && IsSpace(s[|s| - 1]) then TrimEnd(s[..|s| - 1]) else s
  }

  function WithoutCommas(s: string): string {
    if s == "" then "" else (if s[0] == ',' then "" else [s[0]]) + WithoutCommas(s[1..])
  }

  /** `s.split(sep)`: one more part than there are separators. */
  function Split(s: string, sep: char): (parts: seq<string>)
    ensures |parts| >= 1
  {
    if s == "" then [""]
    else
      var rest := Split(s[1..], sep);
      if s[0] == sep then [""] + rest else [[s[0]] + rest[0]] + rest[1..]
  }

  function OnlyDigits(s: string): (d: string)
    ensures AllDigits(d)
  {
    if s == "" then "" else (if IsDigit(s[0]) then [s[0]] else "") + OnlyDigits(s[1..])
  }

  function Take(s: string, n: nat): string {
    if |s| <= n then s else s[..n]
  }

  function PadEnd(s: string, n: nat): string
    decreases n - |s|
  {
    if |s| >= n then s else PadEnd(s + "0", n)
  }

  /** Drops leading zeros as long as a digit follows. */
  function StripZeros(s: string): string {
    if |s| >= 2 && s[0] == '0' && IsDigit(s[1]) then StripZeros(s[1..]) else s
  }

  function ToUsdcAtomic(text: string): string {
    var trimmed := TrimEnd(TrimStart(text));
    if trimmed == "" then "0"
    else
      var parts := Split(WithoutCommas(trimmed), '.');
      var whole := OnlyDigits(parts[0]);
      var frac := PadEnd(Take(OnlyDigits(if |parts| > 1 then parts[1] else ""), 6), 6);
      if whole == "" && frac == "" then "0"
      else StripZeros((if whole == "" then "0" else whole) + frac)
  }

  // ---------------------------------------------------------------- what decimal text denotes

  predicate AllDigits(s: string) {
    forall i | 0 <= i < |s| :: IsDigit(s[i])
  }

  /** Digits grouped by commas in any way. */
  predicate Grouped(s: string) {
    forall i | 0 <= i < |s| :: IsDigit(s[i]) || s[i] == ','
  }

  predicate Spaces(s: string) {
    forall i | 0 <= i < |s| :: IsSpace(s[i])
  }

  function DigitValue(c: char): nat
    requires IsDigit(c)
  {
    (c - '0') as nat
  }

  /** The number that grouped digits denote before the point. */
  function WholeValue(s: string): nat
    requires Grouped(s)
  {
    if s == "" then 0
    else
      var c := s[|s| - 1];
      if c == ',' then WholeValue(s[..|s| - 1]) else WholeValue(s[..|s| - 1]) * 10 + DigitValue(c)
  }

  /** The number that grouped digits denote after the point. */
  function FracValue(s: string): (r: real)
    requires Grouped(s)
    ensures 0.0 <= r < 1.0
  {
    if s == "" then 0.0
    else if s[0] == ',' then FracValue(s[1..])
    else (DigitValue(s[0]) as real + FracValue(s[1..])) / 10.0
  }

  /** Well-formed decimal text, taken apart. */
  datatype Decimal = Decimal(lead: string, whole: string, point: bool, frac: string, trail: string) {
    predicate WellFormed() {
      Spaces(lead) && Spaces(trail) && Grouped(whole) && Grouped(frac) && (!point ==> frac == "")
    }

    function Body(): string {
      whole + if point then "." + frac else ""
    }

    function Text(): string {
      lead + Body() + trail
    }
  }

  /** `whole + frac` in millionths, rounded down. */
  function Millionths(whole: nat, frac: real): nat
    requires 0.0 <= frac
  {
    ((whole as real + frac) * 1_000_000.0).Floor
  }

  /** The numeral of a natural number. */
  function Numeral(n: nat): string {
    if n < 10 then [DigitChar(n)] else Numeral(n / 10) + [DigitChar(n % 10)]
  }

  function DigitChar(d: nat): (c: char)
    requires d < 10
    ensures IsDigit(c) && DigitValue(c) == d
  {
    '0' + d as char
  }

  /** Digits, at least one, and no leading zero that could go. */
  predicate Canonical(s: string) {
    |s| >= 1 && AllDigits(s) && (|s| > 1 ==> s[0] != '0')
  }

  // ---------------------------------------------------------------- every text

  /** Whatever is typed, the result is a numeral without a superfluous leading zero. */
  lemma AlwaysCanonical(text: string)
    ensures Canonical(ToUsdcAtomic(text))
  {
    var trimmed := TrimEnd(TrimStart(text));
    if trimmed != "" {
      var parts := Split(WithoutCommas(trimmed), '.');
      var frac := OnlyDigits(if |parts| > 1 then parts[1] else "");
      PadEndKeeps(Take(frac, 6), 6);
      var whole := OnlyDigits(parts[0]);
      StripKeepsValue((if whole == "" then "0" else whole) + PadEnd(Take(frac, 6), 6));
    }
  }

  lemma {:induction false} PadEndKeeps(s: string, n: nat)
    requires AllDigits(s) && |s| <= n
    ensures AllDigits(PadEnd(s, n)) && |PadEnd(s, n)| == n
    decreases n - |s|
  {
    if |s| < n {
      PadEndKeeps(s + "0", n);
    }
  }

  lemma {:induction false} StripKeepsValue(s: string)
    requires AllDigits(s) && s != ""
    ensures Canonical(StripZeros(s)) && WholeValue(StripZeros(s)) == WholeValue(s)
  {
    if |s| >= 2 && s[0] == '0' {
      StripKeepsValue(s[1..]);
      LeadingDigit(s);
    }
  }

  // ---------------------------------------------------------------- numerals

  function Pow10(k: nat): (p: nat)
    ensures p >= 1
  {
    if k == 0 then 1 else 10 * Pow10(k - 1)
  }

  lemma {:induction false} LeadingDigit(s: string)
    requires AllDigits(s) && s != ""
    ensures WholeValue(s) == DigitValue(s[0]) * Pow10(|s| - 1) + WholeValue(s[1..])
  {
    var n := |s| - 1;
    if n == 0 {
      assert s[..n] == "" && s[1..] == "";
    } else {
      LeadingDigit(s[..n]);
      assert s[..n][1..] == s[1..][..n - 1];
      assert s[1..][|s[1..]| - 1] == s[n];
      ShiftLeft(DigitValue(s[0]), Pow10(n - 1), WholeValue(s[..n][1..]), DigitValue(s[n]));
    }
  }

  lemma {:induction false} ConcatValue(a: string, b: string)
    requires AllDigits(a) && AllDigits(b)
    ensures WholeValue(a + b) == WholeValue(a) * Pow10(|b|) + WholeValue(b)
  {
    if b == "" {
      assert a + b == a;
    } else {
      var n := |b| - 1;
      ConcatValue(a, b[..n]);
      LastDigit(a + b);
      LastDigit(b);
      assert (a + b)[..|a + b| - 1] == a + b[..n];
      ShiftLeft(WholeValue(a), Pow10(n), WholeValue(b[..n]), DigitValue(b[n]));
    }
  }

  lemma LastDigit(s: string)
    requires AllDigits(s) && s != ""
    ensures WholeValue(s) == WholeValue(s[..|s| - 1]) * 10 + DigitValue(s[|s| - 1])
  {
  }

  lemma ShiftLeft(v: int, p: int, w: int, d: int)
    ensures (v * p + w) * 10 + d == v * (10 * p) + (w * 10 + d)
  {
  }

  /** A numeral without superfluous zeros is determined by its value. */
  lemma {:induction false} NumeralOfValue(s: string)
    requires Canonical(s)
    ensures Numeral(WholeValue(s)) == s
  {
    var n := |s| - 1;
    var d := DigitValue(s[n]);
    assert DigitChar(d) == s[n];
    if n == 0 {
      assert s[..n] == "";
      assert WholeValue(s) == d;
    } else {
      NumeralOfValue(s[..n]);
      PositiveValue(s[..n]);
      assert WholeValue(s) / 10 == WholeValue(s[..n]) && WholeValue(s) % 10 == d;
    }
  }

  lemma {:induction false} PositiveValue(s: string)
    requires AllDigits(s) && s != "" && s[0] != '0'
    ensures WholeValue(s) > 0
  {
    var n := |s| - 1;
    if n > 0 {
      PositiveValue(s[..n]);
    }
  }

  lemma {:induction false} ValueOfNumeral(n: nat)
    ensures Canonical(Numeral(n)) && WholeValue(Numeral(n)) == n
    ensures n > 0 ==> Numeral(n)[0] != '0'
  {
    if n < 10 {
      assert Numeral(n)[..0] == "";
    } else {
      ValueOfNumeral(n / 10);
      var s := Numeral(n);
      assert s[..|s| - 1] == Numeral(n / 10);
    }
  }

  // ---------------------------------------------------------------- well-formed text

  /** Text denoting a number is read as the numeral of that number of millionths, rounded down. */
  lemma ReadsDecimalText(d: Decimal)
    requires d.WellFormed()
    ensures ToUsdcAtomic(d.Text()) == Numeral(Millionths(WholeValue(d.whole), FracValue(d.frac)))
  {
    TrimBody(d);
    if d.Body() == "" {
      assert d.whole == "" && d.frac == "";
      MillionthsSplit(0, 0.0);
      assert Numeral(0) == "0";
    } else {
      SplitBody(d);
      var whole := OnlyDigits(WithoutCommas(d.whole));
      var frac := OnlyDigits(WithoutCommas(d.frac));
      DropCommas(d.whole);
      DropCommas(d.frac);
      FracDigits(d.frac);
      JoinParts(whole, frac);
    }
  }

  /** Whole digits followed by six fractional ones make the number of millionths. */
  lemma JoinParts(whole: string, frac: string)
    requires AllDigits(whole) && AllDigits(frac)
    ensures StripZeros((if whole == "" then "0" else whole) + PadEnd(Take(frac, 6), 6))
         == Numeral(Millionths(WholeValue(whole), FracValue(frac)))
  {
    var six := PadEnd(Take(frac, 6), 6);
    var front := if whole == "" then "0" else whole;
    PadEndKeeps(Take(frac, 6), 6);
    assert WholeValue(front) == WholeValue(whole) by {
      LastDigit(front);
    }
    ConcatValue(front, six);
    assert WholeValue(front + six) == Millionths(WholeValue(whole), FracValue(frac)) by {
      ScaledFloor(frac, 6);
      SixPlaces(FracValue(frac));
      MillionthsSplit(WholeValue(whole), FracValue(frac));
    }
    StripKeepsValue(front + six);
    NumeralOfValue(StripZeros(front + six));
  }

  lemma MillionthsSplit(whole: nat, frac: real)
    requires 0.0 <= frac
    ensures Millionths(whole, frac) == whole * 1_000_000 + (frac * 1_000_000.0).Floor
  {
  }

  lemma SixPlaces(x: real)
    ensures Pow10(6) == 1_000_000 && Scaled(x, 6) == x * 1_000_000.0
  {
  }

  lemma FloorOfSum(n: int, x: real)
    ensures (n as real + x).Floor == n + x.Floor
  {
  }

  lemma TrimBody(d: Decimal)
    requires d.WellFormed()
    ensures TrimEnd(TrimStart(d.Text())) == d.Body()
  {
    assert d.Text() == d.lead + (d.Body() + d.trail);
    TrimLead(d.lead, d.Body() + d.trail);
    var b := d.Body();
    BodyHasNoSpaces(d);
    if b == "" {
      assert b + d.trail == d.trail;
      TrimLead(d.trail, "");
      assert d.trail + "" == d.trail;
    } else {
      assert TrimStart(b + d.trail) == b + d.trail;
      TrimTrail(b, d.trail);
    }
  }

  lemma BodyHasNoSpaces(d: Decimal)
    requires d.WellFormed()
    ensures forall i | 0 <= i < |d.Body()| :: !IsSpace(d.Body()[i])
  {
  }

  lemma {:induction false} TrimLead(lead: string, rest: string)
    requires Spaces(lead)
    ensures TrimStart(lead + rest) == TrimStart(rest)
  {
    if lead == "" {
      assert lead + rest == rest;
    } else {
      assert (lead + rest)[1..] == lead[1..] + rest;
      TrimLead(lead[1..], rest);
    }
  }

  lemma {:induction false} TrimTrail(body: string, trail: string)
    requires Spaces(trail) && body != "" && !IsSpace(body[|body| - 1])
    ensures TrimEnd(body + trail) == body
  {
    if trail == "" {
      assert body + trail == body;
    } else {
      var n := |trail| - 1;
      assert (body + trail)[..|body + trail| - 1] == body + trail[..n];
      TrimTrail(body, trail[..n]);
    }
  }

  lemma SplitBody(d: Decimal)
    requires d.WellFormed()
    ensures Split(WithoutCommas(d.Body()), '.') ==
      if d.point then [WithoutCommas(d.whole), WithoutCommas(d.frac)] else [WithoutCommas(d.whole)]
    ensures d.frac == "" ==> WithoutCommas(d.frac) == ""
  {
    NoPoint(d.whole);
    NoPoint(d.frac);
    if d.point {
      CommasApart(d.whole, "." + d.frac);
      assert ("." + d.frac)[1..] == d.frac;
      SplitAtPoint(WithoutCommas(d.whole), WithoutCommas(d.frac));
    } else {
      assert d.Body() == d.whole;
      SplitWithout(WithoutCommas(d.whole));
    }
  }

  lemma {:induction false} CommasApart(a: string, b: string)
    ensures WithoutCommas(a + b) == WithoutCommas(a) + WithoutCommas(b)
  {
    if a == "" {
      assert a + b == b;
    } else {
      assert (a + b)[1..] == a[1..] + b;
      CommasApart(a[1..], b);
    }
  }

  lemma {:induction false} NoPoint(s: string)
    requires Grouped(s)
    ensures AllDigits(WithoutCommas(s))
  {
    if s != "" {
      NoPoint(s[1..]);
    }
  }

  lemma {:induction false} SplitWithout(s: string)
    requires AllDigits(s)
    ensures Split(s, '.') == [s]
  {
    if s != "" {
      SplitWithout(s[1..]);
      assert [s[0]] + s[1..] == s;
    }
  }

  lemma {:induction false} SplitAtPoint(a: string, b: string)
    requires AllDigits(a) && AllDigits(b)
    ensures Split(a + ("." + b), '.') == [a, b]
  {
    if a == "" {
      assert a + ("." + b) == "." + b && ("." + b)[1..] == b;
      SplitWithout(b);
    } else {
      var s := a + ("." + b);
      assert s[1..] == a[1..] + ("." + b);
      SplitAtPoint(a[1..], b);
      assert [s[0]] + a[1..] == a;
    }
  }

  /** Dropping the commas leaves digits of the same value. */
  lemma {:induction false} DropCommas(s: string)
    requires Grouped(s)
    ensures AllDigits(WithoutCommas(s)) && OnlyDigits(WithoutCommas(s)) == WithoutCommas(s)
    ensures WholeValue(WithoutCommas(s)) == WholeValue(s)
  {
    NoPoint(s);
    DigitsStay(WithoutCommas(s));
    if s != "" {
      var n := |s| - 1;
      DropCommas(s[..n]);
      assert s == s[..n] + [s[n]];
      CommasApart(s[..n], [s[n]]);
      assert WithoutCommas([s[n]]) == if s[n] == ',' then "" else [s[n]];
      NoPoint(s[..n]);
      var t := WithoutCommas(s);
      if s[n] == ',' {
        assert t == WithoutCommas(s[..n]);
      } else {
        assert t[..|t| - 1] == WithoutCommas(s[..n]) && t[|t| - 1] == s[n];
      }
    }
  }

  lemma {:induction false} DigitsStay(s: string)
    requires AllDigits(s)
    ensures OnlyDigits(s) == s
  {
    if s != "" {
      DigitsStay(s[1..]);
    }
  }

  lemma {:induction false} FracDigits(s: string)
    requires Grouped(s)
    ensures AllDigits(WithoutCommas(s)) && FracValue(WithoutCommas(s)) == FracValue(s)
  {
    NoPoint(s);
    if s != "" {
      FracDigits(s[1..]);
      NoPoint(s[1..]);
      var t := WithoutCommas(s);
      if s[0] == ',' {
        assert t == WithoutCommas(s[1..]);
      } else {
        assert t[1..] == WithoutCommas(s[1..]);
      }
    }
  }

  /** `x` times 10^k. */
  function Scaled(x: real, k: nat): real
    decreases k
  {
    if k == 0 then x else Scaled(10.0 * x, k - 1)
  }

  lemma {:induction false} ScaledSum(n: nat, x: real, k: nat)
    ensures Scaled(n as real + x, k) == (n * Pow10(k)) as real + Scaled(x, k)
    decreases k
  {
    if k > 0 {
      ScaledSum(10 * n, 10.0 * x, k - 1);
      assert 10.0 * (n as real + x) == (10 * n) as real + 10.0 * x;
      ShiftLeft(n, Pow10(k - 1), 0, 0);
    }
  }

  /** The first `k` fractional digits, padded with zeros, are the fraction times 10^k rounded down. */
  lemma {:induction false} ScaledFloor(s: string, k: nat)
    requires AllDigits(s)
    ensures AllDigits(PadEnd(Take(s, k), k))
    ensures WholeValue(PadEnd(Take(s, k), k)) == Scaled(FracValue(s), k).Floor
    decreases k
  {
    PadEndKeeps(Take(s, k), k);
    var padded := PadEnd(Take(s, k), k);
    if k == 0 {
      assert padded == "";
    } else {
      var rest := if s == "" then "" else s[1..];
      var d := if s == "" then '0' else s[0];
      ScaledFloor(rest, k - 1);
      PadEndKeeps(Take(rest, k - 1), k - 1);
      PadEndFirst(s, k);
      assert padded[0] == d && padded[1..] == PadEnd(Take(rest, k - 1), k - 1);
      LeadingDigit(padded);
      ScaledSum(DigitValue(d), FracValue(rest), k - 1);
      assert 10.0 * FracValue(s) == DigitValue(d) as real + FracValue(rest);
      FloorOfSum(DigitValue(d) * Pow10(k - 1), Scaled(FracValue(rest), k - 1));
    }
  }

  lemma PadEndFirst(s: string, k: nat)
    requires k > 0
    ensures s == "" ==> PadEnd(Take(s, k), k) == "0" + PadEnd("", k - 1)
    ensures s != "" ==> PadEnd(Take(s, k), k) == [s[0]] + PadEnd(Take(s[1..], k - 1), k - 1)
  {
    if s == "" {
      PadEndShift('0', "", k);
      assert "" + "0" == ['0'] + "";
    } else {
      assert Take(s, k) == [s[0]] + Take(s[1..], k - 1);
      PadEndShift(s[0], Take(s[1..], k - 1), k);
    }
  }

  lemma {:induction false} PadEndShift(c: char, s: string, k: nat)
    requires |s| < k
    ensures PadEnd([c] + s, k) == [c] + PadEnd(s, k - 1)
    decreases k - |s|
  {
    if |s| + 1 < k {
      assert [c] + s + "0" == [c] + (s + "0");
      PadEndShift(c, s + "0", k);
    }
  }

  // ---------------------------------------------------------------- printing and reading back

  /** The last `k` digits of a number. */
  function LastDigits(n: nat, k: nat): string {
    if k == 0 then "" else LastDigits(n / 10, k - 1) + [DigitChar(n % 10)]
  }

  /** An amount of micro-USDC as whole part, point and six digits. */
  function Printed(n: nat): string {
    Numeral(n / 1_000_000) + "." + LastDigits(n % 1_000_000, 6)
  }

  /** Reading back a printed amount gives the amount. */
  lemma PrintedReadsBack(n: nat)
    ensures ToUsdcAtomic(Printed(n)) == Numeral(n)
  {
    PrintedParts(n);
    ReadsParts(Numeral(n / 1_000_000), LastDigits(n % 1_000_000, 6));
  }

  lemma ReadsParts(whole: string, frac: string)
    requires AllDigits(whole) && AllDigits(frac)
    ensures ToUsdcAtomic(whole + "." + frac) == Numeral(Millionths(WholeValue(whole), FracValue(frac)))
  {
    var d := Decimal("", whole, true, frac, "");
    var body := whole + ("." + frac);
    assert d.Text() == "" + body + "" == body == whole + "." + frac;
    ReadsDecimalText(d);
  }

  lemma PrintedParts(n: nat)
    ensures AllDigits(Numeral(n / 1_000_000)) && AllDigits(LastDigits(n % 1_000_000, 6))
    ensures Millionths(WholeValue(Numeral(n / 1_000_000)), FracValue(LastDigits(n % 1_000_000, 6))) == n
  {
    ValueOfNumeral(n / 1_000_000);
    SixPlaces(0.0);
    ValueOfLastDigits(n % 1_000_000, 6);
    var frac := LastDigits(n % 1_000_000, 6);
    assert PadEnd(Take(frac, 6), 6) == frac;
    ScaledFloor(frac, 6);
    SixPlaces(FracValue(frac));
    MillionthsSplit(n / 1_000_000, FracValue(frac));
  }

  lemma {:induction false} ValueOfLastDigits(m: nat, k: nat)
    requires m < Pow10(k)
    ensures AllDigits(LastDigits(m, k)) && |LastDigits(m, k)| == k
    ensures WholeValue(LastDigits(m, k)) == m
  {
    if k > 0 {
      ValueOfLastDigits(m / 10, k - 1);
      var s := LastDigits(m, k);
      assert s[..|s| - 1] == LastDigits(m / 10, k - 1);
    }
  }

  // ---------------------------------------------------------------- signs and other characters

  /** The digits and points of a text, in order. */
  function Kept(s: string): string {
    if s == "" then "" else (if IsDigit(s[0]) || s[0] == '.' then [s[0]] else "") + Kept(s[1..])
  }

  /** The digits before the first point. */
  function WholeDigits(s: string): string {
    if s == "" || s[0] == '.' then ""
    else (if IsDigit(s[0]) then [s[0]] else "") + WholeDigits(s[1..])
  }

  /** The digits between the first two points. */
  function PointDigits(s: string): string {
    if s == "" then "" else if s[0] == '.' then WholeDigits(s[1..]) else PointDigits(s[1..])
  }

  function FromDigits(whole: string, frac: string): string {
    StripZeros((if whole == "" then "0" else whole) + PadEnd(Take(frac, 6), 6))
  }

  lemma {:induction false} PartsDigits(s: string)
    ensures var parts := Split(WithoutCommas(s), '.');
      OnlyDigits(parts[0]) == WholeDigits(s) && OnlyDigits(if |parts| > 1 then parts[1] else "") == PointDigits(s)
  {
    if s != "" {
      PartsDigits(s[1..]);
      var rest := WithoutCommas(s[1..]);
      if s[0] == ',' {
        assert WithoutCommas(s) == rest && WholeDigits(s) == WholeDigits(s[1..]);
      } else {
        assert WithoutCommas(s) == [s[0]] + rest && ([s[0]] + rest)[1..] == rest;
        var parts, first := Split(rest, '.'), Split(WithoutCommas(s), '.')[0];
        if s[0] != '.' {
          assert first == [s[0]] + parts[0] && first[1..] == parts[0];
          assert !IsDigit(s[0]) ==> OnlyDigits(first) == OnlyDigits(parts[0]) && WholeDigits(s) == WholeDigits(s[1..]);
        }
      }
    }
  }

  lemma {:induction false} KeptDigits(s: string)
    ensures WholeDigits(Kept(s)) == WholeDigits(s) && PointDigits(Kept(s)) == PointDigits(s)
  {
    if s != "" {
      KeptDigits(s[1..]);
      if IsDigit(s[0]) || s[0] == '.' {
        assert Kept(s)[1..] == Kept(s[1..]);
      } else {
        assert Kept(s) == Kept(s[1..]) && WholeDigits(s) == WholeDigits(s[1..]);
      }
    }
  }

  lemma {:induction false} KeptApart(a: string, b: string)
    ensures Kept(a + b) == Kept(a) + Kept(b)
  {
    if a == "" {
      assert a + b == b;
    } else {
      assert (a + b)[1..] == a[1..] + b && (a + b)[0] == a[0];
      KeptApart(a[1..], b);
      var first := if IsDigit(a[0]) || a[0] == '.' then [a[0]] else "";
      assert Kept(a + b) == first + Kept(a[1..] + b) && Kept(a) == first + Kept(a[1..]);
      assert first + (Kept(a[1..]) + Kept(b)) == (first + Kept(a[1..])) + Kept(b);
    }
  }

  lemma {:induction false} KeptHasNoOthers(s: string)
    ensures forall i | 0 <= i < |Kept(s)| :: !IsSpace(Kept(s)[i])
    ensures Kept(Kept(s)) == Kept(s)
  {
    if s != "" {
      KeptHasNoOthers(s[1..]);
      if IsDigit(s[0]) || s[0] == '.' {
        assert Kept(s)[1..] == Kept(s[1..]);
      } else {
        assert Kept(s) == Kept(s[1..]);
      }
    }
  }

  lemma {:induction false} TrimKeeps(s: string)
    ensures Kept(TrimStart(s)) == Kept(s)
  {
    if s != "" && IsSpace(s[0]) {
      TrimKeeps(s[1..]);
    }
  }

  lemma {:induction false} TrimEndKeeps(s: string)
    ensures Kept(TrimEnd(s)) == Kept(s)
  {
    if s != "" && IsSpace(s[|s| - 1]) {
      var n := |s| - 1;
      TrimEndKeeps(s[..n]);
      assert s == s[..n] + [s[n]] && Kept([s[n]]) == "";
      KeptApart(s[..n], [s[n]]);
    }
  }

  /** The reading is a function of the digits and points alone. */
  lemma ReadsKept(text: string)
    ensures ToUsdcAtomic(text) == FromDigits(WholeDigits(Kept(text)), PointDigits(Kept(text)))
  {
    var trimmed := TrimEnd(TrimStart(text));
    TrimKeeps(text);
    TrimEndKeeps(TrimStart(text));
    KeptDigits(trimmed);
    PartsDigits(trimmed);
    PadEndKeeps(Take(PointDigits(trimmed), 6), 6);
    if trimmed == "" {
      ReadsNothing();
    }
  }

  lemma ReadsNothing()
    ensures FromDigits("", "") == "0"
  {
    AllZeros("", 6);
    OneZero("0" + PadEnd("", 6));
  }

  /** Whatever is neither a digit nor a point is ignored, wherever it stands. */
  lemma OthersAreIgnored(text: string)
    ensures ToUsdcAtomic(text) == ToUsdcAtomic(Kept(text))
  {
    ReadsKept(text);
    ReadsKept(Kept(text));
    KeptHasNoOthers(text);
  }

  /** So a sign before well-formed text is dropped: the text is read as its absolute value. */
  lemma SignIsDropped(d: Decimal, sign: char)
    requires d.WellFormed() && !IsDigit(sign) && sign != '.'
    ensures ToUsdcAtomic(d.lead + [sign] + d.Body() + d.trail) == Numeral(Millionths(WholeValue(d.whole), FracValue(d.frac)))
  {
    KeptOfFour(d.lead, [sign], d.Body(), d.trail);
    KeptOfFour(d.lead, "", d.Body(), d.trail);
    assert d.lead + "" == d.lead && Kept([sign]) == "";
    OthersAreIgnored(d.lead + [sign] + d.Body() + d.trail);
    OthersAreIgnored(d.Text());
    ReadsDecimalText(d);
  }

  lemma KeptOfFour(a: string, b: string, c: string, d: string)
    ensures Kept(a + b + c + d) == Kept(a) + Kept(b) + Kept(c) + Kept(d)
  {
    KeptApart(a + b + c, d);
    KeptApart(a + b, c);
    KeptApart(a, b);
  }

  lemma {:induction false} OneZero(s: string)
    requires s != "" && forall i | 0 <= i < |s| :: s[i] == '0'
    ensures StripZeros(s) == "0"
  {
    if |s| >= 2 {
      OneZero(s[1..]);
    }
  }

  lemma {:induction false} AllZeros(s: string, n: nat)
    requires |s| <= n && forall i | 0 <= i < |s| :: s[i] == '0'
    ensures forall i | 0 <= i < |PadEnd(s, n)| :: PadEnd(s, n)[i] == '0'
    decreases n - |s|
  {
    if |s| < n {
      AllZeros(s + "0", n);
    }
  }
}
