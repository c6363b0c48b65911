/** The price of a session on its way from the orchestrator's integer cents, through the displayed
    dollars, back to wei in the browser and into the escrow's check. */
module Pricing {
  import opened Decimal
  import opened Doubles
  import opened Optional
  import Escrow

  function RateCentsPerHour(tier: Escrow.Tier): nat {
    match tier
    case Lite => 10
    case Standard => 35
    case Turbo => 100
  }

  const WEI_PER_CENT := 10_000_000_000_000_000

  function PriceCents(tier: Escrow.Tier, hours: nat): nat { RateCentsPerHour(tier) * hours }

  function PriceWei(tier: Escrow.Tier, hours: nat): nat { PriceCents(tier, hours) * WEI_PER_CENT }

  /** The orchestrator and the contract quote the same price. */
  lemma PricesAgree(tier: Escrow.Tier, hours: nat)
    ensures PriceWei(tier, hours) == Escrow.Price(tier, hours)
  {
    assert Escrow.RatePerHour(tier) == RateCentsPerHour(tier) * WEI_PER_CENT;
    Reorder(RateCentsPerHour(tier), hours, WEI_PER_CENT);
  }

  lemma Reorder(a: nat, b: nat, c: nat)
    ensures a * b * c == a * c * b
  {}

  // ---------------------------------------------------------------- display

  /** Section 21.1.3.3 of ECMA-262: the integer `n` for which n / 100 is closest to `x`, the larger of two. */
  ghost predicate NearestHundredth(x: real, n: int) {
    forall k: int :: k != n ==> Closer(x, n, k)
  }

  ghost predicate Closer(x: real, n: int, k: int) {
    var dn, dk := Abs(n as real / 100.0 - x), Abs(k as real / 100.0 - x);
    dn < dk || (dn == dk && k < n)
  }

  /** At least three digits, zeros in front. */
  function Padded(m: string): (p: string)
    requires m != "" && AllDigits(m)
    ensures |p| >= 3 && AllDigits(p)
  {
    if |m| == 1 then "00" + m else if |m| == 2 then "0" + m else m
  }

  function Pointed(p: string): string
    requires |p| >= 3
  {
    p[..|p| - 2] + "." + p[|p| - 2..]
  }

  /** The digits of `n` with a point before the last two. */
  function FixedTwo(n: nat): string { Pointed(Padded(Render(n))) }

  /** What `(cents / 100).toFixed(2)` shows, for one rounding of the quotient. */
  ghost predicate Displays(cents: nat, text: string) {
    exists d, n: nat :: Rounds(cents as real / 100.0, d) && NearestHundredth(d, n) && text == FixedTwo(n)
  }

  // ---------------------------------------------------------------- and back

  /** The value of digits, a point and digits. */
  function MathValue(s: string): Option<real> {
    var p := PointAt(s);
    if p > 0 && p < |s| - 1 && AllDigits(s[..p]) && AllDigits(s[p + 1..]) then
      Some(Value(s[..p]) as real + DecimalPart(Value(s[p + 1..]), |s| - p - 1))
    else None
  }

  function DecimalPart(v: nat, places: nat): real { v as real / Pow10(places) }

  function PointAt(s: string): (p: nat)
    ensures p <= |s| && (p < |s| ==> s[p] == '.') && forall i :: 0 <= i < p ==> s[i] != '.'
  {
    if s == "" || s[0] == '.' then 0 else PointAt(s[1..]) + 1
  }

  function Pow10(n: nat): (p: real)
    ensures p > 0.0
  {
    if n == 0 then 1.0 else 10.0 * Pow10(n - 1)
  }

  /** The nearest integer, halves upward. */
  function RoundHalfUp(x: real): int { (x + 0.5).Floor }

  /** A display price without its leading dollar sign. */
  function Undollar(display: string): string {
    if display != "" && display[0] == '$' then display[1..] else display
  }

  /** What `usdcPriceToWei` may return: the parse and the product are each rounded to nearest. */
  ghost predicate ParsesToWei(display: string, wei: int) {
    exists v, dollars, product :: ParsesThrough(display, v, dollars, product, wei)
  }

  ghost predicate ParsesThrough(display: string, v: real, dollars: real, product: real, wei: int) {
    MathValue(Undollar(display)) == Some(v) && Rounds(v, dollars) && Rounds(dollars * 100.0, product)
    && wei == RoundHalfUp(product) * WEI_PER_CENT
  }

  // ---------------------------------------------------------------- the round trip

  const LIMIT := 1125899906842624  // 2^50

  lemma QuotientClose(cents: nat, d: real)
    requires cents < LIMIT && Rounds(cents as real / 100.0, d)
    ensures Abs(d - cents as real / 100.0) * TWO53 as real <= cents as real / 100.0
  {
    var x := cents as real / 100.0;
    if cents == 0 {
      ZeroRoundsToZero(d);
    } else {
      Bounds(x, d);
      RelativeError(x, d);
    }
  }

  lemma Bounds(x: real, r: real)
    requires 0.01 <= x <= 2.0 * LIMIT as real
    ensures Pow2(-10) <= x < Pow2(100)
  {
    assert Pow2(-10) == 1.0 / 1024.0;
    Pow2Of52();
    Shift(52, 48);
    Mono(52, 48);
  }

  lemma {:induction false} Mono(e: int, n: nat)
    ensures Pow2(e) <= Pow2(e + n)
  {
    if n > 0 { Mono(e, n - 1); Doubling(e + n - 1); }
  }

  lemma Apart(cents: int, n: int, d: real)
    requires n != cents && Abs(d - cents as real / 100.0) < 0.005
    ensures Abs(cents as real / 100.0 - d) < Abs(n as real / 100.0 - d)
  {
    if n < cents {
      assert n as real + 1.0 <= cents as real;
    } else {
      assert cents as real + 1.0 <= n as real;
    }
  }

  lemma CentsAreNearest(cents: nat, d: real)
    requires cents < LIMIT && Rounds(cents as real / 100.0, d)
    ensures NearestHundredth(d, cents)
  {
    QuotientClose(cents, d);
    forall k: int | k != cents ensures Closer(d, cents, k) { Apart(cents, k, d); }
  }

  /** toFixed(2) recovers the cents. */
  lemma HundredthIsCents(cents: nat, d: real, n: int)
    requires cents < LIMIT && Rounds(cents as real / 100.0, d) && NearestHundredth(d, n)
    ensures n == cents
  {
    CentsAreNearest(cents, d);
    assert n != cents ==> Closer(d, n, cents) && Closer(d, cents, n);
  }

  lemma {:induction false} LeadingZero(m: string)
    requires AllDigits(m)
    ensures AllDigits("0" + m) && Value("0" + m) == Value(m)
  {
    if m != "" {
      LeadingZero(m[..|m| - 1]);
      assert ("0" + m)[..|m|] == "0" + m[..|m| - 1];
    } else {
      assert "0"[..0] == "";
    }
  }

  lemma PaddingKeepsValue(m: string)
    requires m != "" && AllDigits(m)
    ensures Value(Padded(m)) == Value(m)
  {
    LeadingZero(m);
    if |m| == 1 {
      LeadingZero("0" + m);
      assert "0" + ("0" + m) == "00" + m;
    }
  }

  lemma PointIsAt(s: string, p: nat)
    requires p < |s| && AllDigits(s[..p]) && s[p] == '.'
    ensures PointAt(s) == p
  {
    assert forall i | 0 <= i < p :: s[..p][i] == s[i] && s[i] != '.';
  }

  /** Dollars and hundredths as digits round a point. */
  lemma PointedValue(s: string, p: nat, a: string, b: string)
    requires AllDigits(a) && AllDigits(b) && a != "" && |b| == 2
    requires |s| == p + 3 && s[..p] == a && s[p] == '.' && s[p + 1..] == b
    ensures MathValue(s) == Some(Value(a) as real + DecimalPart(Value(b), 2))
  {
    PointIsAt(s, p);
  }

  lemma TwoPlaces(a: nat, b: nat)
    ensures a as real + DecimalPart(b, 2) == (100 * a + b) as real / 100.0
  {
    assert Pow10(2) == 100.0;
    assert (100 * a + b) as real == 100.0 * a as real + b as real;
  }

  /** The displayed text denotes exactly n hundredths. */
  lemma FixedTwoMeansHundredths(n: nat)
    ensures MathValue(FixedTwo(n)) == Some(n as real / 100.0)
    ensures FixedTwo(n) != "" && FixedTwo(n)[0] != '$'
  {
    ValueOfRender(n);
    PaddingKeepsValue(Render(n));
    PointedHundredths(Padded(Render(n)));
  }

  lemma PointedHundredths(p: string)
    requires |p| >= 3 && AllDigits(p)
    ensures MathValue(Pointed(p)) == Some(Value(p) as real / 100.0) && Pointed(p)[0] == p[0]
  {
    var a, b := Dollars(p), Cents(p);
    PointedDollarsAndCents(p);
    TwoPlaces(a, b);
    DollarsAndCents(p);
  }

  function Dollars(p: string): nat
    requires |p| >= 3 && AllDigits(p)
  {
    Value(p[..|p| - 2])
  }

  function Cents(p: string): nat
    requires |p| >= 3 && AllDigits(p)
  {
    Value(p[|p| - 2..])
  }

  lemma DollarsAndCents(p: string)
    requires |p| >= 3 && AllDigits(p)
    ensures Value(p) == 100 * Dollars(p) + Cents(p)
  {
    LastTwo(p, |p| - 2);
    LastTwo(p[|p| - 2..], 0);
  }

  lemma LastTwo(p: string, k: nat)
    requires |p| == k + 2 && AllDigits(p)
    ensures Value(p) == 100 * Value(p[..k]) + 10 * DigitValue(p[k]) + DigitValue(p[k + 1])
  {
    assert p[..k + 1][..k] == p[..k];
  }

  lemma PointedDollarsAndCents(p: string)
    requires |p| >= 3 && AllDigits(p)
    ensures MathValue(Pointed(p)) == Some(Dollars(p) as real + DecimalPart(Cents(p), 2))
    ensures Pointed(p)[0] == p[0]
  {
    var k := |p| - 2;
    PointedParts(p, k);
    PointedValue(Pointed(p), k, p[..k], p[k..]);
  }

  lemma PointedParts(p: string, k: nat)
    requires |p| >= 3 && k == |p| - 2
    ensures var s := Pointed(p); |s| == k + 3 && s[..k] == p[..k] && s[k] == '.' && s[k + 1..] == p[k..]
  {}

  lemma ProductRoundsToCents(cents: nat, dollars: real, product: real)
    requires cents < LIMIT && Rounds(cents as real / 100.0, dollars) && Rounds(dollars * 100.0, product)
    ensures RoundHalfUp(product) == cents
  {
    QuotientClose(cents, dollars);
    if cents == 0 {
      ZeroRoundsToZero(product);
    } else {
      var y := dollars * 100.0;
      assert Abs(y - cents as real) <= 0.125;
      Bounds(y, product);
      RelativeError(y, product);
      assert Abs(product - y) <= 0.25;
    }
  }

  /** Every amount below 2^50 cents: whatever is displayed, parsing it back gives exactly its wei. */
  lemma DisplayRoundTrip(cents: nat)
    requires cents < LIMIT
    ensures forall text, wei :: Displays(cents, text) && ParsesToWei("$" + text, wei) ==>
      wei == cents * WEI_PER_CENT && text == FixedTwo(cents)
  {
    forall text, wei | Displays(cents, text) && ParsesToWei("$" + text, wei)
      ensures wei == cents * WEI_PER_CENT && text == FixedTwo(cents)
    {
      DisplayedParses(cents, text, wei);
    }
  }

  lemma DisplayedParses(cents: nat, text: string, wei: int)
    requires cents < LIMIT && Displays(cents, text) && ParsesToWei("$" + text, wei)
    ensures wei == cents * WEI_PER_CENT && text == FixedTwo(cents)
  {
    var d, n: nat :| Rounds(cents as real / 100.0, d) && NearestHundredth(d, n) && text == FixedTwo(n);
    HundredthIsCents(cents, d, n);
    FixedTwoParses(cents, wei);
  }

  lemma FixedTwoParses(cents: nat, wei: int)
    requires cents < LIMIT && ParsesToWei("$" + FixedTwo(cents), wei)
    ensures wei == cents * WEI_PER_CENT
  {
    FixedTwoMeansHundredths(cents);
    assert Undollar("$" + FixedTwo(cents)) == FixedTwo(cents);
    var v, dollars, product :| ParsesThrough("$" + FixedTwo(cents), v, dollars, product, wei);
    ProductRoundsToCents(cents, dollars, product);
  }

  /** What the wallet sends for a quote is what the contract demands, for every tier and length. */
  lemma QuoteMeetsEscrow(tier: Escrow.Tier, hours: nat)
    requires PriceCents(tier, hours) < LIMIT
    ensures forall text, wei :: Displays(PriceCents(tier, hours), text) && ParsesToWei("$" + text, wei) ==>
      wei == Escrow.Price(tier, hours)
  {
    PricesAgree(tier, hours);
    DisplayRoundTrip(PriceCents(tier, hours));
  }

  /** An hour's quotes. */
  lemma HourlyQuotes()
    ensures FixedTwo(PriceCents(Escrow.Lite, 1)) == "0.10" && FixedTwo(PriceCents(Escrow.Standard, 1)) == "0.35"
    ensures FixedTwo(PriceCents(Escrow.Turbo, 1)) == "1.00"
  {
    TwoDigitCents(1, 0);
    TwoDigitCents(3, 5);
    ThreeDigitCents(1, 0, 0);
    assert "0" + "." + "10" == "0.10" && "0" + "." + "35" == "0.35" && "1" + "." + "00" == "1.00";
  }

  lemma TwoDigitCents(a: nat, b: nat)
    requires 0 < a < 10 && b < 10
    ensures FixedTwo(10 * a + b) == "0" + "." + [Digit(a), Digit(b)]
  {
    assert Render(10 * a + b) == [Digit(a), Digit(b)];
  }

  lemma ThreeDigitCents(a: nat, b: nat, c: nat)
    requires 0 < a < 10 && b < 10 && c < 10
    ensures FixedTwo(100 * a + 10 * b + c) == [Digit(a)] + "." + [Digit(b), Digit(c)]
  {
    assert Render(10 * a + b) == [Digit(a), Digit(b)];
    assert Render(100 * a + 10 * b + c) == [Digit(a), Digit(b), Digit(c)];
  }

  /** The round trip exists: each rounding in it has a result. */
  lemma RoundTripExists(cents: nat)
    requires cents < LIMIT
    ensures Displays(cents, FixedTwo(cents))
    ensures ParsesToWei("$" + FixedTwo(cents), cents * WEI_PER_CENT)
  {
    var x := cents as real / 100.0;
    var d := RoundingOf(x);
    CentsAreNearest(cents, d);
    FixedTwoMeansHundredths(cents);
    assert Undollar("$" + FixedTwo(cents)) == FixedTwo(cents);
    QuotientClose(cents, d);
    var product := RoundingOf(d * 100.0);
    ProductRoundsToCents(cents, d, product);
    assert ParsesThrough("$" + FixedTwo(cents), x, d, product, cents * WEI_PER_CENT);
  }

  lemma RoundingOf(x: real) returns (r: real)
    requires x == 0.0 || 0.009 <= x <= 2.0 * LIMIT as real
    ensures Rounds(x, r)
  {
    if x == 0.0 {
      assert IsDouble(0.0, 0, 0);
      return 0.0;
    }
    assert Pow2(-10) == 1.0 / 1024.0;
    Pow2Of52();
    Shift(52, 48);
    Mono(52, 48);
    r := RoundingExists(x);
  }
}
