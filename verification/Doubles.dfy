/** IEEE 754 binary64 numbers as reals, and what rounding to the nearest one can cost. A double is a signed
    integer of at most 53 bits times a power of two; no particular rounding is assumed, only that the result is
    a double and that none is nearer. */
module Doubles {

  const TWO52 := 4503599627370496
  const TWO53 := 9007199254740992

  function Pow2(e: int): (p: real)
    ensures p > 0.0
    decreases if e < 0 then -e else e
  {
    if e == 0 then 1.0 else if e > 0 then 2.0 * Pow2(e - 1) else Pow2(e + 1) / 2.0
  }

  lemma Doubling(e: int)
    ensures Pow2(e + 1) == 2.0 * Pow2(e)
  {}

  lemma {:induction false} Shift(e: int, n: nat)
    ensures Pow2(e + n) == Pow2(e) * Pow2(n)
    decreases n
  {
    if n > 0 {
      Shift(e, n - 1);
      Doubling(e + (n - 1));
      Doubling(n - 1);
      Twice(Pow2(e), Pow2(n - 1));
    }
  }

  lemma Twice(a: real, b: real)
    ensures a * (2.0 * b) == 2.0 * (a * b)
  {}

  lemma Pow2Of52()
    ensures Pow2(52) == TWO52 as real && Pow2(53) == TWO53 as real
  {
    assert Pow2(13) == 8192.0;
    Shift(13, 13);
    Shift(26, 26);
    Doubling(52);
  }

  /** The k-th point of the grid of step `u`. */
  function At(k: int, u: real): real { k as real * u }

  ghost predicate IsDouble(y: real, m: int, e: int) {
    -TWO53 < m < TWO53 && -1074 <= e <= 971 && y == At(m, Pow2(e))
  }

  /** A finite double: a 53-bit integer scaled by a power of two in range. */
  ghost predicate Double(y: real) { exists m, e :: IsDouble(y, m, e) }

  function Abs(x: real): real { if x < 0.0 then -x else x }

  /** `r` is a correct rounding of `x` to nearest, however ties are broken. */
  ghost predicate Rounds(x: real, r: real) {
    Double(r) && forall y :: Double(y) ==> Abs(x - r) <= Abs(x - y)
  }

  /** The multiple of `u` at or below `x`. */
  lemma Grid(x: real, u: real, a: int, b: int) returns (k: int)
    requires u > 0.0 && At(a, u) <= x < At(b, u)
    ensures a <= k < b && At(k, u) <= x < At(k + 1, u)
  {
    var q := Quotient(x, u);
    k := q.Floor;
    OrderAt(q, a, u);
    OrderAt(q, b, u);
    OrderAt(q, k, u);
    OrderAt(q, k + 1, u);
  }

  lemma OrderAt(q: real, k: int, u: real)
    requires u > 0.0
    ensures q * u < At(k, u) <==> q < k as real
  {
    Scale(q, k as real, u);
    Scale(k as real, q, u);
  }

  lemma Quotient(x: real, u: real) returns (q: real)
    requires u > 0.0
    ensures q * u == x
  {
    q := x / u;
  }

  lemma GridPointIsDouble(k: int, e: int)
    requires 0 <= k <= TWO53 && -1074 <= e <= 970
    ensures Double(At(k, Pow2(e)))
  {
    if k < TWO53 {
      assert IsDouble(At(k, Pow2(e)), k, e);
    } else {
      Doubling(e);
      assert IsDouble(At(TWO52, Pow2(e + 1)), TWO52, e + 1);
      assert At(TWO53, Pow2(e)) == At(TWO52, Pow2(e + 1));
    }
  }

  /** The doubles around a number of binade `e`. */
  lemma Neighbours(x: real, e: int) returns (lo: real, hi: real)
    requires Pow2(e) <= x < Pow2(e + 1) && -1000 <= e <= 900
    ensures Double(lo) && Double(hi) && lo <= x < hi && hi - lo == Pow2(e - 52)
  {
    BinadeGrid(e);
    var k := Grid(x, Pow2(e - 52), TWO52, TWO53);
    GridPointIsDouble(k, e - 52);
    GridPointIsDouble(k + 1, e - 52);
    lo, hi := At(k, Pow2(e - 52)), At(k + 1, Pow2(e - 52));
    assert (k + 1) as real == k as real + 1.0;
  }

  lemma BinadeGrid(e: int)
    ensures Pow2(e) == At(TWO52, Pow2(e - 52)) && Pow2(e + 1) == At(TWO53, Pow2(e - 52))
  {
    Pow2Of52();
    Shift(e - 52, 52);
    Shift(e - 52, 53);
  }

  lemma Scale(a: real, b: real, u: real)
    requires u > 0.0
    ensures a <= b ==> a * u <= b * u
    ensures a < b ==> a * u < b * u
  {}

  /** The binade of a number between 2^lo and 2^hi. */
  lemma {:induction false} Binade(x: real, lo: int, hi: int) returns (e: int)
    requires lo < hi && Pow2(lo) <= x < Pow2(hi)
    ensures lo <= e < hi && Pow2(e) <= x < Pow2(e + 1)
    decreases hi - lo
  {
    if hi == lo + 1 { return lo; }
    if x < Pow2(hi - 1) { e := Binade(x, lo, hi - 1); } else { e := hi - 1; }
  }

  lemma NearestOfTwo(x: real, r: real, lo: real, hi: real)
    requires Rounds(x, r) && Double(lo) && Double(hi) && lo <= x < hi
    ensures 2.0 * Abs(r - x) <= hi - lo
  {
    assert Abs(x - r) <= Abs(x - lo);
    assert Abs(x - r) <= Abs(x - hi);
  }

  lemma BinadeError(x: real, r: real, e: int)
    requires Pow2(e) <= x < Pow2(e + 1) && -10 <= e < 100 && Rounds(x, r)
    ensures Abs(r - x) * TWO53 as real <= x
  {
    var lo, hi := Neighbours(x, e);
    NearestOfTwo(x, r, lo, hi);
    BinadeGrid(e);
    Fraction(Abs(r - x), Pow2(e - 52), x);
  }

  /** Rounding moves a number of ordinary size by at most its 2^53-th part. */
  lemma RelativeError(x: real, r: real)
    requires Pow2(-10) <= x < Pow2(100) && Rounds(x, r)
    ensures Abs(r - x) * TWO53 as real <= x
  {
    var e := Binade(x, -10, 100);
    BinadeError(x, r, e);
  }

  lemma Fraction(d: real, u: real, x: real)
    requires 2.0 * d <= u && At(TWO52, u) <= x
    ensures d * TWO53 as real <= x
  {}

  lemma ZeroRoundsToZero(r: real)
    requires Rounds(0.0, r)
    ensures r == 0.0
  {
    assert IsDouble(0.0, 0, 0);
    assert Double(0.0);
    assert Abs(0.0 - r) <= Abs(0.0 - 0.0);
  }

  // ---------------------------------------------------------------- roundings exist

  lemma {:induction false} WholePower(n: nat) returns (i: int)
    ensures Pow2(n) == i as real
  {
    if n == 0 { i := 1; } else {
      i := WholePower(n - 1);
      i := 2 * i;
    }
  }

  lemma {:induction false} PowersGrow(e: int, f: int)
    requires e <= f
    ensures Pow2(e) <= Pow2(f)
    decreases f - e
  {
    if e < f { PowersGrow(e, f - 1); Doubling(f - 1); }
  }

  /** A double at least as coarse as the grid lies on the grid. */
  lemma CoarseIsOnGrid(m: int, f: int, e: int) returns (n: int)
    requires e <= f
    ensures At(m, Pow2(f)) == At(n, Pow2(e))
  {
    Shift(e, f - e);
    var i := WholePower(f - e);
    n := m * i;
    Regroup(m, Pow2(e), i);
  }

  lemma Regroup(m: int, u: real, i: int)
    ensures At(m, u * i as real) == At(m * i, u)
  {
    assert (m * i) as real == m as real * i as real;
  }

  lemma Product(a: real, b: real, u: real, v: real)
    requires a <= b && 0.0 < u <= v && b >= 0.0
    ensures a * u <= b * v
  {
    Scale(a, b, u);
    assert b * u <= b * v;
  }

  /** A finer double stays below the binade. */
  lemma FineIsSmall(m: int, f: int, e: int)
    requires m < TWO53 && f < e - 52
    ensures At(m, Pow2(f)) <= Pow2(e)
  {
    PowersGrow(f, e - 53);
    BinadeGrid(e - 1);
    Product(m as real, TWO53 as real, Pow2(f), Pow2(e - 53));
  }

  lemma OnGridNotBetween(n: int, k: int, u: real)
    requires u > 0.0
    ensures At(n, u) <= At(k, u) || At(n, u) >= At(k + 1, u)
  {
    if n <= k { AtGrows(n, k, u); } else { AtGrows(k + 1, n, u); }
  }

  lemma AtGrows(k: int, n: int, u: real)
    requires u > 0.0 && k <= n
    ensures At(k, u) <= At(n, u)
  {
    Scale(k as real, n as real, u);
  }

  lemma CoarseStaysOut(m: int, f: int, e: int, k: int)
    requires e <= f
    ensures At(m, Pow2(f)) <= At(k, Pow2(e)) || At(m, Pow2(f)) >= At(k + 1, Pow2(e))
  {
    var n := CoarseIsOnGrid(m, f, e);
    OnGridNotBetween(n, k, Pow2(e));
  }

  lemma FineStaysBelow(m: int, f: int, e: int, k: int)
    requires m < TWO53 && f < e - 52 && TWO52 <= k
    ensures At(m, Pow2(f)) <= At(k, Pow2(e - 52))
  {
    FineIsSmall(m, f, e);
    BinadeGrid(e);
    AtGrows(TWO52, k, Pow2(e - 52));
  }

  /** No double lies strictly between neighbouring grid points of its binade. */
  lemma NothingBetween(y: real, e: int, k: int)
    requires Double(y) && TWO52 <= k
    ensures y <= At(k, Pow2(e - 52)) || y >= At(k + 1, Pow2(e - 52))
  {
    var m, f :| IsDouble(y, m, f);
    if f >= e - 52 { CoarseStaysOut(m, f, e - 52, k); } else { FineStaysBelow(m, f, e, k); }
  }

  /** The grid cell a number of ordinary size lies in. */
  lemma Cell(x: real) returns (e: int, k: int)
    requires Pow2(-10) <= x < Pow2(100)
    ensures -10 <= e < 100 && TWO52 <= k < TWO53
    ensures At(k, Pow2(e - 52)) <= x < At(k + 1, Pow2(e - 52))
  {
    e := Binade(x, -10, 100);
    BinadeGrid(e);
    k := Grid(x, Pow2(e - 52), TWO52, TWO53);
  }

  /** Every number of ordinary size has a rounding to nearest. */
  lemma RoundingExists(x: real) returns (r: real)
    requires Pow2(-10) <= x < Pow2(100)
    ensures Rounds(x, r)
  {
    var e, k := Cell(x);
    GridPointIsDouble(k, e - 52);
    GridPointIsDouble(k + 1, e - 52);
    r := NearerEnd(x, e, k);
  }

  lemma NearerEnd(x: real, e: int, k: int) returns (r: real)
    requires TWO52 <= k && At(k, Pow2(e - 52)) <= x < At(k + 1, Pow2(e - 52))
    requires Double(At(k, Pow2(e - 52))) && Double(At(k + 1, Pow2(e - 52)))
    ensures Rounds(x, r)
  {
    var lo, hi := At(k, Pow2(e - 52)), At(k + 1, Pow2(e - 52));
    r := if x - lo <= hi - x then lo else hi;
    forall y | Double(y) ensures Abs(x - r) <= Abs(x - y) { NothingBetween(y, e, k); }
  }
}
