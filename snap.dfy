/**
 * Snap-to-grid arithmetic of the view's drop handling: the `round` helper
 * built on C++'s truncating remainder, and the per-axis choice between the
 * grid line at or below a coordinate and the next one.
 */
module Snap {
  import opened Qt

  /** C++ `n % m` for m != 0: truncates toward zero, so the remainder takes the sign of n. */
  function CRem(n: int, m: int): (r: int)
    requires m != 0
    ensures n >= 0 ==> 0 <= r < Abs(m)
    ensures n < 0 ==> -Abs(m) < r <= 0
  {
    if n >= 0 then n % m else -((-n) % m)
  }

  function Abs(m: int): (a: int)
    ensures a >= 0
  {
    if m < 0 then -m else m
  }

  /**
   * The `round` lambda: n itself when m is 0 or n is an exact multiple of m;
   * otherwise n minus its remainder (down) or that plus m (up).
   */
  function Round(n: int, m: int, down: bool): int {
    if m == 0 then n
    else
      var remainder := CRem(n, m);
      if remainder == 0 then n
      else n + (if down then 0 else m) - remainder
  }

  /**
   * One axis of the snapped drop position: the "minimum" line Round(pos, g,
   * true) or the line after it, the latter only when strictly nearer.
   */
  function SnapAxis(pos: int, g: int): int {
    var lo := Round(pos, g, true);
    var hi := lo + g;
    if hi - pos < pos - lo then hi else lo
  }

  /** The whole snapped position: each axis decided on its own. */
  function SnapPoint(p: Point, grid: Size): (q: Point)
  {
    Point(SnapAxis(p.x, grid.w), SnapAxis(p.y, grid.h))
  }

  lemma RoundByZero(n: int, down: bool)
    ensures Round(n, 0, down) == n
  {
  }

  lemma RoundExact(n: int, m: int, down: bool)
    requires m != 0 && CRem(n, m) == 0
    ensures Round(n, m, down) == n
  {
  }

  lemma {:induction false} MulAtLeast(g: int, d: int)
    requires g > 0 && d >= 1
    ensures g * d >= g
  {
    if d > 1 {
      MulAtLeast(g, d - 1);
      assert g * d == g * (d - 1) + g;
    }
  }

  /** Euclidean division is unique: a quotient and remainder in range are n / g and n % g. */
  lemma DivModUnique(n: int, g: int, q: int, r: int)
    requires g > 0 && n == g * q + r && 0 <= r < g
    ensures n / g == q && n % g == r
  {
    var q', r' := n / g, n % g;
    assert n == g * q' + r' && 0 <= r' < g;
    if q > q' {
      assert g * q - g * q' == g * (q - q');
      MulAtLeast(g, q - q');
    } else if q < q' {
      assert g * q' - g * q == g * (q' - q);
      MulAtLeast(g, q' - q);
    }
  }

  lemma MultipleMod(g: int, k: int)
    requires g > 0
    ensures (g * k) % g == 0
  {
    DivModUnique(g * k, g, k, 0);
  }

  /** Two multiples of g > 0 are equal or at least g apart. */
  lemma MultiplesApart(a: int, b: int, g: int)
    requires g > 0 && a % g == 0 && b % g == 0 && a < b
    ensures a + g <= b
  {
    var qa, qb := a / g, b / g;
    assert a == g * qa && b == g * qb;
    assert qa < qb;
    assert g * qb - g * qa == g * (qb - qa);
    MulAtLeast(g, qb - qa);
  }

  /** The quotient behind the minimum line: C++ division truncates toward zero. */
  function CQuot(n: int, g: int): int
    requires g > 0
  {
    if n >= 0 then n / g else -((-n) / g)
  }

  /** The minimum line is g times the truncated quotient. */
  lemma RoundDownIsMultiple(n: int, g: int)
    requires g > 0
    ensures Round(n, g, true) == g * CQuot(n, g)
    ensures Round(n, g, true) % g == 0
  {
    if n >= 0 {
      assert n == g * (n / g) + n % g;
    } else {
      var m := -n;
      assert m == g * (m / g) + m % g;
      assert g * CQuot(n, g) == -(g * (m / g));
    }
    MultipleMod(g, CQuot(n, g));
  }

  /**
   * For a non-negative coordinate the minimum line is the multiple of g at or
   * below it, and the next multiple is above it.
   */
  lemma RoundDownBelow(pos: int, g: int)
    requires g > 0 && pos >= 0
    ensures var lo := Round(pos, g, true);
      lo % g == 0 && lo <= pos < lo + g
  {
    RoundDownIsMultiple(pos, g);
    assert pos == g * (pos / g) + pos % g;
  }

  /** The distance between two coordinates on one axis. */
  function Dist(a: int, b: int): (d: int)
    ensures d >= 0 && (d == a - b || d == b - a)
  {
    if a >= b then a - b else b - a
  }

  /** The next line after a multiple of g is a multiple of g too. */
  lemma NextMultiple(lo: int, g: int)
    requires g > 0 && lo % g == 0
    ensures (lo + g) % g == 0
  {
    var q := lo / g;
    assert lo == g * q;
    assert lo + g == g * (q + 1);
    MultipleMod(g, q + 1);
  }

  /**
   * No multiple of g is nearer to pos than the nearer of the two lines
   * around it.
   */
  lemma NearestOfTwo(pos: int, g: int, lo: int, r: int)
    requires g > 0 && lo % g == 0 && lo <= pos < lo + g
    requires r == lo || r == lo + g
    requires Dist(r, pos) <= Dist(lo, pos) && Dist(r, pos) <= Dist(lo + g, pos)
    ensures forall c :: c % g == 0 ==> Dist(r, pos) <= Dist(c, pos)
  {
    NextMultiple(lo, g);
    forall c | c % g == 0
      ensures Dist(r, pos) <= Dist(c, pos)
    {
      if c < lo {
        MultiplesApart(c, lo, g);
      } else if lo < c < lo + g {
        MultiplesApart(lo, c, g);
      } else if c > lo + g {
        MultiplesApart(lo + g, c, g);
      }
    }
  }

  /**
   * For a non-negative coordinate and a positive grid the snapped axis is a
   * multiple of g, one of the two lines around pos, at most half a cell away,
   * a line nearest to pos among all multiples of g, and an exact midpoint goes
   * to the lower line.
   */
  lemma SnapAxisNearest(pos: int, g: int)
    requires g > 0 && pos >= 0
    ensures var r, lo := SnapAxis(pos, g), Round(pos, g, true);
      && r % g == 0
      && (r == lo || r == lo + g)
      && 2 * Dist(r, pos) <= g
      && (2 * (pos - lo) == g ==> r == lo)
      && forall c :: c % g == 0 ==> Dist(r, pos) <= Dist(c, pos)
  {
    var r, lo := SnapAxis(pos, g), Round(pos, g, true);
    RoundDownBelow(pos, g);
    NextMultiple(lo, g);
    assert r == (if lo + g - pos < pos - lo then lo + g else lo);
    NearestOfTwo(pos, g, lo, r);
  }

  /**
   * For a negative coordinate the truncating remainder makes the minimum
   * line the multiple at or above pos, and the snapped axis is always that
   * line: negative positions move toward zero.
   */
  lemma SnapAxisNegative(pos: int, g: int)
    requires g > 0 && pos < 0
    ensures var r := SnapAxis(pos, g);
      r % g == 0 && r - g < pos <= r
  {
    RoundDownIsMultiple(pos, g);
    var m := -pos;
    assert m == g * (m / g) + m % g;
  }

  /** Snapping a position that is already snapped changes nothing. */
  lemma SnapAxisIdempotent(pos: int, g: int)
    requires g >= 0
    ensures SnapAxis(SnapAxis(pos, g), g) == SnapAxis(pos, g)
  {
    if g > 0 {
      var lo := Round(pos, g, true);
      RoundDownIsMultiple(pos, g);
      NextMultiple(lo, g);
      var r := SnapAxis(pos, g);
      assert r == lo || r == lo + g;
      OnLineStays(r, g);
    }
  }

  /** A coordinate already on a grid line snaps to itself. */
  lemma OnLineStays(r: int, g: int)
    requires g > 0 && r % g == 0
    ensures SnapAxis(r, g) == r
  {
    if r >= 0 {
      assert CRem(r, g) == 0;
    } else {
      var q := r / g;
      assert r == g * q;
      assert -r == g * (-q);
      DivModUnique(-r, g, -q, 0);
      assert CRem(r, g) == 0;
    }
  }

  lemma SnapPointIdempotent(p: Point, grid: Size)
    requires grid.w >= 0 && grid.h >= 0
    ensures SnapPoint(SnapPoint(p, grid), grid) == SnapPoint(p, grid)
  {
    SnapAxisIdempotent(p.x, grid.w);
    SnapAxisIdempotent(p.y, grid.h);
  }
}
