/** Distances on a square tile that repeats in both directions. */
module Torus {
  /** The shorter way around, for a difference of coordinates. */
  function Wrap(d: real, period: real): real {
    var e := if d > period / 2.0 then d - period else d;
    if e < -period / 2.0 then e + period else e
  }

  method WrapDelta(px: real, py: real, qx: real, qy: real, period: real) returns (dx: real, dy: real)
    ensures dx == Wrap(px - qx, period) && dy == Wrap(py - qy, period)
  {
    dx := px - qx;
    if dx > period / 2.0 { dx := dx - period; }
    if dx < -period / 2.0 { dx := dx + period; }
    dy := py - qy;
    if dy > period / 2.0 { dy := dy - period; }
    if dy < -period / 2.0 { dy := dy + period; }
  }

  function Sq(a: real): (s: real)
    ensures s >= 0.0
  {
    a * a
  }

  lemma Product(a: real, b: real)
    requires a >= 0.0 && b >= 0.0
    ensures a * b >= 0.0
  {}

  lemma SqMonotone(a: real, b: real)
    requires -b <= a <= b
    ensures Sq(a) <= Sq(b)
  {
    Product(b - a, b + a);
    assert (b - a) * (b + a) == b * b - a * a;
  }

  lemma ProductPositive(a: real, b: real)
    requires a > 0.0 && b > 0.0
    ensures a * b > 0.0
  {}

  lemma SqStrict(a: real, b: real)
    requires -b < a < b
    ensures Sq(a) < Sq(b)
  {
    ProductPositive(b - a, b + a);
    assert (b - a) * (b + a) == b * b - a * a;
  }

  lemma SqEven(a: real)
    ensures Sq(-a) == Sq(a)
  {}

  /** A whole number of periods. */
  function Span(k: int, period: real): real { k as real * period }

  lemma SpanIs(k: int, period: real)
    requires period > 0.0
    ensures k >= 1 ==> Span(k, period) >= period
    ensures k <= -1 ==> Span(k, period) <= -period
    ensures k == 0 ==> Span(k, period) == 0.0
  {
    if k >= 1 {
      Product((k - 1) as real, period);
      assert (k - 1) as real * period == k as real * period - period;
    }
    if k <= -1 {
      Product((-1 - k) as real, period);
      assert (-1 - k) as real * period == -(k as real * period) - period;
    }
  }

  lemma SpanAdd(j: int, k: int, period: real)
    ensures Span(j + k, period) == Span(j, period) + Span(k, period)
  {
    assert (j + k) as real == j as real + k as real;
  }

  /** A translate by a whole number of periods. */
  function Shift(d: real, k: int, period: real): real { d + Span(k, period) }

  lemma WrapIsShift(d: real, period: real) returns (k: int)
    requires period > 0.0
    ensures -1 <= k <= 1 && Wrap(d, period) == Shift(d, k, period)
  {
    k := if d > period / 2.0 then -1 else if d < -period / 2.0 then 1 else 0;
    assert Span(k, period) == if k == 1 then period else if k == -1 then -period else 0.0;
  }

  /** For two coordinates on the tile the wrapped difference is at most half a period,
      and no translate is shorter. */
  lemma WrapMinimal(d: real, k: int, period: real)
    requires period > 0.0 && -period <= d <= period
    ensures -period / 2.0 <= Wrap(d, period) <= period / 2.0
    ensures Sq(Wrap(d, period)) <= Sq(Shift(d, k, period))
  {
    hide Span, Sq;
    var w := Wrap(d, period);
    var j := WrapIsShift(d, period);
    SpanAdd(j, k - j, period);
    SpanIs(k - j, period);
    var v := w + Span(k - j, period);
    assert j + (k - j) == k && Shift(d, k, period) == v;
    SqEven(v);
    if k > j { SqMonotone(w, v); }
    if k < j { SqMonotone(w, -v); }
  }

  datatype Disc = Disc(x: real, y: real, r: real)

  predicate OnTile(p: Disc, tile: real) { 0.0 <= p.x <= tile && 0.0 <= p.y <= tile }

  /** `hypot(dx, dy) < need`, without the root. */
  predicate Near(dx: real, dy: real, need: real) { need > 0.0 && Sq(dx) + Sq(dy) < Sq(need) }

  /** It is that: for the distance itself, whatever root gives it. */
  lemma NearIs(dx: real, dy: real, need: real, dist: real)
    requires dist >= 0.0 && Sq(dist) == Sq(dx) + Sq(dy)
    ensures Near(dx, dy, need) <==> dist < need
  {
    hide Sq;
    if dist < need {
      SqStrict(dist, need);
    } else if need > 0.0 {
      SqMonotone(need, dist);
    }
  }

  /** The centres are closer, the short way around, than the radii and a gap. */
  predicate Clash(a: Disc, b: Disc, gap: real, tile: real) {
    Near(Wrap(a.x - b.x, tile), Wrap(a.y - b.y, tile), a.r + b.r + gap)
  }

  /** The copy of a that is i tiles to the right and j down is too close to b. */
  predicate CopyClash(a: Disc, i: int, j: int, b: Disc, gap: real, tile: real) {
    Near(Shift(a.x - b.x, i, tile), Shift(a.y - b.y, j, tile), a.r + b.r + gap)
  }

  /** In the plane covered with copies of the tile, every copy of a keeps the distance from every copy of b. */
  ghost predicate Apart(a: Disc, b: Disc, gap: real, tile: real) {
    forall i: int, j: int :: !CopyClash(a, i, j, b, gap, tile)
  }

  /** Testing the shortest difference decides for all copies. */
  lemma ApartInPlane(a: Disc, b: Disc, gap: real, tile: real)
    requires tile > 0.0 && OnTile(a, tile) && OnTile(b, tile)
    ensures Apart(a, b, gap, tile) <==> !Clash(a, b, gap, tile)
  {
    hide Sq, Span;
    var dx, dy, need := a.x - b.x, a.y - b.y, a.r + b.r + gap;
    if Apart(a, b, gap, tile) {
      var i := WrapIsShift(dx, tile);
      var j := WrapIsShift(dy, tile);
      assert !CopyClash(a, i, j, b, gap, tile);
    } else {
      var i: int, j: int :| CopyClash(a, i, j, b, gap, tile);
      WrapMinimal(dx, i, tile);
      WrapMinimal(dy, j, tile);
    }
  }

  /** The copies of one motif keep any distance up to the width of the tile. */
  lemma OwnCopies(a: Disc, k: int, l: int, need: real, tile: real)
    requires tile > 0.0 && need <= tile && (k != 0 || l != 0)
    ensures !Near(Shift(0.0, k, tile), Shift(0.0, l, tile), need)
  {
    hide Span, Sq;
    SpanIs(k, tile);
    SpanIs(l, tile);
    var x, y := Shift(0.0, k, tile), Shift(0.0, l, tile);
    if need > 0.0 {
      SqEven(x);
      SqEven(y);
      if k > 0 { SqMonotone(need, x); }
      if k < 0 { SqMonotone(need, -x); }
      if l > 0 { SqMonotone(need, y); }
      if l < 0 { SqMonotone(need, -y); }
    }
  }

  lemma NearMonotone(dx: real, dy: real, need: real, more: real)
    requires Near(dx, dy, need) && need <= more
    ensures Near(dx, dy, more)
  {
    SqMonotone(need, more);
  }

  lemma ApartLess(a: Disc, b: Disc, gap: real, less: real, tile: real)
    requires Apart(a, b, gap, tile) && less <= gap
    ensures Apart(a, b, less, tile)
  {
    forall i: int, j: int ensures !CopyClash(a, i, j, b, less, tile) {
      if CopyClash(a, i, j, b, less, tile) {
        assert !CopyClash(a, i, j, b, gap, tile);
        NearMonotone(Shift(a.x - b.x, i, tile), Shift(a.y - b.y, j, tile), a.r + b.r + less, a.r + b.r + gap);
      }
    }
  }
}
