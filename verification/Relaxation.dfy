/** Repulsion on the torus: every pass pushes overlapping motifs apart by equal and opposite moves. */
module Relaxation {
  import opened Torus

  // ---- sums of forces between pairs ----

  /** One coordinate of the push that a pair i < j gives to i; j gets the opposite. */
  type Force = (nat, nat) -> real

  /** What motif j does to motif k. */
  function Pull(f: Force, k: nat, j: nat): real {
    if k < j then f(k, j) else if j < k then -f(j, k) else 0.0
  }

  /** What the first n motifs do to motif k. */
  function Net(f: Force, k: nat, n: nat): real {
    if n == 0 then 0.0 else Net(f, k, n - 1) + Pull(f, k, n - 1)
  }

  /** What the first n motifs do to the first m together. */
  function Total(f: Force, m: nat, n: nat): real {
    if m == 0 then 0.0 else Total(f, m - 1, n) + Net(f, m - 1, n)
  }

  /** What motif j does to the first m together. */
  function Column(f: Force, m: nat, j: nat): real {
    if m == 0 then 0.0 else Column(f, m - 1, j) + Pull(f, m - 1, j)
  }

  lemma {:induction false} ColumnOpposes(f: Force, m: nat, j: nat)
    ensures Column(f, m, j) == -Net(f, j, m)
  {
    if m > 0 { ColumnOpposes(f, m - 1, j); }
  }

  lemma {:induction false} TotalStep(f: Force, m: nat, n: nat)
    ensures Total(f, m, n + 1) == Total(f, m, n) + Column(f, m, n)
  {
    if m > 0 { TotalStep(f, m - 1, n); }
  }

  /** Actions and reactions cancel. */
  lemma {:induction false} Balance(f: Force, n: nat)
    ensures Total(f, n, n) == 0.0
  {
    if n > 0 {
      Balance(f, n - 1);
      TotalStep(f, n - 1, n - 1);
      ColumnOpposes(f, n - 1, n - 1);
    }
  }

  // ---- the pushes ----

  /** `hypot` stands for the library function and `spin` for the random unit vectors
      given to coincident motifs, one per pass and pair; nothing is assumed of either. */
  datatype World = World(tile: real, margin: real, hypot: (real, real) -> real, spin: (nat, nat, nat) -> (real, real))

  datatype Motifs = Motifs(xs: seq<real>, ys: seq<real>, rs: seq<real>)

  predicate Ok(m: Motifs) { |m.ys| == |m.xs| && |m.rs| == |m.xs| }

  const COINCIDENT := 0.000001
  const DAMP := 0.5

  function Push(w: World, pass: nat, m: Motifs, i: nat, j: nat): (real, real)
    requires Ok(m) && i < |m.xs| && j < |m.xs|
  {
    var dx, dy := Wrap(m.xs[i] - m.xs[j], w.tile), Wrap(m.ys[i] - m.ys[j], w.tile);
    var dist, need := w.hypot(dx, dy), m.rs[i] + m.rs[j] + w.margin;
    if dist >= need then (0.0, 0.0)
    else if dist < COINCIDENT then
      var u := w.spin(pass, i, j);
      Along(u.0, u.1, need - 0.01)
    else Along(dx / dist, dy / dist, need - dist)
  }

  /** A share of the overlap in a direction. */
  function Along(ux: real, uy: real, overlap: real): (real, real) {
    var push := overlap * DAMP;
    (ux * push, uy * push)
  }

  /** Where `hypot` is exact, two motifs closer than their radii and the margin are each pushed by half of what is
      missing, along the line between them and away from each other; others are not pushed. */
  lemma PushIs(w: World, pass: nat, m: Motifs, i: nat, j: nat)
    requires Ok(m) && i < |m.xs| && j < |m.xs|
    ensures var dx, dy := Wrap(m.xs[i] - m.xs[j], w.tile), Wrap(m.ys[i] - m.ys[j], w.tile);
      var dist, need, p := w.hypot(dx, dy), m.rs[i] + m.rs[j] + w.margin, Push(w, pass, m, i, j);
      && (dist >= need ==> p == (0.0, 0.0))
      && (COINCIDENT <= dist < need && Sq(dist) == Sq(dx) + Sq(dy) ==> Parts(p, dx, dy, need - dist))
  {
    hide Sq, Wrap, Along, Parts;
    var dx, dy := Wrap(m.xs[i] - m.xs[j], w.tile), Wrap(m.ys[i] - m.ys[j], w.tile);
    var dist, need := w.hypot(dx, dy), m.rs[i] + m.rs[j] + w.margin;
    if COINCIDENT <= dist < need && Sq(dist) == Sq(dx) + Sq(dy) {
      AlongIs(dx, dy, dist, need - dist);
    }
  }

  /** p is half the overlap long and points along (dx, dy). */
  ghost predicate Parts(p: (real, real), dx: real, dy: real, overlap: real) {
    Sq(p.0) + Sq(p.1) == Sq(overlap * 0.5) && p.0 * dy == p.1 * dx && p.0 * dx + p.1 * dy >= 0.0
  }

  lemma AlongIs(dx: real, dy: real, dist: real, overlap: real)
    requires dist > 0.0 && overlap > 0.0 && Sq(dist) == Sq(dx) + Sq(dy)
    ensures Parts(Along(dx / dist, dy / dist, overlap), dx, dy, overlap)
  {
    var ux, uy, push := dx / dist, dy / dist, overlap * 0.5;
    assert ux * dist == dx && uy * dist == dy;
    UnitVector(ux, uy, dist);
    Scaled(ux, uy, push, dist);
  }

  lemma UnitVector(ux: real, uy: real, dist: real)
    requires dist > 0.0 && Sq(dist) == Sq(ux * dist) + Sq(uy * dist)
    ensures Sq(ux) + Sq(uy) == 1.0
  {
    assert Sq(ux * dist) == Sq(ux) * Sq(dist) && Sq(uy * dist) == Sq(uy) * Sq(dist);
    SqPositive(dist);
    assert (Sq(ux) + Sq(uy) - 1.0) * Sq(dist) == 0.0;
    ZeroProduct(Sq(ux) + Sq(uy) - 1.0, Sq(dist));
  }

  lemma SqPositive(a: real)
    requires a > 0.0
    ensures Sq(a) > 0.0
  {
    SqStrict(0.0, a);
  }

  lemma ZeroProduct(a: real, b: real)
    requires b > 0.0 && a * b == 0.0
    ensures a == 0.0
  {
    if a > 0.0 { ProductPositive(a, b); }
    if a < 0.0 { ProductPositive(-a, b); }
  }

  lemma Scaled(ux: real, uy: real, push: real, dist: real)
    requires Sq(ux) + Sq(uy) == 1.0 && push > 0.0 && dist > 0.0
    ensures Sq(ux * push) + Sq(uy * push) == Sq(push)
    ensures ux * push * (uy * dist) == uy * push * (ux * dist)
    ensures ux * push * (ux * dist) + uy * push * (uy * dist) >= 0.0
  {
    assert Sq(ux * push) + Sq(uy * push) == (Sq(ux) + Sq(uy)) * Sq(push);
    ProductPositive(push, dist);
    assert ux * push * (ux * dist) + uy * push * (uy * dist) == (Sq(ux) + Sq(uy)) * (push * dist);
  }

  function PushX(w: World, pass: nat, m: Motifs): Force
    requires Ok(m)
  {
    (i: nat, j: nat) => if i < |m.xs| && j < |m.xs| then Push(w, pass, m, i, j).0 else 0.0
  }

  function PushY(w: World, pass: nat, m: Motifs): Force
    requires Ok(m)
  {
    (i: nat, j: nat) => if i < |m.xs| && j < |m.xs| then Push(w, pass, m, i, j).1 else 0.0
  }

  /** Python's `%` on a positive period. */
  function Mod(v: real, period: real): real
    requires period > 0.0
  {
    v - Span((v / period).Floor, period)
  }

  lemma ModIs(v: real, period: real)
    requires period > 0.0
    ensures 0.0 <= Mod(v, period) < period
  {
    var q := v / period;
    assert q * period == v;
    FloorBounds(v, q, q.Floor, period);
  }

  lemma FloorBounds(v: real, q: real, k: int, period: real)
    requires period > 0.0 && k as real <= q < k as real + 1.0 && q * period == v
    ensures 0.0 <= v - Span(k, period) < period
  {
    var f := q - k as real;
    assert f * period == v - Span(k, period);
    Product(f, period);
    ProductPositive(1.0 - f, period);
    assert (1.0 - f) * period == period - f * period;
  }

  function Moved(s: seq<real>, f: Force, tile: real): (r: seq<real>)
    requires tile > 0.0
    ensures |r| == |s|
  {
    seq(|s|, k requires 0 <= k < |s| => Mod(s[k] + Net(f, k, |s|), tile))
  }

  /** One pass. */
  function Relaxed(w: World, pass: nat, m: Motifs): (r: Motifs)
    requires Ok(m) && w.tile > 0.0
    ensures Ok(r) && |r.xs| == |m.xs|
  {
    Motifs(Moved(m.xs, PushX(w, pass, m), w.tile), Moved(m.ys, PushY(w, pass, m), w.tile), m.rs)
  }

  function RelaxedBy(w: World, m: Motifs, passes: nat): (r: Motifs)
    requires Ok(m) && w.tile > 0.0
    ensures Ok(r) && |r.xs| == |m.xs|
  {
    if passes == 0 then m else Relaxed(w, passes - 1, RelaxedBy(w, m, passes - 1))
  }

  // ---- what passes keep ----

  function Sum(s: seq<real>, n: nat): real
    requires n <= |s|
  {
    if n == 0 then 0.0 else Sum(s, n - 1) + s[n - 1]
  }

  lemma {:induction false} MovedSum(s: seq<real>, f: Force, tile: real, n: nat) returns (k: int)
    requires tile > 0.0 && n <= |s|
    ensures Sum(Moved(s, f, tile), n) == Sum(s, n) + Total(f, n, |s|) + Span(k, tile)
  {
    if n == 0 {
      k := 0;
    } else {
      var j := MovedSum(s, f, tile, n - 1);
      var q := ((s[n - 1] + Net(f, n - 1, |s|)) / tile).Floor;
      k := j - q;
      SpanAdd(j, -q, tile);
      SpanAdd(q, -q, tile);
    }
  }

  /** `a` and `b` differ by whole tiles. */
  ghost predicate SameModulo(a: real, b: real, tile: real) { exists k: int :: a == b + Span(k, tile) }

  lemma SameTwice(a: real, b: real, c: real, tile: real)
    requires SameModulo(a, b, tile) && SameModulo(b, c, tile)
    ensures SameModulo(a, c, tile)
  {
    var j: int :| a == b + Span(j, tile);
    var k: int :| b == c + Span(k, tile);
    SpanAdd(j, k, tile);
    assert a == c + Span(j + k, tile);
  }

  lemma MovedKeepsSum(s: seq<real>, f: Force, tile: real)
    requires tile > 0.0
    ensures SameModulo(Sum(Moved(s, f, tile), |s|), Sum(s, |s|), tile)
  {
    var k := MovedSum(s, f, tile, |s|);
    Balance(f, |s|);
  }

  /** Momentum: whatever overlaps and however often, the sums of the coordinates stay the same
      but for whole tiles. */
  lemma {:induction false} SumsKept(w: World, m: Motifs, passes: nat)
    requires Ok(m) && w.tile > 0.0
    ensures var r := RelaxedBy(w, m, passes);
      && SameModulo(Sum(r.xs, |m.xs|), Sum(m.xs, |m.xs|), w.tile)
      && SameModulo(Sum(r.ys, |m.xs|), Sum(m.ys, |m.xs|), w.tile)
      && r.rs == m.rs
  {
    if passes == 0 {
      assert Span(0, w.tile) == 0.0;
      assert Sum(m.xs, |m.xs|) == Sum(m.xs, |m.xs|) + Span(0, w.tile);
      assert Sum(m.ys, |m.xs|) == Sum(m.ys, |m.xs|) + Span(0, w.tile);
    } else {
      SumsKept(w, m, passes - 1);
      var p := RelaxedBy(w, m, passes - 1);
      var r := Relaxed(w, passes - 1, p);
      MovedKeepsSum(p.xs, PushX(w, passes - 1, p), w.tile);
      MovedKeepsSum(p.ys, PushY(w, passes - 1, p), w.tile);
      SameTwice(Sum(r.xs, |m.xs|), Sum(p.xs, |m.xs|), Sum(m.xs, |m.xs|), w.tile);
      SameTwice(Sum(r.ys, |m.xs|), Sum(p.ys, |m.xs|), Sum(m.ys, |m.xs|), w.tile);
    }
  }

  ghost predicate Inside(m: Motifs, tile: real) {
    (forall k | 0 <= k < |m.xs| :: 0.0 <= m.xs[k] < tile) && forall k | 0 <= k < |m.ys| :: 0.0 <= m.ys[k] < tile
  }

  /** Positions stay on the tile. */
  lemma {:induction false} StaysInside(w: World, m: Motifs, passes: nat)
    requires Ok(m) && w.tile > 0.0 && Inside(m, w.tile)
    ensures Inside(RelaxedBy(w, m, passes), w.tile)
  {
    if passes > 0 {
      var p := RelaxedBy(w, m, passes - 1);
      var r := Relaxed(w, passes - 1, p);
      forall k | 0 <= k < |r.xs| ensures 0.0 <= r.xs[k] < w.tile && 0.0 <= r.ys[k] < w.tile {
        ModIs(p.xs[k] + Net(PushX(w, passes - 1, p), k, |p.xs|), w.tile);
        ModIs(p.ys[k] + Net(PushY(w, passes - 1, p), k, |p.ys|), w.tile);
      }
    }
  }

  // ---- the loops ----

  /** The moves of a pass: after the pairs before (i, j), motif k has met
      everyone if it is before i, the motifs before j if it is i, and otherwise those before i, or i itself too. */
  function Met(n: nat, i: nat, j: nat, k: nat): nat {
    if k < i then n else if k == i then j else if k < j then i + 1 else i
  }

  function Done(n: nat, i: nat, k: nat): nat { if k < i then n else i }

  /** The pair (i, j) moves i and j, and so brings everyone's account up to date. */
  lemma MetStep(f: Force, n: nat, i: nat, j: nat)
    requires i < j < n
    ensures forall k: nat | k < n ::
      Net(f, k, Met(n, i, j + 1, k)) == Net(f, k, Met(n, i, j, k)) + if k == i then f(i, j) else if k == j then -f(i, j) else 0.0
  {}

  lemma NetNone(f: Force)
    ensures forall k: nat :: Net(f, k, 0) == 0.0
  {}

  lemma RowStart(f: Force, n: nat, i: nat)
    requires i < n
    ensures forall k: nat | k < n :: Net(f, k, Met(n, i, i + 1, k)) == Net(f, k, Done(n, i, k))
  {}

  lemma RowEnd(n: nat, i: nat)
    requires i < n
    ensures forall k: nat | k < n :: Met(n, i, n, k) == Done(n, i + 1, k)
  {}

  method Moves(w: World, pass: nat, m: Motifs) returns (mx: array<real>, my: array<real>)
    requires Ok(m)
    ensures mx.Length == |m.xs| && my.Length == |m.xs| && fresh(mx) && fresh(my) && mx != my
    ensures forall k: nat | k < |m.xs| :: mx[k] == Net(PushX(w, pass, m), k, |m.xs|)
    ensures forall k: nat | k < |m.xs| :: my[k] == Net(PushY(w, pass, m), k, |m.xs|)
  {
    hide PushX, PushY, Net;
    NetNone(PushX(w, pass, m));
    NetNone(PushY(w, pass, m));
    ghost var fx, fy := PushX(w, pass, m), PushY(w, pass, m);
    var n := |m.xs|;
    mx, my := new real[n](_ => 0.0), new real[n](_ => 0.0);
    for i := 0 to n
      invariant forall k: nat | k < n :: mx[k] == Net(fx, k, Done(n, i, k))
      invariant forall k: nat | k < n :: my[k] == Net(fy, k, Done(n, i, k))
    {
      RowStart(fx, n, i);
      RowStart(fy, n, i);
      RowEnd(n, i);
      for j := i + 1 to n
        invariant forall k: nat | k < n :: mx[k] == Net(fx, k, Met(n, i, j, k))
        invariant forall k: nat | k < n :: my[k] == Net(fy, k, Met(n, i, j, k))
      {
        MetStep(fx, n, i, j);
        MetStep(fy, n, i, j);
        Repel(w, pass, m, i, j, mx, my);
      }
    }
  }

  /** The push between one pair, added to the moves so far. */
  method Repel(w: World, pass: nat, m: Motifs, i: nat, j: nat, mx: array<real>, my: array<real>)
    requires Ok(m) && i < j < |m.xs| && mx != my && mx.Length == |m.xs| && my.Length == |m.xs|
    modifies mx, my
    ensures var p := PushX(w, pass, m)(i, j);
      forall k | 0 <= k < mx.Length :: mx[k] == old(mx[k]) + if k == i then p else if k == j then -p else 0.0
    ensures var p := PushY(w, pass, m)(i, j);
      forall k | 0 <= k < my.Length :: my[k] == old(my[k]) + if k == i then p else if k == j then -p else 0.0
  {
    var dx, dy := WrapDelta(m.xs[i], m.ys[i], m.xs[j], m.ys[j], w.tile);
    hide Wrap, Along;
    var dist := w.hypot(dx, dy);
    var need := m.rs[i] + m.rs[j] + w.margin;
    if dist < need {
      var ux, uy;
      if dist < COINCIDENT {
        var u := w.spin(pass, i, j);
        ux, uy, dist := u.0, u.1, 0.01;
      } else {
        ux, uy := dx / dist, dy / dist;
      }
      var p := Along(ux, uy, need - dist);
      assert p == Push(w, pass, m, i, j);
      mx[i], my[i] := mx[i] + p.0, my[i] + p.1;
      mx[j], my[j] := mx[j] - p.0, my[j] - p.1;
    }
  }

  /** One pass over the positions, in place. */
  method Pass(w: World, pass: nat, xs: array<real>, ys: array<real>, rs: seq<real>)
    requires w.tile > 0.0 && xs != ys && ys.Length == xs.Length && |rs| == xs.Length
    modifies xs, ys
    ensures Motifs(xs[..], ys[..], rs) == Relaxed(w, pass, old(Motifs(xs[..], ys[..], rs)))
  {
    hide PushX, PushY, Mod;
    ghost var m := Motifs(xs[..], ys[..], rs);
    var mx, my := Moves(w, pass, Motifs(xs[..], ys[..], rs));
    ghost var dx, dy := mx[..], my[..];
    for i := 0 to xs.Length
      invariant forall k | i <= k < xs.Length :: xs[k] == m.xs[k] && ys[k] == m.ys[k]
      invariant mx[..] == dx && my[..] == dy
      invariant forall k | 0 <= k < i :: xs[k] == Mod(m.xs[k] + dx[k], w.tile) && ys[k] == Mod(m.ys[k] + dy[k], w.tile)
    {
      xs[i] := Mod(xs[i] + mx[i], w.tile);
      ys[i] := Mod(ys[i] + my[i], w.tile);
    }
    assert xs[..] == Relaxed(w, pass, m).xs;
    assert ys[..] == Relaxed(w, pass, m).ys;
  }

  method Relax(w: World, passes: nat, xs: array<real>, ys: array<real>, rs: seq<real>)
    requires w.tile > 0.0 && xs != ys && ys.Length == xs.Length && |rs| == xs.Length
    modifies xs, ys
    ensures Motifs(xs[..], ys[..], rs) == RelaxedBy(w, old(Motifs(xs[..], ys[..], rs)), passes)
  {
    ghost var m := Motifs(xs[..], ys[..], rs);
    for p := 0 to passes
      invariant Motifs(xs[..], ys[..], rs) == RelaxedBy(w, m, p)
    {
      Pass(w, p, xs, ys, rs);
    }
  }
}
