/** What a pass of the relaxation does to the positions. */
module Repulsion {
  import opened Torus
  import opened Relaxation

  /** `hypot` gives the distance. */
  ghost predicate Exact(w: World) {
    forall x: real, y: real :: w.hypot(x, y) >= 0.0 && Sq(w.hypot(x, y)) == Sq(x) + Sq(y)
  }

  // ---- the way from j to k ----

  function DX(w: World, m: Motifs, k: nat, j: nat): real
    requires Ok(m) && k < |m.xs| && j < |m.xs|
  {
    Wrap(m.xs[k] - m.xs[j], w.tile)
  }

  function DY(w: World, m: Motifs, k: nat, j: nat): real
    requires Ok(m) && k < |m.xs| && j < |m.xs|
  {
    Wrap(m.ys[k] - m.ys[j], w.tile)
  }

  function Dist(w: World, m: Motifs, k: nat, j: nat): real
    requires Ok(m) && k < |m.xs| && j < |m.xs|
  {
    w.hypot(DX(w, m, k, j), DY(w, m, k, j))
  }

  /** How far apart two motifs should be. */
  function Need(w: World, m: Motifs, k: nat, j: nat): real
    requires Ok(m) && k < |m.xs| && j < |m.xs|
  {
    m.rs[k] + m.rs[j] + w.margin
  }

  // ---- the pushes as vectors ----

  /** What motif j gives to motif k: the push of their pair, with its sign. */
  function Given(w: World, pass: nat, m: Motifs, k: nat, j: nat): (real, real)
    requires Ok(m) && k < |m.xs| && j < |m.xs|
  {
    if k < j then Push(w, pass, m, k, j)
    else if j < k then var p := Push(w, pass, m, j, k); (-p.0, -p.1)
    else (0.0, 0.0)
  }

  /** What the first n motifs give to motif k. */
  function GivenBy(w: World, pass: nat, m: Motifs, k: nat, n: nat): (real, real)
    requires Ok(m) && k < |m.xs| && n <= |m.xs|
  {
    if n == 0 then (0.0, 0.0)
    else
      var f, g := GivenBy(w, pass, m, k, n - 1), Given(w, pass, m, k, n - 1);
      (f.0 + g.0, f.1 + g.1)
  }

  lemma {:induction false} NetIsGiven(w: World, pass: nat, m: Motifs, k: nat, n: nat)
    requires Ok(m) && k < |m.xs| && n <= |m.xs|
    ensures (Net(PushX(w, pass, m), k, n), Net(PushY(w, pass, m), k, n)) == GivenBy(w, pass, m, k, n)
  {
    hide Push;
    if n > 0 { NetIsGiven(w, pass, m, k, n - 1); }
  }

  /** One more pass moves every motif by all that the others give it, to the right by the first and down by the second
      component, but for whole tiles. The radii stay. */
  lemma PassMoves(w: World, m: Motifs, passes: nat, k: nat)
    requires Ok(m) && w.tile > 0.0 && k < |m.xs|
    ensures var (was, now) := (RelaxedBy(w, m, passes), RelaxedBy(w, m, passes + 1));
      var f := GivenBy(w, passes, was, k, |m.xs|);
      SameModulo(now.xs[k], was.xs[k] + f.0, w.tile) && SameModulo(now.ys[k], was.ys[k] + f.1, w.tile) && now.rs == was.rs
  {
    hide Push, PushX, PushY, Net, Given, Mod;
    var was := RelaxedBy(w, m, passes);
    var f := GivenBy(w, passes, was, k, |m.xs|);
    NetIsGiven(w, passes, was, k, |m.xs|);
    ModSame(was.xs[k] + f.0, w.tile);
    ModSame(was.ys[k] + f.1, w.tile);
  }

  lemma ModSame(v: real, tile: real)
    requires tile > 0.0
    ensures SameModulo(Mod(v, tile), v, tile)
  {
    var k := (v / tile).Floor;
    SpanAdd(k, -k, tile);
    assert Span(0, tile) == 0.0;
    assert Mod(v, tile) == v + Span(-k, tile);
  }

  // ---- the direction and the size of what is given ----

  lemma WrapOdd(d: real, period: real)
    requires period > 0.0
    ensures Wrap(-d, period) == -Wrap(d, period)
  {}

  lemma SameRoot(a: real, b: real)
    requires a >= 0.0 && b >= 0.0 && Sq(a) == Sq(b)
    ensures a == b
  {
    if a < b { SqStrict(a, b); }
    if b < a { SqStrict(b, a); }
  }

  /** The way back is the same way reversed. */
  lemma WayBack(w: World, m: Motifs, k: nat, j: nat)
    requires Ok(m) && w.tile > 0.0 && Exact(w) && k < |m.xs| && j < |m.xs|
    ensures DX(w, m, j, k) == -DX(w, m, k, j) && DY(w, m, j, k) == -DY(w, m, k, j)
    ensures Dist(w, m, j, k) == Dist(w, m, k, j) && Need(w, m, j, k) == Need(w, m, k, j)
  {
    hide Wrap, Sq;
    WrapOdd(m.xs[k] - m.xs[j], w.tile);
    WrapOdd(m.ys[k] - m.ys[j], w.tile);
    SqEven(DX(w, m, k, j));
    SqEven(DY(w, m, k, j));
    SameRoot(Dist(w, m, j, k), Dist(w, m, k, j));
  }

  lemma PartsBack(p: (real, real), dx: real, dy: real, overlap: real)
    requires Parts(p, dx, dy, overlap)
    ensures Parts((-p.0, -p.1), -dx, -dy, overlap)
  {
    SqEven(p.0);
    SqEven(p.1);
  }

  /** Motifs far enough apart give each other nothing. Others each get half of what is missing, along the line between
      them and away from the other; coincident ones in the direction that is drawn for them, as if 0.01 apart. */
  lemma GivenIs(w: World, pass: nat, m: Motifs, k: nat, j: nat)
    requires Ok(m) && w.tile > 0.0 && Exact(w) && k < |m.xs| && j < |m.xs| && k != j
    ensures var (g, dist, need) := (Given(w, pass, m, k, j), Dist(w, m, k, j), Need(w, m, k, j));
      && (dist >= need ==> g == (0.0, 0.0))
      && (0.000001 <= dist < need ==> Parts(g, DX(w, m, k, j), DY(w, m, k, j), need - dist))
      && (dist < need && dist < 0.000001 ==> Drawn(g, w, pass, k, j, need - 0.01))
  {
    hide Wrap, Sq, Parts, Along, Push, Exact;
    if k < j {
      PushIs(w, pass, m, k, j);
      Together(w, pass, m, k, j);
      DistIs(w, m, k, j);
    } else {
      WayBack(w, m, k, j);
      DistIs(w, m, j, k);
      PushIs(w, pass, m, j, k);
      Together(w, pass, m, j, k);
      var p := Push(w, pass, m, j, k);
      if 0.000001 <= Dist(w, m, k, j) < Need(w, m, k, j) {
        PartsBack(p, DX(w, m, j, k), DY(w, m, j, k), Need(w, m, j, k) - Dist(w, m, j, k));
      }
    }
  }

  lemma DistIs(w: World, m: Motifs, k: nat, j: nat)
    requires Ok(m) && Exact(w) && k < |m.xs| && j < |m.xs|
    ensures Sq(Dist(w, m, k, j)) == Sq(DX(w, m, k, j)) + Sq(DY(w, m, k, j))
  {}

  lemma Together(w: World, pass: nat, m: Motifs, i: nat, j: nat)
    requires Ok(m) && i < |m.xs| && j < |m.xs|
    ensures var h := (Need(w, m, i, j) - 0.01) * 0.5;
      Dist(w, m, i, j) < Need(w, m, i, j) && Dist(w, m, i, j) < 0.000001 ==>
        Push(w, pass, m, i, j).0 == w.spin(pass, i, j).0 * h && Push(w, pass, m, i, j).1 == w.spin(pass, i, j).1 * h
  {
    AlongHalf(w.spin(pass, i, j).0, w.spin(pass, i, j).1, Need(w, m, i, j) - 0.01);
    hide Along, Wrap;
  }

  lemma AlongHalf(ux: real, uy: real, overlap: real)
    ensures Along(ux, uy, overlap).0 == ux * (overlap * 0.5) && Along(ux, uy, overlap).1 == uy * (overlap * 0.5)
  {}

  /** Half the overlap in the direction drawn for the pair, for its first motif, and against it for the second. */
  ghost predicate Drawn(g: (real, real), w: World, pass: nat, k: nat, j: nat, overlap: real) {
    var h := overlap * 0.5;
    if k < j then g.0 == w.spin(pass, k, j).0 * h && g.1 == w.spin(pass, k, j).1 * h
    else g.0 == -(w.spin(pass, j, k).0 * h) && g.1 == -(w.spin(pass, j, k).1 * h)
  }

  // ---- a pair of its own ----

  ghost predicate Lone(w: World, m: Motifs, k: nat, i: nat)
    requires Ok(m) && k < |m.xs|
  {
    forall j: nat | j < |m.xs| && j != k && j != i :: Dist(w, m, k, j) >= Need(w, m, k, j)
  }

  lemma {:induction false} OnlyOne(w: World, pass: nat, m: Motifs, k: nat, i: nat, n: nat)
    requires Ok(m) && w.tile > 0.0 && Exact(w) && k < |m.xs| && i < |m.xs| && k != i && n <= |m.xs| && Lone(w, m, k, i)
    ensures GivenBy(w, pass, m, k, n) == if i < n then Given(w, pass, m, k, i) else (0.0, 0.0)
  {
    hide Given, Exact, Dist, Need, Parts, Drawn;
    if n > 0 {
      OnlyOne(w, pass, m, k, i, n - 1);
      if n - 1 == k {
        GivenSelf(w, pass, m, k);
      } else if n - 1 != i {
        GivenIs(w, pass, m, k, n - 1);
      }
    }
  }

  lemma GivenSelf(w: World, pass: nat, m: Motifs, k: nat)
    requires Ok(m) && k < |m.xs|
    ensures Given(w, pass, m, k, k) == (0.0, 0.0)
  {}

  /** A motif that only one other is near moves, in one more pass, by half of what is missing between the two, along
      their line and away from it: not across it, and by nothing if nothing is missing. */
  lemma LonePair(w: World, m: Motifs, passes: nat, k: nat, i: nat) returns (d: (real, real))
    requires Ok(m) && w.tile > 0.0 && Exact(w) && k < |m.xs| && i < |m.xs| && k != i && Lone(w, RelaxedBy(w, m, passes), k, i)
    ensures var (was, now) := (RelaxedBy(w, m, passes), RelaxedBy(w, m, passes + 1));
      var (dist, need) := (Dist(w, was, k, i), Need(w, was, k, i));
      && SameModulo(now.xs[k], was.xs[k] + d.0, w.tile) && SameModulo(now.ys[k], was.ys[k] + d.1, w.tile)
      && (dist >= need ==> d == (0.0, 0.0))
      && (0.000001 <= dist < need ==> Parts(d, DX(w, was, k, i), DY(w, was, k, i), need - dist))
  {
    hide Given, Exact, Dist, Need, Parts, Drawn, GivenBy, RelaxedBy, SameModulo, Lone, DX, DY;
    var was := RelaxedBy(w, m, passes);
    PassMoves(w, m, passes, k);
    OnlyOne(w, passes, was, k, i, |m.xs|);
    GivenIs(w, passes, was, k, i);
    d := Given(w, passes, was, k, i);
  }
}
