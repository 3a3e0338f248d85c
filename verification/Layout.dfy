/** The whole layout: spread, relax, drop, fill. */
module Layout {
  import opened Torus
  import opened Placement
  import opened Relaxation
  import opened Overlaps

  /** Everything the random source decides. */
  datatype Chance = Chance(
    perm: seq<nat>, jitter: nat -> Jitter, scale: nat -> real,
    spin: (nat, nat, nat) -> (real, real), draw: nat -> Draw)

  /** The ranges the code asks of the random source. */
  ghost predicate Drawable(c: Chance, n: nat, tile: real) {
    && Permutation(c.perm, Side(n) * Side(n))
    && (forall i: nat :: 0.18 <= c.jitter(i).x <= 0.82 && 0.18 <= c.jitter(i).y <= 0.82)
    && forall a: nat :: OnTile(Drawn(c.draw(a)), tile)
  }

  // ---- the motifs before any is dropped ----

  /** Where motif i begins: in the cell the shuffle gives it. */
  ghost function Start(n: nat, tile: real, c: Chance, i: nat): Spot
    requires tile > 0.0 && Drawable(c, n, tile) && i < n
  {
    SpotIn(CellAt(c.perm[i], Side(n)), c.jitter(i), tile / Side(n) as real)
  }

  function Radius(radii: seq<real>, c: Chance, i: nat): real
    requires i < |radii|
  {
    radii[i] * c.scale(i)
  }

  ghost function Started(radii: seq<real>, tile: real, c: Chance): (m: Motifs)
    requires tile > 0.0 && Drawable(c, |radii|, tile)
    ensures Ok(m) && |m.xs| == |radii|
  {
    var n := |radii|;
    Motifs(
      seq(n, i requires 0 <= i < n => Start(n, tile, c, i).x),
      seq(n, i requires 0 <= i < n => Start(n, tile, c, i).y),
      seq(n, i requires 0 <= i < n => Radius(radii, c, i)))
  }

  function DiscsOf(m: Motifs): seq<Disc>
    requires Ok(m)
  {
    seq(|m.xs|, i requires 0 <= i < |m.xs| => Disc(m.xs[i], m.ys[i], m.rs[i]))
  }

  /** The discs after all passes of the relaxation. */
  ghost function Settled(radii: seq<real>, w: World, passes: nat, c: Chance): seq<Disc>
    requires w.tile > 0.0 && Drawable(c, |radii|, w.tile)
  {
    DiscsOf(RelaxedBy(w, Started(radii, w.tile, c), passes))
  }

  /** None is lost, each has its scaled radius, and all are on the tile. */
  lemma SettledIs(radii: seq<real>, w: World, passes: nat, c: Chance)
    requires w.tile > 0.0 && Drawable(c, |radii|, w.tile)
    ensures var discs := Settled(radii, w, passes, c);
      && |discs| == |radii|
      && forall i | 0 <= i < |discs| :: discs[i].r == radii[i] * c.scale(i) && OnTile(discs[i], w.tile)
  {
    hide Started, RelaxedBy, Sum, SameModulo, Drawable, OnTile;
    var m := Started(radii, w.tile, c);
    var r := RelaxedBy(w, m, passes);
    StartedInside(radii, w.tile, c);
    StaysInside(w, m, passes);
    SumsKept(w, m, passes);
    StartedIs(radii, w.tile, c);
    DiscsOnTile(r, w.tile);
  }

  lemma DiscsOnTile(m: Motifs, tile: real)
    requires Ok(m) && Inside(m, tile)
    ensures forall i | 0 <= i < |m.xs| :: DiscsOf(m)[i].r == m.rs[i] && OnTile(DiscsOf(m)[i], tile)
  {}

  lemma StartedIs(radii: seq<real>, tile: real, c: Chance)
    requires tile > 0.0 && Drawable(c, |radii|, tile)
    ensures var m := Started(radii, tile, c);
      forall i | 0 <= i < |radii| ::
        m.xs[i] == Start(|radii|, tile, c, i).x && m.ys[i] == Start(|radii|, tile, c, i).y && m.rs[i] == Radius(radii, c, i)
  {}

  /** Motif i begins in cell number perm[i] at the share of it that its jitter says. */
  lemma StartedAt(radii: seq<real>, tile: real, c: Chance, i: nat)
    requires tile > 0.0 && Drawable(c, |radii|, tile) && i < |radii|
    ensures var (m, g) := (Started(radii, tile, c), Side(|radii|));
      var (cell, size) := (CellAt(c.perm[i], g), tile / g as real);
      && m.xs[i] - Edge(cell.x, size) == Times(c.jitter(i).x, size)
      && m.ys[i] - Edge(cell.y, size) == Times(c.jitter(i).y, size)
  {
    StartedIs(radii, tile, c);
    hide Edge, At, Started, Drawable, CellAt, Times;
    SpotShare(CellAt(c.perm[i], Side(|radii|)), c.jitter(i), tile / Side(|radii|) as real);
  }

  lemma StartedInside(radii: seq<real>, tile: real, c: Chance)
    requires tile > 0.0 && Drawable(c, |radii|, tile)
    ensures Inside(Started(radii, tile, c), tile)
  {
    var n := |radii|;
    var g := Side(n);
    Size(g, tile);
    forall i | 0 <= i < n ensures 0.0 < Start(n, tile, c, i).x < tile && 0.0 < Start(n, tile, c, i).y < tile {
      RowBelow(c.perm[i], g);
      SpotWithin(CellAt(c.perm[i], g), c.jitter(i), g, tile / g as real, tile);
    }
  }

  // ---- the loops ----

  /** Spread, then relax in place. */
  method Settle(radii: seq<real>, w: World, passes: nat, c: Chance) returns (discs: seq<Disc>)
    requires w.tile > 0.0 && Drawable(c, |radii|, w.tile)
    ensures discs == Settled(radii, w, passes, c)
  {
    var xs, ys, rs := Begin(radii, w.tile, c);
    hide Started, RelaxedBy, Drawable;
    Relax(w, passes, xs, ys, rs);
    discs := DiscsOf(Motifs(xs[..], ys[..], rs));
  }

  method Begin(radii: seq<real>, tile: real, c: Chance) returns (xs: array<real>, ys: array<real>, rs: seq<real>)
    requires tile > 0.0 && Drawable(c, |radii|, tile)
    ensures fresh(xs) && fresh(ys) && xs != ys && Motifs(xs[..], ys[..], rs) == Started(radii, tile, c)
  {
    var n := |radii|;
    var spots := Spread(n, tile, c.perm, c.jitter);
    assert forall i | 0 <= i < n :: spots[i] == Start(n, tile, c, i);
    StartedIs(radii, tile, c);
    hide Drawable, Start, Started, Radius;
    xs, ys := new real[n](_ => 0.0), new real[n](_ => 0.0);
    rs := [];
    for i := 0 to n
      invariant |rs| == i && forall k | 0 <= k < i :: xs[k] == spots[k].x && ys[k] == spots[k].y && rs[k] == Radius(radii, c, k)
    {
      xs[i], ys[i] := spots[i].x, spots[i].y;
      rs := rs + [Radius(radii, c, i)];
    }
    ghost var m := Started(radii, tile, c);
    assert xs[..] == m.xs && ys[..] == m.ys && rs == m.rs;
  }

  // ---- what is kept and what is filled ----

  /** A kept motif that is bigger, or as big and earlier, clashes with this one. */
  ghost predicate Beaten(e: Entry, kept: seq<Entry>, gap: real, tile: real) {
    exists k | k in kept :: Outranks(k, e) && Clash(e.disc, k.disc, gap, tile)
  }

  /** The kept motifs come first, a motif is left out exactly when it is beaten, and if there are fewer fillers
      than wanted, all attempts were made and each gave a placement or a disc without room. */
  ghost predicate Full(discs: seq<Disc>, all: seq<Disc>, margin: real, want: nat, draw: nat -> Draw, tile: real) {
    var kept := Kept(discs, margin * 0.55, tile);
    && Discs(kept) <= all
    && (forall i: nat | i < |discs| :: Entry(i, discs[i]) in kept <==> !Beaten(Entry(i, discs[i]), kept, margin * 0.55, tile))
    && (|all| - |kept| < want ==> forall a: nat | a < 60000 :: Drawn(draw(a)) in all || Blocked(Drawn(draw(a)), all, 9.0, tile))
  }

  lemma FinalIsFull(discs: seq<Disc>, margin: real, want: nat, draw: nat -> Draw, tile: real)
    ensures Full(discs, Final(discs, margin, want, draw, tile), margin, want, draw, tile)
    ensures discs != [] ==> Kept(discs, margin * 0.55, tile) != []
  {
    hide Clash, Blocked, Filled, Greedy, Outranks;
    var kept := Kept(discs, margin * 0.55, tile);
    var all := Final(discs, margin, want, draw, tile);
    FilledIs(Discs(kept), want, draw, 0, tile);
    forall i: nat | i < |discs| ensures Entry(i, discs[i]) in kept <==> !Beaten(Entry(i, discs[i]), kept, margin * 0.55, tile) {
      BiggerWins(discs, margin * 0.55, tile, i);
    }
    if |all| - |kept| < want {
      forall a: nat | a < ATTEMPTS ensures Drawn(draw(a)) in all || Blocked(Drawn(draw(a)), all, FILL_GAP, tile) {
        FilledTried(Discs(kept), want, draw, 0, tile, a);
      }
    }
    if discs != [] {
      assert Entry(0, discs[0]) in kept <==> !Beaten(Entry(0, discs[0]), kept, margin * 0.55, tile);
    }
  }

  /** The passes that come after the relaxation make every layout good. */
  lemma FinalIsGood(discs: seq<Disc>, margin: real, want: nat, draw: nat -> Draw, tile: real)
    requires tile > 0.0 && (forall k | 0 <= k < |discs| :: OnTile(discs[k], tile)) && forall a: nat :: OnTile(Drawn(draw(a)), tile)
    ensures var all := Final(discs, margin, want, draw, tile);
      && (forall i | 0 <= i < |all| :: OnTile(all[i], tile))
      && (forall i, j | 0 <= i < j < |all| :: Apart(all[j], all[i], Min(margin * 0.55, 9.0), tile))
      && |Kept(discs, margin * 0.55, tile)| <= |discs|
      && |all| <= |Kept(discs, margin * 0.55, tile)| + want
  {
    hide Apart, Filled, Greedy, Blocked, OnTile, Final;
    var all := Final(discs, margin, want, draw, tile);
    forall i | 0 <= i < |all| ensures OnTile(all[i], tile) {
      FinalOnTile(discs, margin, want, draw, tile, i);
    }
    forall i, j | 0 <= i < j < |all| ensures Apart(all[j], all[i], Min(margin * 0.55, 9.0), tile) {
      NoOverlap(discs, margin, want, draw, tile, i, j);
    }
    FinalSize(discs, margin, want, draw, tile);
  }

  lemma FinalSize(discs: seq<Disc>, margin: real, want: nat, draw: nat -> Draw, tile: real)
    ensures |Kept(discs, margin * 0.55, tile)| <= |discs|
    ensures |Final(discs, margin, want, draw, tile)| <= |Kept(discs, margin * 0.55, tile)| + want
  {
    hide Filled, Greedy, Blocked;
    FilledIs(Discs(Kept(discs, margin * 0.55, tile)), want, draw, 0, tile);
    GreedyShorter(Order(discs), margin * 0.55, tile);
  }

  lemma {:induction false} GreedyShorter(order: seq<Entry>, gap: real, tile: real)
    ensures |Greedy(order, gap, tile)| <= |order|
  {
    if order != [] { GreedyShorter(order[..|order| - 1], gap, tile); }
  }

  lemma DrawsOnTile(c: Chance, n: nat, tile: real)
    requires Drawable(c, n, tile)
    ensures forall a: nat :: OnTile(Drawn(c.draw(a)), tile)
  {}

  // ---- the whole pipeline ----

  /** The layout of motifs with these radii. Whatever the random source gives and whatever `hypot` makes of the
      distances in the relaxation, no two placements overlap in the tiled plane, and no motif or filler that is
      missing had room. */
  method Build(radii: seq<real>, tile: real, margin: real, passes: nat, want: nat, hypot: (real, real) -> real, c: Chance)
    returns (all: seq<Disc>, main: nat, fill: nat)
    requires tile > 0.0 && Drawable(c, |radii|, tile)
    ensures var discs := Settled(radii, World(tile, margin, hypot, c.spin), passes, c);
      && all == Final(discs, margin, want, c.draw, tile)
      && main == |Kept(discs, margin * 0.55, tile)| && main + fill == |all|
      && Full(discs, all, margin, want, c.draw, tile)
    ensures main <= |radii| && fill <= want && (radii != [] ==> main > 0)
    ensures forall i | 0 <= i < |all| :: OnTile(all[i], tile)
    ensures forall i, j | 0 <= i < j < |all| :: Apart(all[j], all[i], Min(margin * 0.55, 9.0), tile)
  {
    hide *;
    var w := World(tile, margin, hypot, c.spin);
    var discs := Settle(radii, w, passes, c);
    SettledIs(radii, w, passes, c);
    DrawsOnTile(c, |radii|, tile);
    all, main, fill := Finish(discs, margin, want, c.draw, tile);
    FinalIsGood(discs, margin, want, c.draw, tile);
    FinalIsFull(discs, margin, want, c.draw, tile);
  }
}
