/** Rendering: a motif near an edge is drawn again across the opposite edge. */
module Seamless {
  import opened Torus

  datatype Motif = Motif(x: real, y: real, scale: real)

  /** How far from its centre a motif may draw. */
  function Reach(m: Motif): real { 60.0 * m.scale }

  /** A copy of motif `of` around this centre. */
  datatype Copy = Copy(of: nat, x: real, y: real)

  function CopyOf(m: Motif, n: nat, i: int, j: int, tile: real): Copy {
    Copy(n, Shift(m.x, i, tile), Shift(m.y, j, tile))
  }

  /** The box around a centre meets the tile. */
  predicate Meets(x: real, y: real, reach: real, tile: real) {
    !(x + reach < 0.0 || x - reach > tile || y + reach < 0.0 || y - reach > tile)
  }

  predicate Shows(m: Motif, i: int, j: int, tile: real) {
    Meets(Shift(m.x, i, tile), Shift(m.y, j, tile), Reach(m), tile)
  }

  // ---- what is drawn ----

  /** The copies i tiles to the right and fewer than `below` tiles down. */
  function Column(m: Motif, n: nat, i: int, below: int, tile: real): seq<Copy>
    decreases below
  {
    if below <= -1 then []
    else Column(m, n, i, below - 1, tile) + if Shows(m, i, below - 1, tile) then [CopyOf(m, n, i, below - 1, tile)] else []
  }

  /** The copies fewer than `right` tiles to the right. */
  function Columns(m: Motif, n: nat, right: int, tile: real): seq<Copy>
    decreases right
  {
    if right <= -1 then [] else Columns(m, n, right - 1, tile) + Column(m, n, right - 1, 2, tile)
  }

  function Rendered(ms: seq<Motif>, tile: real): seq<Copy> {
    if ms == [] then []
    else
      var n := |ms| - 1;
      Rendered(ms[..n], tile) + Columns(ms[n], n, 2, tile)
  }

  method Render(ms: seq<Motif>, tile: real) returns (body: seq<Copy>)
    ensures body == Rendered(ms, tile)
  {
    body := [];
    for n := 0 to |ms|
      invariant body == Rendered(ms[..n], tile)
    {
      assert ms[..n + 1][..n] == ms[..n];
      var copies := RenderMotif(ms[n], n, tile);
      body := body + copies;
    }
    assert ms[..|ms|] == ms;
  }

  method RenderMotif(m: Motif, n: nat, tile: real) returns (copies: seq<Copy>)
    ensures copies == Columns(m, n, 2, tile)
  {
    copies := [];
    for i := -1 to 2
      invariant copies == Columns(m, n, i, tile)
    {
      var column := RenderColumn(m, n, i, tile);
      copies := copies + column;
    }
  }

  method RenderColumn(m: Motif, n: nat, i: int, tile: real) returns (copies: seq<Copy>)
    ensures copies == Column(m, n, i, 2, tile)
  {
    hide Span;
    var reach := 60.0 * m.scale;
    copies := [];
    for j := -1 to 2
      invariant copies == Column(m, n, i, j, tile)
    {
      var cx, cy := Shift(m.x, i, tile), Shift(m.y, j, tile);
      if cx + reach < 0.0 || cx - reach > tile || cy + reach < 0.0 || cy - reach > tile { continue; }
      copies := copies + [Copy(n, cx, cy)];
    }
  }

  // ---- which copies those are ----

  lemma {:induction false} InColumn(m: Motif, n: nat, i: int, below: int, tile: real, c: Copy)
    ensures c in Column(m, n, i, below, tile) <==>
              exists j | -1 <= j < below :: Shows(m, i, j, tile) && c == CopyOf(m, n, i, j, tile)
    decreases below
  {
    if below > -1 { InColumn(m, n, i, below - 1, tile, c); }
  }

  lemma {:induction false} InColumns(m: Motif, n: nat, right: int, tile: real, c: Copy)
    ensures c in Columns(m, n, right, tile) <==>
              exists i, j | -1 <= i < right && -1 <= j < 2 :: Shows(m, i, j, tile) && c == CopyOf(m, n, i, j, tile)
    decreases right
  {
    if right > -1 {
      InColumns(m, n, right - 1, tile, c);
      InColumn(m, n, right - 1, 2, tile, c);
    }
  }

  /** One of the nine copies that are tried, and one that meets the tile. */
  ghost predicate OneOf(m: Motif, n: nat, tile: real, c: Copy) {
    exists i, j | -1 <= i < 2 && -1 <= j < 2 :: Shows(m, i, j, tile) && c == CopyOf(m, n, i, j, tile)
  }

  lemma OfIts(m: Motif, n: nat, tile: real, c: Copy)
    ensures c in Columns(m, n, 2, tile) <==> OneOf(m, n, tile, c)
    ensures OneOf(m, n, tile, c) ==> c.of == n
  {
    InColumns(m, n, 2, tile, c);
  }

  lemma {:induction false} InRendered(ms: seq<Motif>, tile: real, c: Copy)
    ensures c in Rendered(ms, tile) <==> c.of < |ms| && OneOf(ms[c.of], c.of, tile, c)
  {
    hide OneOf, Columns;
    if ms != [] {
      var n := |ms| - 1;
      InRendered(ms[..n], tile, c);
      OfIts(ms[n], n, tile, c);
    }
  }

  /** With its centre on the tile and a reach less than the tile, no copy two tiles away meets the tile. */
  lemma NearCopiesSuffice(m: Motif, i: int, j: int, tile: real)
    requires 0.0 <= m.x <= tile && 0.0 <= m.y <= tile && Reach(m) < tile && Shows(m, i, j, tile)
    ensures -1 <= i <= 1 && -1 <= j <= 1
  {
    FarAway(m.x, i, Reach(m), tile);
    FarAway(m.y, j, Reach(m), tile);
  }

  lemma FarAway(x: real, i: int, reach: real, tile: real)
    requires 0.0 <= x <= tile && reach < tile
    ensures i >= 2 ==> Shift(x, i, tile) - reach > tile
    ensures i <= -2 ==> Shift(x, i, tile) + reach < 0.0
  {
    if tile > 0.0 {
      if i >= 2 { SpanIs(i - 1, tile); SpanAdd(i - 1, 1, tile); }
      if i <= -2 { SpanIs(i + 1, tile); SpanAdd(i + 1, -1, tile); }
      assert Span(1, tile) == tile && Span(-1, tile) == -tile;
    } else {
      assert Span(i, tile) == 0.0;
    }
  }

  /** The nine copies are enough for every centre on the tile exactly when the reach is less than the tile. */
  lemma NineSuffice(scale: real, tile: real)
    requires tile > 0.0
    ensures Reach(Motif(0.0, 0.0, scale)) < tile <==>
      forall m: Motif, i, j | m.scale == scale && 0.0 <= m.x <= tile && 0.0 <= m.y <= tile && Shows(m, i, j, tile) ::
        -1 <= i <= 1 && -1 <= j <= 1
  {
    hide Shows;
    if Reach(Motif(0.0, 0.0, scale)) < tile {
      forall m: Motif, i, j | m.scale == scale && 0.0 <= m.x <= tile && 0.0 <= m.y <= tile && Shows(m, i, j, tile)
        ensures -1 <= i <= 1 && -1 <= j <= 1
      {
        NearCopiesSuffice(m, i, j, tile);
      }
    } else {
      FarCopyMissed(Motif(0.0, 0.0, scale), tile);
    }
  }

  /** With a reach of a whole tile a copy two tiles away meets the edge and is not drawn. */
  lemma FarCopyMissed(m: Motif, tile: real)
    requires tile > 0.0 && m.x == 0.0 && 0.0 <= m.y <= tile && Reach(m) >= tile
    ensures Shows(m, 2, 0, tile)
  {}

  // ---- the picture ----

  /** What each motif covers, relative to its centre. */
  type Shapes = nat -> (real, real) -> bool

  ghost predicate Bounded(ms: seq<Motif>, shapes: Shapes) {
    forall n: nat, u, v | n < |ms| && shapes(n)(u, v) ::
      var reach := 60.0 * ms[n].scale; -reach <= u <= reach && -reach <= v <= reach
  }

  ghost predicate Covers(c: Copy, shapes: Shapes, x: real, y: real) { shapes(c.of)(x - c.x, y - c.y) }

  /** The tile's picture covers a point. */
  ghost predicate TileCovers(ms: seq<Motif>, shapes: Shapes, tile: real, x: real, y: real) {
    exists c | c in Rendered(ms, tile) :: Covers(c, shapes, x, y)
  }

  ghost predicate CopyCovers(ms: seq<Motif>, shapes: Shapes, tile: real, n: nat, i: int, j: int, x: real, y: real) {
    n < |ms| && Covers(CopyOf(ms[n], n, i, j, tile), shapes, x, y)
  }

  /** The endless pattern, with every motif in every tile, covers a point. */
  ghost predicate PlaneCovers(ms: seq<Motif>, shapes: Shapes, tile: real, x: real, y: real) {
    exists n: nat, i: int, j: int :: CopyCovers(ms, shapes, tile, n, i, j, x, y)
  }

  ghost predicate Fits(ms: seq<Motif>, tile: real) {
    tile > 0.0 && forall n | 0 <= n < |ms| :: 0.0 <= ms[n].x <= tile && 0.0 <= ms[n].y <= tile && Reach(ms[n]) < tile
  }

  /** On the tile, edges included, the picture is the endless pattern. */
  lemma TileIsPlane(ms: seq<Motif>, shapes: Shapes, tile: real, x: real, y: real)
    requires Fits(ms, tile) && Bounded(ms, shapes) && 0.0 <= x <= tile && 0.0 <= y <= tile
    ensures TileCovers(ms, shapes, tile, x, y) <==> PlaneCovers(ms, shapes, tile, x, y)
  {
    hide Rendered, Shows, CopyOf, Covers;
    if TileCovers(ms, shapes, tile, x, y) {
      var c :| c in Rendered(ms, tile) && Covers(c, shapes, x, y);
      InRendered(ms, tile, c);
      var i, j :| -1 <= i < 2 && -1 <= j < 2 && Shows(ms[c.of], i, j, tile) && c == CopyOf(ms[c.of], c.of, i, j, tile);
      assert CopyCovers(ms, shapes, tile, c.of, i, j, x, y);
    }
    if PlaneCovers(ms, shapes, tile, x, y) {
      var n: nat, i: int, j: int :| CopyCovers(ms, shapes, tile, n, i, j, x, y);
      CoveringShows(ms, shapes, tile, n, i, j, x, y);
      NearCopiesSuffice(ms[n], i, j, tile);
      InRendered(ms, tile, CopyOf(ms[n], n, i, j, tile));
    }
  }

  /** A copy that covers a point of the tile meets the tile. */
  lemma CoveringShows(ms: seq<Motif>, shapes: Shapes, tile: real, n: nat, i: int, j: int, x: real, y: real)
    requires Bounded(ms, shapes) && 0.0 <= x <= tile && 0.0 <= y <= tile && CopyCovers(ms, shapes, tile, n, i, j, x, y)
    ensures Shows(ms[n], i, j, tile) && CopyOf(ms[n], n, i, j, tile).of == n
  {}

  /** The pattern repeats from tile to tile. */
  lemma PlaneRepeats(ms: seq<Motif>, shapes: Shapes, tile: real, x: real, y: real, k: int, l: int)
    requires PlaneCovers(ms, shapes, tile, x, y)
    ensures PlaneCovers(ms, shapes, tile, Shift(x, k, tile), Shift(y, l, tile))
  {
    var n: nat, i: int, j: int :| CopyCovers(ms, shapes, tile, n, i, j, x, y);
    SpanAdd(i, k, tile);
    SpanAdd(j, l, tile);
    var c, d := CopyOf(ms[n], n, i, j, tile), CopyOf(ms[n], n, i + k, j + l, tile);
    assert Shift(x, k, tile) - d.x == x - c.x && Shift(y, l, tile) - d.y == y - c.y;
    assert CopyCovers(ms, shapes, tile, n, i + k, j + l, Shift(x, k, tile), Shift(y, l, tile));
  }

  /** Opposite edges agree at every point, so tiles laid side by side show no seam. */
  lemma NoSeam(ms: seq<Motif>, shapes: Shapes, tile: real, t: real)
    requires Fits(ms, tile) && Bounded(ms, shapes) && 0.0 <= t <= tile
    ensures TileCovers(ms, shapes, tile, 0.0, t) <==> TileCovers(ms, shapes, tile, tile, t)
    ensures TileCovers(ms, shapes, tile, t, 0.0) <==> TileCovers(ms, shapes, tile, t, tile)
  {
    assert tile > 0.0;
    hide TileCovers, PlaneCovers, Bounded, Fits;
    SamePlane(ms, shapes, tile, 0.0, t, 1, 0);
    SamePlane(ms, shapes, tile, t, 0.0, 0, 1);
    NextTile(tile, t);
    hide Span, Shift;
    TileIsPlane(ms, shapes, tile, 0.0, t);
    TileIsPlane(ms, shapes, tile, tile, t);
    TileIsPlane(ms, shapes, tile, t, 0.0);
    TileIsPlane(ms, shapes, tile, t, tile);
  }

  lemma NextTile(tile: real, t: real)
    ensures Shift(0.0, 1, tile) == tile && Shift(t, 0, tile) == t
  {}

  lemma SamePlane(ms: seq<Motif>, shapes: Shapes, tile: real, x: real, y: real, k: int, l: int)
    ensures PlaneCovers(ms, shapes, tile, x, y) <==> PlaneCovers(ms, shapes, tile, Shift(x, k, tile), Shift(y, l, tile))
  {
    if PlaneCovers(ms, shapes, tile, x, y) { PlaneRepeats(ms, shapes, tile, x, y, k, l); }
    if PlaneCovers(ms, shapes, tile, Shift(x, k, tile), Shift(y, l, tile)) {
      PlaneRepeats(ms, shapes, tile, Shift(x, k, tile), Shift(y, l, tile), -k, -l);
      SpanAdd(k, -k, tile);
      SpanAdd(l, -l, tile);
      assert Span(0, tile) == 0.0;
    }
  }

  // ---- the program's tile ----

  const TILE := 880.0
  const MAX_SCALE := 1.18

  /** The scales that occur keep every reach inside the tile. */
  lemma ScalesFit(ms: seq<Motif>)
    requires forall n | 0 <= n < |ms| :: 0.0 <= ms[n].x <= TILE && 0.0 <= ms[n].y <= TILE && ms[n].scale <= MAX_SCALE
    ensures Fits(ms, TILE)
  {}

  /** So the tile the program draws is the endless pattern and has no seam. */
  lemma ProgramTile(ms: seq<Motif>, shapes: Shapes, x: real, y: real)
    requires forall n | 0 <= n < |ms| :: 0.0 <= ms[n].x <= TILE && 0.0 <= ms[n].y <= TILE && ms[n].scale <= MAX_SCALE
    requires Bounded(ms, shapes) && 0.0 <= x <= TILE && 0.0 <= y <= TILE
    ensures TileCovers(ms, shapes, TILE, x, y) <==> PlaneCovers(ms, shapes, TILE, x, y)
    ensures TileCovers(ms, shapes, TILE, 0.0, y) <==> TileCovers(ms, shapes, TILE, TILE, y)
    ensures TileCovers(ms, shapes, TILE, x, 0.0) <==> TileCovers(ms, shapes, TILE, x, TILE)
  {
    ScalesFit(ms);
    hide TileCovers, PlaneCovers, Bounded, Fits;
    TileIsPlane(ms, shapes, TILE, x, y);
    NoSeam(ms, shapes, TILE, y);
    NoSeam(ms, shapes, TILE, x);
  }
}
