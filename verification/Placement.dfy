/** How motifs are drawn from a pool and spread over a jittered grid. */
module Placement {
  // ---- drawing fairly ----

  /** The order of a shuffled bag: each of the m numbers once. */
  ghost predicate Shuffled(s: seq<nat>, m: nat) {
    |s| == m && (forall v: nat :: multiset(s)[v] == if v < m then 1 else 0)
  }

  /** Each number is among those drawn as often as any other, or once more. */
  ghost predicate Fair(drawn: seq<nat>, m: nat, k: nat)
    requires m > 0
  {
    && |drawn| == k
    && (forall v | v in drawn :: v < m)
    && forall v: nat | v < m :: k / m <= multiset(drawn)[v] <= (k + m - 1) / m
  }

  /** How often each number has been drawn, when `rounds` bags were opened and the last one still holds `bag`. */
  ghost predicate Counted(drawn: seq<nat>, bag: seq<nat>, m: nat, rounds: nat) {
    && |drawn| + |bag| == rounds * m
    && forall v: nat :: multiset(drawn)[v] + multiset(bag)[v] == if v < m then rounds else 0
  }

  /** `bags` gives the shuffled bags in the order they are opened; an empty pool cannot be drawn from. */
  method Pick(m: nat, k: nat, bags: nat -> seq<nat>) returns (drawn: seq<nat>, ok: bool)
    requires forall r: nat :: Shuffled(bags(r), m)
    ensures ok <==> m > 0 || k == 0
    ensures ok && m > 0 ==> Fair(drawn, m, k)
    ensures ok && m == 0 ==> drawn == []
  {
    drawn := [];
    var bag: seq<nat> := [];
    var rounds: nat := 0;
    for i := 0 to k
      invariant |drawn| == i && Counted(drawn, bag, m, rounds) && (m == 0 ==> i == 0)
      invariant (bag == [] || |bag| < m) && forall v: nat :: multiset(bag)[v] <= 1
    {
      if bag == [] {
        bag := bags(rounds);
        Opened(drawn, bag, m, rounds);
        rounds := rounds + 1;
        if bag == [] { return drawn, false; }
      }
      var v := bag[|bag| - 1];
      Popped(drawn, bag, m, rounds);
      drawn := drawn + [v];
      bag := bag[..|bag| - 1];
    }
    ok := true;
    if m > 0 { CountedIsFair(drawn, bag, m, rounds); }
  }

  lemma Opened(drawn: seq<nat>, bag: seq<nat>, m: nat, rounds: nat)
    requires Counted(drawn, [], m, rounds) && Shuffled(bag, m)
    ensures Counted(drawn, bag, m, rounds + 1)
  {}

  lemma Popped(drawn: seq<nat>, bag: seq<nat>, m: nat, rounds: nat)
    requires Counted(drawn, bag, m, rounds) && bag != []
    ensures var v, rest := bag[|bag| - 1], bag[..|bag| - 1];
      Counted(drawn + [v], rest, m, rounds) && forall x: nat :: multiset(rest)[x] <= multiset(bag)[x]
  {
    var v, rest := bag[|bag| - 1], bag[..|bag| - 1];
    assert bag == rest + [v];
    assert multiset(bag) == multiset(rest) + multiset{v};
    assert multiset(drawn + [v]) == multiset(drawn) + multiset{v};
  }

  /** The bag that is open holds each number at most once, so it decides between rounding down and up. */
  lemma CountedIsFair(drawn: seq<nat>, bag: seq<nat>, m: nat, rounds: nat)
    requires m > 0 && Counted(drawn, bag, m, rounds) && (bag == [] || |bag| < m)
    requires forall v: nat :: multiset(bag)[v] <= 1
    ensures Fair(drawn, m, |drawn|)
  {
    Rounding(|drawn|, |bag|, m, rounds);
    forall v | v in drawn ensures v < m {
      assert v in multiset(drawn);
    }
    forall v: nat | v < m ensures |drawn| / m <= multiset(drawn)[v] <= (|drawn| + m - 1) / m {
      assert multiset(drawn)[v] + multiset(bag)[v] == rounds;
      assert bag == [] ==> multiset(bag)[v] == 0;
    }
  }

  lemma Rounding(k: nat, rest: nat, m: nat, rounds: nat)
    requires m > 0 && k + rest == rounds * m && rest < m
    ensures k / m == (if rest == 0 then rounds else rounds - 1) && (k + m - 1) / m == rounds
  {
    if rest == 0 {
      Quotient(k, m, rounds, 0);
      Quotient(k + m - 1, m, rounds, m - 1);
    } else {
      assert rounds >= 1 ==> (rounds - 1) * m == rounds * m - m;
      assert rounds == 0 ==> rounds * m == 0;
      Quotient(k, m, rounds - 1, m - rest);
      Quotient(k + m - 1, m, rounds, m - 1 - rest);
    }
  }

  lemma Quotient(n: int, m: int, q: int, r: int)
    requires 0 <= r < m && n == q * m + r
    ensures n / m == q && n % m == r
  {
    var d := n / m - q;
    assert d * m == r - n % m;
    assert d >= 1 ==> d * m >= m;
    assert d <= -1 ==> d * m <= -m;
  }

  // ---- the grid ----

  /** `ceil(sqrt(n))`, and at least 1. */
  function Side(n: nat): (g: nat)
    ensures g >= 1 && g * g >= n && (g > 1 ==> (g - 1) * (g - 1) < n)
  {
    SideFrom(n, 1)
  }

  function SideFrom(n: nat, from_: nat): (g: nat)
    requires from_ >= 1 && (from_ > 1 ==> (from_ - 1) * (from_ - 1) < n)
    ensures g >= 1 && g * g >= n && (g > 1 ==> (g - 1) * (g - 1) < n)
    decreases n - from_ * from_
  {
    if from_ * from_ >= n then from_
    else
      assert (from_ + 1) * (from_ + 1) > from_ * from_;
      SideFrom(n, from_ + 1)
  }

  datatype Cell = Cell(x: nat, y: nat)

  /** Number i, counting row by row. */
  function CellAt(i: nat, g: nat): Cell
    requires g > 0
  {
    Cell(i % g, i / g)
  }

  lemma CellIs(x: nat, y: nat, g: nat)
    requires x < g
    ensures CellAt(y * g + x, g) == Cell(x, y)
  {
    Quotient(y * g + x, g, y, x);
  }

  method Cells(g: nat) returns (cells: seq<Cell>)
    requires g > 0
    ensures |cells| == g * g && forall i | 0 <= i < g * g :: cells[i] == CellAt(i, g)
  {
    hide CellAt;
    cells := [];
    for y := 0 to g
      invariant |cells| == y * g && forall i | 0 <= i < |cells| :: cells[i] == CellAt(i, g)
    {
      for x := 0 to g
        invariant |cells| == y * g + x && forall i | 0 <= i < |cells| :: cells[i] == CellAt(i, g)
      {
        CellIs(x, y, g);
        cells := cells + [Cell(x, y)];
      }
      assert (y + 1) * g == y * g + g;
    }
  }

  /** A shuffle puts item perm[i] at place i. */
  function Permuted<T>(s: seq<T>, perm: seq<nat>): seq<T>
    requires |perm| == |s| && forall i | 0 <= i < |perm| :: perm[i] < |s|
  {
    seq(|s|, i requires 0 <= i < |s| => s[perm[i]])
  }

  ghost predicate Permutation(perm: seq<nat>, n: nat) {
    && |perm| == n && (forall i | 0 <= i < n :: perm[i] < n)
    && forall i, j | 0 <= i < j < n :: perm[i] != perm[j]
  }

  /** Where in its cell a motif goes: the random jitter. */
  datatype Jitter = Jitter(x: real, y: real)

  datatype Spot = Spot(cell: Cell, x: real, y: real)

  function Times(a: real, size: real): real { a * size }

  function At(x: nat, j: real, size: real): real { Times(x as real + j, size) }

  function SpotIn(c: Cell, j: Jitter, size: real): Spot {
    Spot(c, At(c.x, j.x, size), At(c.y, j.y, size))
  }

  /** Where column or row x begins. */
  function Edge(x: nat, size: real): real { Times(x as real, size) }

  ghost predicate Within(s: Spot, g: nat, size: real) {
    && s.cell.x < g && s.cell.y < g
    && Edge(s.cell.x, size) < s.x < Edge(s.cell.x + 1, size)
    && Edge(s.cell.y, size) < s.y < Edge(s.cell.y + 1, size)
  }

  /** A cell for each of the n motifs, and a point in it. */
  method Spread(n: nat, tile: real, perm: seq<nat>, jitter: nat -> Jitter) returns (spots: seq<Spot>)
    requires tile > 0.0 && Permutation(perm, Side(n) * Side(n))
    requires forall i: nat :: 0.18 <= jitter(i).x <= 0.82 && 0.18 <= jitter(i).y <= 0.82
    ensures |spots| == n && forall i | 0 <= i < n :: spots[i] == SpotIn(CellAt(perm[i], Side(n)), jitter(i), tile / Side(n) as real)
    ensures forall i, j | 0 <= i < j < n :: spots[i].cell != spots[j].cell
    ensures forall i | 0 <= i < n :: Within(spots[i], Side(n), tile / Side(n) as real)
    ensures forall i | 0 <= i < n :: 0.0 < spots[i].x < tile && 0.0 < spots[i].y < tile
  {
    var g := Side(n);
    var size := tile / g as real;
    var cells := Cells(g);
    Size(g, tile);
    cells := Permuted(cells, perm)[..n];
    DistinctCells(g, perm, n, cells);
    hide At, Edge, Within;
    spots := [];
    for i := 0 to n
      invariant |spots| == i && forall k | 0 <= k < i :: spots[k] == SpotIn(cells[k], jitter(k), size)
      invariant forall k | 0 <= k < i :: Within(spots[k], g, size) && 0.0 < spots[k].x < tile && 0.0 < spots[k].y < tile
    {
      SpotWithin(cells[i], jitter(i), g, size, tile);
      spots := spots + [SpotIn(cells[i], jitter(i), size)];
    }
  }

  lemma Size(g: nat, tile: real)
    requires g > 0 && tile > 0.0
    ensures tile / g as real > 0.0 && Edge(g, tile / g as real) == tile
  {}

  lemma DistinctCells(g: nat, perm: seq<nat>, n: nat, cells: seq<Cell>)
    requires g > 0 && n <= g * g && Permutation(perm, g * g) && |cells| == n
    requires forall i | 0 <= i < n :: cells[i] == CellAt(perm[i], g)
    ensures forall i, j | 0 <= i < j < n :: cells[i] != cells[j]
    ensures forall i | 0 <= i < n :: cells[i].x < g && cells[i].y < g
  {
    forall i, j | 0 <= i < j < n ensures cells[i] != cells[j] {
      assert perm[i] == perm[i] / g * g + perm[i] % g;
      assert perm[j] == perm[j] / g * g + perm[j] % g;
    }
    forall i | 0 <= i < n ensures cells[i].x < g && cells[i].y < g {
      RowBelow(perm[i], g);
    }
  }

  lemma RowBelow(p: nat, g: nat)
    requires g > 0 && p < g * g
    ensures p / g < g && p % g < g
  {
    var q := p / g;
    assert p == q * g + p % g;
    assert q >= g ==> (q - g) * g >= 0;
    assert (q - g) * g == q * g - g * g;
  }

  lemma Scale(a: real, b: real, size: real)
    requires a < b && size > 0.0
    ensures Times(a, size) < Times(b, size)
  {
    assert (b - a) * size > 0.0;
    assert (b - a) * size == b * size - a * size;
  }

  lemma SpotWithin(c: Cell, j: Jitter, g: nat, size: real, tile: real)
    requires c.x < g && c.y < g && size > 0.0 && Edge(g, size) == tile
    requires 0.18 <= j.x <= 0.82 && 0.18 <= j.y <= 0.82
    ensures var s := SpotIn(c, j, size); Within(s, g, size) && 0.0 < s.x < tile && 0.0 < s.y < tile
  {
    hide At, Edge;
    Between(c.x, j.x, g, size);
    Between(c.y, j.y, g, size);
  }

  /** The jitter is the share of the cell, from its left and from its upper edge, at which the point lies. */
  lemma SpotShare(c: Cell, j: Jitter, size: real)
    ensures var s := SpotIn(c, j, size);
      s.cell == c && s.x - Edge(c.x, size) == Times(j.x, size) && s.y - Edge(c.y, size) == Times(j.y, size)
  {
    assert (c.x as real + j.x) * size == c.x as real * size + j.x * size;
    assert (c.y as real + j.y) * size == c.y as real * size + j.y * size;
  }

  lemma Between(x: nat, j: real, g: nat, size: real)
    requires x < g && size > 0.0 && 0.18 <= j <= 0.82
    ensures Edge(x, size) < At(x, j, size) < Edge(x + 1, size) && 0.0 < At(x, j, size) < Edge(g, size)
  {
    assert Times(0.0, size) == 0.0;
    hide Times;
    Scale(x as real, x as real + j, size);
    Scale(x as real + j, (x + 1) as real, size);
    Scale(0.0, x as real + j, size);
    Scale(x as real + j, g as real, size);
  }
}
