/** The passes that leave no two motifs overlapping: dropping the smaller of a clashing pair,
    then adding fillers where there is room. */
module Overlaps {
  import opened StableSort
  import opened Torus

  /** A motif after relaxation: its number and its disc. */
  datatype Entry = Entry(index: nat, disc: Disc)

  function Entries(discs: seq<Disc>): (e: seq<Entry>) {
    seq(|discs|, i requires 0 <= i < |discs| => Entry(i, discs[i]))
  }

  function BiggerFirst(): (Entry, Entry) -> bool { (a: Entry, b: Entry) => a.disc.r >= b.disc.r }

  function Earlier(): (Entry, Entry) -> bool { (a: Entry, b: Entry) => a.index < b.index }

  function Order(discs: seq<Disc>): seq<Entry> { Sort(BiggerFirst(), Entries(discs)) }

  predicate Blocked(d: Disc, placed: seq<Disc>, gap: real, tile: real) {
    exists k | 0 <= k < |placed| :: Clash(d, placed[k], gap, tile)
  }

  function Discs(entries: seq<Entry>): (d: seq<Disc>) {
    seq(|entries|, i requires 0 <= i < |entries| => entries[i].disc)
  }

  /** Take each motif that clashes with none taken before it. */
  function Greedy(order: seq<Entry>, gap: real, tile: real): seq<Entry> {
    if order == [] then []
    else
      var n := |order| - 1;
      var kept := Greedy(order[..n], gap, tile);
      if Blocked(order[n].disc, Discs(kept), gap, tile) then kept else kept + [order[n]]
  }

  // ---- what a greedy selection is ----

  ghost predicate Distinct(order: seq<Entry>) { forall i, j | 0 <= i < j < |order| :: order[i] != order[j] }

  /** Some entry before place i is kept and clashes with entry i. */
  ghost predicate BeatenAt(order: seq<Entry>, kept: seq<Entry>, i: nat, gap: real, tile: real)
    requires i < |order|
  {
    exists j | 0 <= j < i :: order[j] in kept && Clash(order[i].disc, order[j].disc, gap, tile)
  }

  /** Kept are exactly the entries that no earlier kept entry beats. */
  ghost predicate Selection(order: seq<Entry>, kept: seq<Entry>, gap: real, tile: real) {
    forall i: nat | i < |order| :: order[i] in kept <==> !BeatenAt(order, kept, i, gap, tile)
  }

  lemma {:induction false} GreedyFrom(order: seq<Entry>, gap: real, tile: real)
    ensures forall e | e in Greedy(order, gap, tile) :: e in order
  {
    if order != [] {
      var n := |order| - 1;
      GreedyFrom(order[..n], gap, tile);
      assert order == order[..n] + [order[n]];
    }
  }

  lemma BlockedIs(d: Disc, kept: seq<Entry>, gap: real, tile: real)
    ensures Blocked(d, Discs(kept), gap, tile) <==> exists e | e in kept :: Clash(d, e.disc, gap, tile)
  {
    if Blocked(d, Discs(kept), gap, tile) {
      var k :| 0 <= k < |kept| && Clash(d, Discs(kept)[k], gap, tile);
      assert kept[k] in kept && Clash(d, kept[k].disc, gap, tile);
    }
    forall e | e in kept && Clash(d, e.disc, gap, tile) ensures Blocked(d, Discs(kept), gap, tile) {
      var k :| 0 <= k < |kept| && kept[k] == e;
      assert Discs(kept)[k] == e.disc;
    }
  }

  lemma {:induction false} GreedySelects(order: seq<Entry>, gap: real, tile: real)
    requires Distinct(order)
    ensures Selection(order, Greedy(order, gap, tile), gap, tile)
  {
    hide Clash, Distinct, Blocked, BeatenAt;
    if order != [] {
      var n := |order| - 1;
      var front := order[..n];
      var was, kept := Greedy(front, gap, tile), Greedy(order, gap, tile);
      LastIsNew(order);
      GreedySelects(front, gap, tile);
      GreedyFrom(front, gap, tile);
      BlockedIs(order[n].disc, was, gap, tile);
      FrontSame(order, was, kept, gap, tile);
      LastBeaten(order, was, kept, gap, tile);
      hide Greedy;
      forall i: nat | i < |order| ensures order[i] in kept <==> !BeatenAt(order, kept, i, gap, tile) {
        assert i < n ==> (front[i] in was <==> !BeatenAt(front, was, i, gap, tile));
      }
    }
  }

  /** Deciding the last entry decides nothing about the others. */
  lemma FrontSame(order: seq<Entry>, was: seq<Entry>, kept: seq<Entry>, gap: real, tile: real)
    requires Distinct(order) && order != [] && (kept == was || kept == was + [order[|order| - 1]])
    ensures forall i: nat | i < |order| - 1 ::
      && (order[i] in kept <==> order[i] in was)
      && (BeatenAt(order, kept, i, gap, tile) <==> BeatenAt(order[..|order| - 1], was, i, gap, tile))
  {}

  lemma LastIsNew(order: seq<Entry>)
    requires Distinct(order) && order != []
    ensures order[|order| - 1] !in order[..|order| - 1] && Distinct(order[..|order| - 1])
  {}

  lemma LastBeaten(order: seq<Entry>, was: seq<Entry>, kept: seq<Entry>, gap: real, tile: real)
    requires Distinct(order) && order != [] && forall e | e in was :: e in order[..|order| - 1]
    requires var n := |order| - 1;
      kept == if (exists e | e in was :: Clash(order[n].disc, e.disc, gap, tile)) then was else was + [order[n]]
    ensures order[|order| - 1] in kept <==> !BeatenAt(order, kept, |order| - 1, gap, tile)
  {}

  /** There is one selection: whatever is decided so, is decided as the greedy pass does. */
  lemma {:induction false} SelectionUnique(order: seq<Entry>, a: seq<Entry>, b: seq<Entry>, gap: real, tile: real, n: nat)
    requires Selection(order, a, gap, tile) && Selection(order, b, gap, tile) && n <= |order|
    ensures forall i | 0 <= i < n :: order[i] in a <==> order[i] in b
  {
    if n > 0 {
      SelectionUnique(order, a, b, gap, tile, n - 1);
      assert BeatenAt(order, a, n - 1, gap, tile) <==> BeatenAt(order, b, n - 1, gap, tile);
    }
  }

  ghost predicate AllApart(kept: seq<Entry>, gap: real, tile: real) {
    forall i, j | 0 <= i < j < |kept| :: !Clash(kept[j].disc, kept[i].disc, gap, tile)
  }

  /** Any two kept motifs keep the gap. */
  lemma {:induction false} KeptApart(order: seq<Entry>, gap: real, tile: real)
    ensures AllApart(Greedy(order, gap, tile), gap, tile)
  {
    hide Clash;
    if order != [] {
      var n := |order| - 1;
      var was, kept := Greedy(order[..n], gap, tile), Greedy(order, gap, tile);
      KeptApart(order[..n], gap, tile);
      BlockedIs(order[n].disc, was, gap, tile);
      forall i, j | 0 <= i < j < |kept| ensures !Clash(kept[j].disc, kept[i].disc, gap, tile) {
        assert kept[i] == was[i] && was[i] in was;
        if j < |was| {
          assert kept[j] == was[j] && !Clash(was[j].disc, was[i].disc, gap, tile);
        } else {
          assert kept[j] == order[n] && !Clash(order[n].disc, was[i].disc, gap, tile);
        }
      }
    }
  }

  // ---- bigger wins ----

  lemma OrderIs(discs: seq<Disc>)
    ensures var o := Order(discs);
      && multiset(o) == multiset(Entries(discs)) && Ranked(BiggerFirst(), Earlier(), o) && Distinct(o)
  {
    var e, o := Entries(discs), Order(discs);
    SortKeeps(BiggerFirst(), e);
    SortRanks(BiggerFirst(), Earlier(), e);
    forall i, j | 0 <= i < j < |o| ensures o[i] != o[j] {
      assert BiggerFirst()(o[i], o[j]) && (BiggerFirst()(o[j], o[i]) ==> Earlier()(o[i], o[j]));
    }
  }

  lemma PlaceOf(discs: seq<Disc>, i: nat) returns (k: nat)
    requires i < |discs|
    ensures k < |Order(discs)| && Order(discs)[k] == Entry(i, discs[i])
  {
    OrderIs(discs);
    assert Entries(discs)[i] in Entries(discs);
    InSame(Order(discs), Entries(discs), Entry(i, discs[i]));
    k :| 0 <= k < |Order(discs)| && Order(discs)[k] == Entry(i, discs[i]);
  }

  function Kept(discs: seq<Disc>, gap: real, tile: real): seq<Entry> { Greedy(Order(discs), gap, tile) }

  ghost predicate Outranks(a: Entry, b: Entry) {
    a.disc.r > b.disc.r || (a.disc.r == b.disc.r && a.index < b.index)
  }

  /** A motif is dropped exactly when it clashes with a kept one that is bigger, or as big and earlier. */
  lemma BiggerWins(discs: seq<Disc>, gap: real, tile: real, i: nat)
    requires i < |discs|
    ensures var kept := Kept(discs, gap, tile);
      var e := Entry(i, discs[i]);
      e !in kept <==> exists k | k in kept :: Outranks(k, e) && Clash(e.disc, k.disc, gap, tile)
  {
    hide Clash;
    var o, kept, e := Order(discs), Kept(discs, gap, tile), Entry(i, discs[i]);
    OrderIs(discs);
    GreedySelects(o, gap, tile);
    var n := PlaceOf(discs, i);
    if e !in kept {
      assert BeatenAt(o, kept, n, gap, tile);
      var j :| 0 <= j < n && o[j] in kept && Clash(o[n].disc, o[j].disc, gap, tile);
      RankIs(o, j, n);
    }
    forall k | k in kept && Outranks(k, e) && Clash(e.disc, k.disc, gap, tile) ensures e !in kept {
      GreedyFrom(o, gap, tile);
      var j :| 0 <= j < |o| && o[j] == k;
      RankedBefore(o, j, n);
      BeatenIs(o, kept, n, gap, tile, j);
    }
  }

  lemma BeatenIs(order: seq<Entry>, kept: seq<Entry>, n: nat, gap: real, tile: real, j: nat)
    requires Selection(order, kept, gap, tile) && j < n < |order| && order[j] in kept
    requires Clash(order[n].disc, order[j].disc, gap, tile)
    ensures order[n] !in kept
  {}

  lemma RankIs(o: seq<Entry>, j: nat, n: nat)
    requires Ranked(BiggerFirst(), Earlier(), o) && j < n < |o|
    ensures Outranks(o[j], o[n])
  {}

  lemma RankedBefore(o: seq<Entry>, j: nat, n: nat)
    requires Ranked(BiggerFirst(), Earlier(), o) && j < |o| && n < |o| && Outranks(o[j], o[n])
    ensures j < n
  {}

  /** So no motif can be put back, and a motif that nothing outranks is kept. */
  lemma NothingFits(discs: seq<Disc>, gap: real, tile: real, i: nat)
    requires i < |discs| && tile > 0.0
    ensures var kept := Kept(discs, gap, tile);
      && (Entry(i, discs[i]) !in kept ==> Blocked(discs[i], Discs(kept), gap, tile))
      && ((forall j: nat | j < |discs| :: !Outranks(Entry(j, discs[j]), Entry(i, discs[i]))) ==> Entry(i, discs[i]) in kept)
  {
    var kept, e := Kept(discs, gap, tile), Entry(i, discs[i]);
    BiggerWins(discs, gap, tile, i);
    BlockedIs(discs[i], kept, gap, tile);
    if e !in kept {
      var k :| k in kept && Outranks(k, e) && Clash(e.disc, k.disc, gap, tile);
      KeptFrom(discs, gap, tile, k);
    }
  }

  lemma KeptFrom(discs: seq<Disc>, gap: real, tile: real, k: Entry)
    requires k in Kept(discs, gap, tile)
    ensures k.index < |discs| && k == Entry(k.index, discs[k.index])
  {
    GreedyFrom(Order(discs), gap, tile);
    OrderIs(discs);
    InSame(Order(discs), Entries(discs), k);
  }

  // ---- fillers ----

  const ATTEMPTS := 60000
  const FILL_GAP := 9.0

  /** What the random source gives for one attempt: a filler's radius, a scale and a place. */
  datatype Draw = Draw(radius: real, scale: real, x: real, y: real)

  function Drawn(d: Draw): Disc { Disc(d.x, d.y, d.radius * d.scale) }

  function Filled(placed: seq<Disc>, want: nat, draw: nat -> Draw, attempt: nat, tile: real): (all: seq<Disc>)
    requires attempt <= ATTEMPTS
    decreases ATTEMPTS - attempt
  {
    if want == 0 || attempt == ATTEMPTS then placed
    else
      var d := Drawn(draw(attempt));
      if Blocked(d, placed, FILL_GAP, tile) then Filled(placed, want, draw, attempt + 1, tile)
      else Filled(placed + [d], want - 1, draw, attempt + 1, tile)
  }

  /** Every disc from place n on keeps the gap from all before it. */
  ghost predicate ClearFrom(all: seq<Disc>, n: nat, gap: real, tile: real) {
    forall i, j | 0 <= i < j < |all| && n <= j :: !Clash(all[j], all[i], gap, tile)
  }

  /** Fillers are added after what is placed, at most as many as wanted, each from a draw and clear of all before it. */
  lemma {:induction false} FilledIs(placed: seq<Disc>, want: nat, draw: nat -> Draw, attempt: nat, tile: real)
    requires attempt <= ATTEMPTS
    ensures var all := Filled(placed, want, draw, attempt, tile);
      && placed <= all && |all| - |placed| <= want && ClearFrom(all, |placed|, FILL_GAP, tile)
      && forall j | |placed| <= j < |all| :: exists a: nat | attempt <= a < ATTEMPTS :: all[j] == Drawn(draw(a))
    decreases ATTEMPTS - attempt
  {
    if want != 0 && attempt != ATTEMPTS {
      var d := Drawn(draw(attempt));
      if Blocked(d, placed, FILL_GAP, tile) {
        FilledIs(placed, want, draw, attempt + 1, tile);
      } else {
        FilledIs(placed + [d], want - 1, draw, attempt + 1, tile);
        AddedClear(placed, d, Filled(placed + [d], want - 1, draw, attempt + 1, tile), tile);
      }
    }
  }

  lemma AddedClear(placed: seq<Disc>, d: Disc, all: seq<Disc>, tile: real)
    requires !Blocked(d, placed, FILL_GAP, tile) && placed + [d] <= all && ClearFrom(all, |placed| + 1, FILL_GAP, tile)
    ensures ClearFrom(all, |placed|, FILL_GAP, tile) && placed <= all
  {}

  /** If fewer fillers fit than were wanted, every attempt was made and each rejected draw still has no room. */
  lemma {:induction false} FilledTried(placed: seq<Disc>, want: nat, draw: nat -> Draw, attempt: nat, tile: real, a: nat)
    requires attempt <= a < ATTEMPTS
    requires |Filled(placed, want, draw, attempt, tile)| - |placed| < want
    ensures var all := Filled(placed, want, draw, attempt, tile);
      Drawn(draw(a)) in all || Blocked(Drawn(draw(a)), all, FILL_GAP, tile)
    decreases ATTEMPTS - attempt
  {
    var d := Drawn(draw(attempt));
    var all := Filled(placed, want, draw, attempt, tile);
    FilledIs(placed, want, draw, attempt, tile);
    if Blocked(d, placed, FILL_GAP, tile) {
      if a > attempt {
        FilledTried(placed, want, draw, attempt + 1, tile, a);
      } else {
        var k :| 0 <= k < |placed| && Clash(d, placed[k], FILL_GAP, tile);
        assert all[k] == placed[k];
      }
    } else {
      FilledIs(placed + [d], want - 1, draw, attempt + 1, tile);
      assert all[|placed|] == (placed + [d])[|placed|];
      if a > attempt { FilledTried(placed + [d], want - 1, draw, attempt + 1, tile, a); }
    }
  }

  // ---- the loops ----

  /** `order` is the sorted numbers; the inner loop stops at the first clash. */
  method DropOverlaps(discs: seq<Disc>, margin: real, tile: real) returns (kept: seq<Entry>)
    ensures kept == Kept(discs, margin * 0.55, tile)
  {
    var order := Order(discs);
    kept := [];
    for n := 0 to |order|
      invariant kept == Greedy(order[..n], margin * 0.55, tile)
    {
      assert order[..n + 1][..n] == order[..n];
      var blocked := IsBlocked(order[n].disc, Discs(kept), margin * 0.55, tile);
      if !blocked { kept := kept + [order[n]]; }
    }
    assert order[..|order|] == order;
  }

  method IsBlocked(d: Disc, placed: seq<Disc>, gap: real, tile: real) returns (blocked: bool)
    ensures blocked == Blocked(d, placed, gap, tile)
  {
    blocked := false;
    for k := 0 to |placed|
      invariant !blocked && forall j | 0 <= j < k :: !Clash(d, placed[j], gap, tile)
    {
      var dx, dy := WrapDelta(d.x, d.y, placed[k].x, placed[k].y, tile);
      if Near(dx, dy, d.r + placed[k].r + gap) { return true; }
    }
  }

  method AddFillers(placed: seq<Disc>, want: nat, draw: nat -> Draw, tile: real) returns (all: seq<Disc>, count: nat)
    ensures all == Filled(placed, want, draw, 0, tile) && count == |all| - |placed|
  {
    all, count := placed, 0;
    var attempts := 0;
    while count < want && attempts < ATTEMPTS
      invariant attempts <= ATTEMPTS && count <= want && |all| == |placed| + count
      invariant Filled(placed, want, draw, 0, tile) == Filled(all, want - count, draw, attempts, tile)
    {
      var d := Drawn(draw(attempts));
      attempts := attempts + 1;
      var blocked := IsBlocked(d, all, FILL_GAP, tile);
      if !blocked { all, count := all + [d], count + 1; }
    }
  }

  // ---- the whole layout ----

  function Min(a: real, b: real): real { if a <= b then a else b }

  /** The last two passes over the relaxed motifs, with the counts that are reported. */
  method Finish(discs: seq<Disc>, margin: real, want: nat, draw: nat -> Draw, tile: real)
    returns (all: seq<Disc>, main: nat, fill: nat)
    ensures all == Final(discs, margin, want, draw, tile)
    ensures main == |Kept(discs, margin * 0.55, tile)| && main + fill == |all|
  {
    var kept := DropOverlaps(discs, margin, tile);
    FilledIs(Discs(kept), want, draw, 0, tile);
    all, fill := AddFillers(Discs(kept), want, draw, tile);
    main := |kept|;
  }

  function Final(discs: seq<Disc>, margin: real, want: nat, draw: nat -> Draw, tile: real): seq<Disc> {
    Filled(Discs(Kept(discs, margin * 0.55, tile)), want, draw, 0, tile)
  }

  /** Every placement after the kept motifs is a filler: where and of the size that one of the attempts drew. */
  lemma FillersAre(discs: seq<Disc>, margin: real, want: nat, draw: nat -> Draw, tile: real, i: nat)
    requires |Kept(discs, margin * 0.55, tile)| <= i < |Final(discs, margin, want, draw, tile)|
    ensures var d := Final(discs, margin, want, draw, tile)[i];
      exists a: nat :: a < 60000 && d.x == draw(a).x && d.y == draw(a).y && d.r == draw(a).radius * draw(a).scale
  {
    hide Kept;
    FilledIs(Discs(Kept(discs, margin * 0.55, tile)), want, draw, 0, tile);
    var a: nat :| a < ATTEMPTS && Final(discs, margin, want, draw, tile)[i] == Drawn(draw(a));
  }

  lemma FinalOnTile(discs: seq<Disc>, margin: real, want: nat, draw: nat -> Draw, tile: real, i: nat)
    requires i < |Final(discs, margin, want, draw, tile)|
    requires (forall k | 0 <= k < |discs| :: OnTile(discs[k], tile)) && forall a: nat :: OnTile(Drawn(draw(a)), tile)
    ensures OnTile(Final(discs, margin, want, draw, tile)[i], tile)
  {
    var kept := Kept(discs, margin * 0.55, tile);
    var all := Final(discs, margin, want, draw, tile);
    FilledIs(Discs(kept), want, draw, 0, tile);
    if i < |kept| {
      assert all[i] == Discs(kept)[i] == kept[i].disc && kept[i] in kept;
      KeptFrom(discs, margin * 0.55, tile, kept[i]);
    }
  }

  /** No overlap anywhere in the tiled plane: any copies of two different placements are at least their radii
      and the smaller of the two gaps apart. */
  lemma NoOverlap(discs: seq<Disc>, margin: real, want: nat, draw: nat -> Draw, tile: real, i: nat, j: nat)
    requires tile > 0.0 && i < j < |Final(discs, margin, want, draw, tile)|
    requires (forall k | 0 <= k < |discs| :: OnTile(discs[k], tile)) && forall a: nat :: OnTile(Drawn(draw(a)), tile)
    ensures var all := Final(discs, margin, want, draw, tile);
      Apart(all[j], all[i], Min(margin * 0.55, FILL_GAP), tile)
  {
    var all := Final(discs, margin, want, draw, tile);
    var gap := if j < |Kept(discs, margin * 0.55, tile)| then margin * 0.55 else FILL_GAP;
    FinalOnTile(discs, margin, want, draw, tile, i);
    FinalOnTile(discs, margin, want, draw, tile, j);
    FinalClear(discs, margin, want, draw, tile, i, j);
    hide Clash, Final, Kept;
    ApartInPlane(all[j], all[i], gap, tile);
    ApartLess(all[j], all[i], gap, Min(margin * 0.55, FILL_GAP), tile);
  }

  lemma FinalClear(discs: seq<Disc>, margin: real, want: nat, draw: nat -> Draw, tile: real, i: nat, j: nat)
    requires i < j < |Final(discs, margin, want, draw, tile)|
    ensures var all := Final(discs, margin, want, draw, tile);
      !Clash(all[j], all[i], if j < |Kept(discs, margin * 0.55, tile)| then margin * 0.55 else FILL_GAP, tile)
  {
    hide Clash, Filled;
    var kept := Kept(discs, margin * 0.55, tile);
    var all := Final(discs, margin, want, draw, tile);
    FilledIs(Discs(kept), want, draw, 0, tile);
    KeptApart(Order(discs), margin * 0.55, tile);
    if j < |kept| {
      assert all[i] == Discs(kept)[i] == kept[i].disc;
      assert all[j] == Discs(kept)[j] == kept[j].disc;
      assert !Clash(kept[j].disc, kept[i].disc, margin * 0.55, tile);
    } else {
      assert !Clash(all[j], all[i], FILL_GAP, tile);
    }
  }
}
