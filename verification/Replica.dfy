/** The frontend's replica of one view: a Python dict of rows, kept by resets, upserts and removes. */
module Replica {
  import opened Lines
  import opened Options
  import opened StableSort

  type Bytes = seq<byte>

  /** `chat` stands for the rest of the row, which the replica only stores. */
  datatype Row = Row(id: string, sort: Bytes, chat: Bytes)

  /** Empty: neither arm is set, so reading `remove.id` gives the default "". */
  datatype Change = Upsert(row: Row) | Remove(id: string) | Empty
  datatype Update = Update(reset: bool, changes: seq<Change>)
  datatype Frame = Event(update: Update) | Other

  // ---- a dict in insertion order ----

  datatype Dict = Dict(keys: seq<string>, rows: map<string, Row>)

  function Put(d: Dict, row: Row): Dict {
    Dict(if row.id in d.rows then d.keys else d.keys + [row.id], d.rows[row.id := row])
  }

  function Without(keys: seq<string>, id: string): (r: seq<string>)
    ensures forall k :: k in r <==> k in keys && k != id
  {
    if keys == [] then [] else (if keys[0] == id then [] else [keys[0]]) + Without(keys[1..], id)
  }

  function Pop(d: Dict, id: string): Dict {
    Dict(Without(d.keys, id), d.rows - {id})
  }

  // ---- what is done to it ----

  datatype Op = Clear | Set(row: Row) | Del(id: string)

  function ChangeOp(c: Change): Op {
    match c
    case Upsert(row) => Set(row)
    case Remove(id) => Del(id)
    case Empty => Del("")
  }

  function ChangeOps(changes: seq<Change>): seq<Op> {
    seq(|changes|, i requires 0 <= i < |changes| => ChangeOp(changes[i]))
  }

  lemma ChangeOpsSnoc(changes: seq<Change>, i: nat)
    requires i < |changes|
    ensures ChangeOps(changes[..i + 1]) == ChangeOps(changes[..i]) + [ChangeOp(changes[i])]
  {}

  function UpdateOps(u: Update): seq<Op> {
    (if u.reset then [Clear] else []) + ChangeOps(u.changes)
  }

  function FrameOps(f: Frame): seq<Op> {
    match f
    case Event(u) => UpdateOps(u)
    case Other => []
  }

  function Do(d: Dict, op: Op): Dict {
    match op
    case Clear => Dict([], map[])
    case Set(row) => Put(d, row)
    case Del(id) => Pop(d, id)
  }

  /** The dict after these operations. */
  function After(ops: seq<Op>): Dict {
    if ops == [] then Dict([], map[]) else Do(After(ops[..|ops| - 1]), ops[|ops| - 1])
  }

  // ---- what a history means, without a dict ----

  predicate About(op: Op, id: string) {
    match op
    case Clear => true
    case Set(row) => row.id == id
    case Del(i) => i == id
  }

  /** The last operation about an id decides its row. */
  function Decided(ops: seq<Op>, id: string): (r: Option<Row>)
    ensures r.Some? ==> r.value.id == id
  {
    var n := |ops|;
    if n == 0 then None
    else if About(ops[n - 1], id) then (if ops[n - 1].Set? then Some(ops[n - 1].row) else None)
    else Decided(ops[..n - 1], id)
  }

  /** When an id's current live run started, or -1. */
  function Birth(ops: seq<Op>, id: string): (k: int)
    ensures -1 <= k < |ops|
    ensures k >= 0 <==> Decided(ops, id).Some?
  {
    var n := |ops|;
    if n == 0 then -1
    else
      var k := Birth(ops[..n - 1], id);
      if !About(ops[n - 1], id) then k
      else if !ops[n - 1].Set? then -1
      else if k >= 0 then k
      else n - 1
  }

  /** The birth is an upsert of an id that has no row, and the row stays from then on. */
  lemma {:induction false} BirthIs(ops: seq<Op>, id: string)
    requires Decided(ops, id).Some?
    ensures var k := Birth(ops, id);
      && ops[k].Set? && ops[k].row.id == id && Decided(ops[..k], id) == None
      && forall j | k < j <= |ops| :: Decided(ops[..j], id).Some?
  {
    var n := |ops|;
    var k := Birth(ops, id);
    assert ops[..n] == ops;
    if k < n - 1 {
      BirthIs(ops[..n - 1], id);
      assert ops[..n - 1][..k] == ops[..k];
      forall j | k < j <= n ensures Decided(ops[..j], id).Some? {
        if j < n { assert ops[..n - 1][..j] == ops[..j]; }
      }
    }
  }

  // ---- the dict holds what the history decides ----

  /** One id's entry is what the history decided. */
  ghost predicate Holds(ops: seq<Op>, id: string) {
    var d := After(ops);
    && (id in d.rows <==> Decided(ops, id).Some?)
    && (id in d.rows ==> Decided(ops, id) == Some(d.rows[id]))
    && (id in d.keys <==> id in d.rows)
  }

  lemma {:induction false} RowIsDecided(ops: seq<Op>, id: string)
    ensures Holds(ops, id)
  {
    var n := |ops|;
    if n > 0 {
      RowIsDecided(ops[..n - 1], id);
      if ops[n - 1].Set? { RowIsDecided(ops[..n - 1], ops[n - 1].row.id); }
    }
  }

  ghost predicate Elder(ops: seq<Op>, a: string, b: string) {
    Birth(ops, a) < Birth(ops, b)
  }

  ghost predicate ByBirth(ops: seq<Op>, keys: seq<string>) {
    forall i, j | 0 <= i < j < |keys| :: Elder(ops, keys[i], keys[j])
  }

  lemma {:induction false} WithoutKeepsOrder(ops: seq<Op>, keys: seq<string>, id: string)
    requires ByBirth(ops, keys)
    ensures ByBirth(ops, Without(keys, id))
  {
    if keys != [] {
      WithoutKeepsOrder(ops, keys[1..], id);
      var r := Without(keys[1..], id);
      forall k | k in r ensures keys[0] != id ==> Elder(ops, keys[0], k) {
        var i :| 0 <= i < |keys[1..]| && keys[1..][i] == k;
        assert keys[i + 1] == k;
      }
    }
  }

  /** The births of live ids do not move while later operations leave them alone. */
  lemma BirthStays(ops: seq<Op>, op: Op, keys: seq<string>)
    requires ByBirth(ops, keys) && forall k | k in keys :: Birth(ops + [op], k) == Birth(ops, k)
    ensures ByBirth(ops + [op], keys)
  {}

  /** Iteration goes by birth: an overwrite keeps an id's place, a removal loses it. */
  lemma {:induction false} KeysByBirth(ops: seq<Op>)
    ensures ByBirth(ops, After(ops).keys)
  {
    var n := |ops|;
    if n > 0 {
      var was, op := ops[..n - 1], ops[n - 1];
      var keys := After(was).keys;
      assert ops == was + [op];
      KeysByBirth(was);
      forall k | k in keys ensures Birth(was, k) >= 0 { RowIsDecided(was, k); }
      match op {
        case Clear =>
        case Set(row) =>
          RowIsDecided(was, row.id);
          BirthStays(was, op, keys);
          assert row.id !in After(was).rows ==> Birth(ops, row.id) == n - 1;
        case Del(id) =>
          WithoutKeepsOrder(was, keys, id);
          BirthStays(was, op, Without(keys, id));
      }
    }
  }

  // ---- what is shown ----

  function BytesLe(a: Bytes, b: Bytes): bool {
    a == [] || (b != [] && (a[0] < b[0] || (a[0] == b[0] && BytesLe(a[1..], b[1..]))))
  }

  lemma {:induction false} BytesTotal(a: Bytes, b: Bytes)
    ensures BytesLe(a, b) || BytesLe(b, a)
    ensures BytesLe(a, b) && BytesLe(b, a) ==> a == b
  {
    if a != [] && b != [] && a[0] == b[0] {
      BytesTotal(a[1..], b[1..]);
      assert a == [a[0]] + a[1..] && b == [b[0]] + b[1..];
    }
  }

  lemma {:induction false} BytesTransitive(a: Bytes, b: Bytes, c: Bytes)
    requires BytesLe(a, b) && BytesLe(b, c)
    ensures BytesLe(a, c)
  {
    if a != [] && a[0] == b[0] && b[0] == c[0] {
      BytesTransitive(a[1..], b[1..], c[1..]);
    }
  }

  function BySort(): (Row, Row) -> bool { (x: Row, y: Row) => BytesLe(x.sort, y.sort) }

  lemma BySortIsPreorder()
    ensures TotalPreorder(BySort())
  {
    forall x: Row, y: Row ensures BySort()(x, y) || BySort()(y, x) { BytesTotal(x.sort, y.sort); }
    forall x: Row, y: Row, z: Row | BySort()(x, y) && BySort()(y, z) ensures BySort()(x, z) {
      BytesTransitive(x.sort, y.sort, z.sort);
    }
  }

  ghost function Older(ops: seq<Op>): (Row, Row) -> bool {
    (x: Row, y: Row) => Elder(ops, x.id, y.id)
  }

  ghost predicate Whole(d: Dict) { forall k | k in d.keys :: k in d.rows }

  function Values(d: Dict): (v: seq<Row>)
    requires Whole(d)
    ensures |v| == |d.keys| && forall i | 0 <= i < |v| :: v[i] == d.rows[d.keys[i]]
  {
    seq(|d.keys|, i requires 0 <= i < |d.keys| => d.rows[d.keys[i]])
  }

  lemma WholeAfter(ops: seq<Op>)
    ensures Whole(After(ops))
  {}

  function Shown(d: Dict): seq<Row>
    requires Whole(d)
  {
    Sort(BySort(), Values(d))
  }

  /** A list that shows a history: the decided rows, each once, by `sort` and then by birth. */
  ghost predicate Shows(ops: seq<Op>, list: seq<Row>) {
    && (forall r :: r in list <==> Decided(ops, r.id) == Some(r))
    && Ranked(BySort(), Older(ops), list)
  }

  lemma ValuesAreDecided(ops: seq<Op>, r: Row)
    requires Whole(After(ops))
    ensures r in Values(After(ops)) <==> Decided(ops, r.id) == Some(r)
  {
    var d := After(ops);
    RowIsDecided(ops, r.id);
    if r in Values(d) {
      var i :| 0 <= i < |d.keys| && Values(d)[i] == r;
      RowIsDecided(ops, d.keys[i]);
    }
    if Decided(ops, r.id) == Some(r) {
      var i :| 0 <= i < |d.keys| && d.keys[i] == r.id;
      assert Values(d)[i] == r;
    }
  }

  lemma ShownIs(ops: seq<Op>)
    requires Whole(After(ops))
    ensures Shows(ops, Shown(After(ops)))
  {
    var v := Values(After(ops));
    BySortIsPreorder();
    KeysByBirth(ops);
    forall i, j | 0 <= i < j < |v| ensures Older(ops)(v[i], v[j]) {
      var keys := After(ops).keys;
      assert Elder(ops, keys[i], keys[j]);
      RowIsDecided(ops, keys[i]);
      RowIsDecided(ops, keys[j]);
    }
    SortRanks(BySort(), Older(ops), v);
    SortKeeps(BySort(), v);
    forall r: Row ensures r in Shown(After(ops)) <==> Decided(ops, r.id) == Some(r) {
      InSame(Shown(After(ops)), v, r);
      ValuesAreDecided(ops, r);
    }
  }

  /** No list but the shown one shows the history. */
  lemma ShownUnique(ops: seq<Op>, a: seq<Row>, b: seq<Row>)
    requires Shows(ops, a) && Shows(ops, b)
    ensures a == b
  {
    assert Asymmetric(Older(ops));
    Once(ops, a);
    Once(ops, b);
    forall r: Row ensures r in a <==> r in b {}
    SameOnce(a, b);
    RankedUnique(BySort(), Older(ops), a, b);
  }

  ghost predicate Distinct<T>(s: seq<T>) { forall i, j | 0 <= i < j < |s| :: s[i] != s[j] }

  lemma Once(ops: seq<Op>, a: seq<Row>)
    requires Shows(ops, a)
    ensures Distinct(a)
  {}

  lemma {:induction false} CountOnce<T>(a: seq<T>, x: T)
    requires Distinct(a)
    ensures multiset(a)[x] == if x in a then 1 else 0
  {
    if a != [] {
      assert a == [a[0]] + a[1..];
      CountOnce(a[1..], x);
      assert x in a <==> x == a[0] || x in a[1..];
      assert x in a[1..] ==> x != a[0] by {
        if x in a[1..] { var i :| 0 <= i < |a[1..]| && a[1..][i] == x; assert a[i + 1] == x; }
      }
    }
  }

  lemma SameOnce<T(!new)>(a: seq<T>, b: seq<T>)
    requires Distinct(a) && Distinct(b) && forall x :: x in a <==> x in b
    ensures multiset(a) == multiset(b)
  {
    forall x ensures multiset(a)[x] == multiset(b)[x] {
      CountOnce(a, x);
      CountOnce(b, x);
    }
  }

  // ---- two replicas ----

  /** A reset forgets: two replicas fed the same operations from a reset on hold equal dicts. */
  lemma {:induction false} ResetForgets(a: seq<Op>, b: seq<Op>, since: seq<Op>)
    ensures After(a + [Clear] + since) == After(b + [Clear] + since)
  {
    hide After, Do;
    var n := |since|;
    if n == 0 {
      assert a + [Clear] + since == a + [Clear] && b + [Clear] + since == b + [Clear];
      AfterSnoc(a, Clear);
      AfterSnoc(b, Clear);
      ClearDoes(After(a), After(b));
    } else {
      ResetForgets(a, b, since[..n - 1]);
      AfterSnoc(a + [Clear] + since[..n - 1], since[n - 1]);
      AfterSnoc(b + [Clear] + since[..n - 1], since[n - 1]);
      assert since == since[..n - 1] + [since[n - 1]];
      assert a + [Clear] + since == a + [Clear] + since[..n - 1] + [since[n - 1]];
      assert b + [Clear] + since == b + [Clear] + since[..n - 1] + [since[n - 1]];
    }
  }

  lemma AfterSnoc(ops: seq<Op>, op: Op)
    ensures After(ops + [op]) == Do(After(ops), op)
  {
    assert (ops + [op])[..|ops|] == ops;
  }

  lemma ClearDoes(d: Dict, e: Dict)
    ensures Do(d, Clear) == Do(e, Clear)
  {}

  /** Histories that decide every id alike give equal maps, whatever else they did. */
  lemma SameDecisions(a: seq<Op>, b: seq<Op>)
    requires forall id :: Decided(a, id) == Decided(b, id)
    ensures After(a).rows == After(b).rows
  {
    forall id: string ensures id in After(a).rows <==> id in After(b).rows {
      RowIsDecided(a, id);
      RowIsDecided(b, id);
    }
    forall id | id in After(a).rows ensures After(a).rows[id] == After(b).rows[id] {
      RowIsDecided(a, id);
      RowIsDecided(b, id);
    }
  }

  // ---- one frame ----

  /** A change without an arm reads as a remove of the default id. */
  predicate Concerns(c: Change, id: string) {
    match c
    case Upsert(row) => row.id == id
    case Remove(i) => i == id
    case Empty => id == ""
  }

  /** Change j is the last one about an id. */
  ghost predicate LastAbout(changes: seq<Change>, id: string, j: nat) {
    j < |changes| && Concerns(changes[j], id) && forall k | j < k < |changes| :: !Concerns(changes[k], id)
  }

  ghost predicate NoneAbout(changes: seq<Change>, id: string) { forall j | 0 <= j < |changes| :: !Concerns(changes[j], id) }

  /** The row of an id after an update: the last change about it decides, and without one the reset does. */
  ghost predicate RowUpdated(was: Dict, u: Update, now: Dict, id: string) {
    && (forall j: nat | LastAbout(u.changes, id, j) ::
          if u.changes[j].Upsert? then id in now.rows && now.rows[id] == u.changes[j].row else id !in now.rows)
    && (NoneAbout(u.changes, id) ==>
          && (id in now.rows <==> !u.reset && id in was.rows)
          && (id in now.rows ==> now.rows[id] == was.rows[id]))
  }

  /** An id that had a row and never lost it. */
  ghost predicate Stays(was: Dict, u: Update, id: string) {
    !u.reset && id in was.keys && forall j | 0 <= j < |u.changes| && Concerns(u.changes[j], id) :: u.changes[j].Upsert?
  }

  /** Before change j an id has no row. */
  ghost predicate Absent(was: Dict, u: Update, id: string, j: nat)
    requires j <= |u.changes|
  {
    || (exists k: nat :: LastAbout(u.changes[..j], id, k) && !u.changes[k].Upsert?)
    || ((u.reset || id !in was.keys) && NoneAbout(u.changes[..j], id))
  }

  /** Change j gives an id a row that it did not have before, and from then on it has one. */
  ghost predicate Enters(was: Dict, u: Update, id: string, j: nat) {
    && j < |u.changes| && Concerns(u.changes[j], id) && Absent(was, u, id, j)
    && forall k | j <= k < |u.changes| && Concerns(u.changes[k], id) :: u.changes[k].Upsert?
  }

  /** Ids that stay come first, in the order they had; after them those that enter, in the order of the changes. */
  ghost predicate InFront(was: Dict, u: Update, a: string, b: string) {
    || (Stays(was, u, a) && Stays(was, u, b) && exists i, j :: 0 <= i < j < |was.keys| && was.keys[i] == a && was.keys[j] == b)
    || (Stays(was, u, a) && exists j: nat :: Enters(was, u, b, j))
    || (exists i: nat, j: nat :: i < j && Enters(was, u, a, i) && Enters(was, u, b, j))
  }

  /** What a frame does to the dict. */
  ghost predicate Updated(was: Dict, f: Frame, now: Dict) {
    match f
    case Other => now == was
    case Event(u) =>
      && (forall id: string :: RowUpdated(was, u, now, id))
      && (forall i, j | 0 <= i < j < |now.keys| :: InFront(was, u, now.keys[i], now.keys[j]))
      && (forall id: string :: id in now.keys <==> id in now.rows)
  }

  lemma DecidedSnoc(ops: seq<Op>, op: Op, id: string)
    ensures Decided(ops + [op], id) == if !About(op, id) then Decided(ops, id) else if op.Set? then Some(op.row) else None
    ensures Birth(ops + [op], id) ==
      if !About(op, id) then Birth(ops, id) else if !op.Set? then -1 else if Birth(ops, id) >= 0 then Birth(ops, id) else |ops|
  {
    assert (ops + [op])[..|ops|] == ops;
  }

  /** One more change. */
  lemma UpdateSnoc(ops: seq<Op>, u: Update, c: Change, id: string)
    ensures var (was, now) := (ops + UpdateOps(u), ops + UpdateOps(u.(changes := u.changes + [c])));
      && |was| == |ops| + (if u.reset then 1 else 0) + |u.changes|
      && Decided(now, id) == (if !Concerns(c, id) then Decided(was, id) else if c.Upsert? then Some(c.row) else None)
      && Birth(now, id) ==
           if !Concerns(c, id) then Birth(was, id) else if !c.Upsert? then -1 else if Birth(was, id) >= 0 then Birth(was, id) else |was|
  {
    ChangeOpsSnoc(u.changes + [c], |u.changes|);
    assert (u.changes + [c])[..|u.changes|] == u.changes && (u.changes + [c])[..|u.changes| + 1] == u.changes + [c];
    var was := ops + UpdateOps(u);
    assert ops + UpdateOps(u.(changes := u.changes + [c])) == was + [ChangeOp(c)];
    DecidedSnoc(was, ChangeOp(c), id);
  }

  lemma UpdateNone(ops: seq<Op>, u: Update, id: string)
    requires u.changes == []
    ensures var now := ops + UpdateOps(u);
      && Decided(now, id) == (if u.reset then None else Decided(ops, id))
      && Birth(now, id) == if u.reset then -1 else Birth(ops, id)
  {
    DecidedSnoc(ops, Clear, id);
    assert ops + [] == ops && UpdateOps(u) == if u.reset then [Clear] else [];
  }

  lemma AboutSnoc(changes: seq<Change>, c: Change, id: string)
    ensures forall j: nat :: LastAbout(changes + [c], id, j) <==> if Concerns(c, id) then j == |changes| else LastAbout(changes, id, j)
    ensures forall j: nat | LastAbout(changes, id, j) :: j < |changes| && (changes + [c])[j] == changes[j]
  {
    hide Concerns;
    var all := changes + [c];
    assert all[|changes|] == c && forall k | 0 <= k < |changes| :: all[k] == changes[k];
    forall j: nat ensures LastAbout(all, id, j) <==> if Concerns(c, id) then j == |changes| else LastAbout(changes, id, j) {
      if j < |changes| && LastAbout(all, id, j) { assert !Concerns(all[|changes|], id); }
    }
  }

  lemma AboutBelow(changes: seq<Change>, id: string)
    ensures forall j: nat | LastAbout(changes, id, j) :: j < |changes|
  {}

  /** What an update makes of an id's row, in terms of the histories. */
  lemma {:induction false} UpdateDecides(ops: seq<Op>, u: Update, id: string)
    ensures forall j: nat | LastAbout(u.changes, id, j) ::
      Decided(ops + UpdateOps(u), id) == if u.changes[j].Upsert? then Some(u.changes[j].row) else None
    ensures NoneAbout(u.changes, id) ==>
      Decided(ops + UpdateOps(u), id) == (if u.reset then None else Decided(ops, id))
      && Birth(ops + UpdateOps(u), id) == if u.reset then -1 else Birth(ops, id)
    ensures NoneAbout(u.changes, id) || exists j: nat :: LastAbout(u.changes, id, j)
    decreases |u.changes|
  {
    hide Concerns, Decided, Birth, UpdateOps, LastAbout;
    if u.changes == [] {
      UpdateNone(ops, u, id);
      AboutBelow(u.changes, id);
    } else {
      var n := |u.changes| - 1;
      var v, c := u.(changes := u.changes[..n]), u.changes[n];
      assert u.changes == v.changes + [c] && u == v.(changes := v.changes + [c]);
      UpdateDecides(ops, v, id);
      UpdateSnoc(ops, v, c, id);
      AboutSnoc(v.changes, c, id);
      assert NoneAbout(u.changes, id) ==> NoneAbout(v.changes, id) && !Concerns(c, id);
    }
  }

  /** A row after an update is one that stayed, or that one of the changes gave; and when it was born. */
  lemma {:induction false} UpdateBirth(ops: seq<Op>, was: Dict, u: Update, id: string)
    requires id in was.keys <==> Decided(ops, id).Some?
    requires Decided(ops + UpdateOps(u), id).Some?
    ensures var k := Birth(ops + UpdateOps(u), id);
      || (Stays(was, u, id) && 0 <= k == Birth(ops, id))
      || (exists j: nat :: Enters(was, u, id, j) && k == EnteredAt(ops, u, j))
    decreases |u.changes|
  {
    hide Concerns, Decided, Birth, UpdateOps, Stays, Enters, Absent, EnteredAt;
    if u.changes == [] {
      UpdateNone(ops, u, id);
      StaysNone(ops, was, u, id);
    } else {
      var n := |u.changes| - 1;
      var v, c := u.(changes := u.changes[..n]), u.changes[n];
      assert u.changes == v.changes + [c] && u == v.(changes := v.changes + [c]);
      UpdateSnoc(ops, v, c, id);
      if Decided(ops + UpdateOps(v), id).Some? {
        UpdateBirth(ops, was, v, id);
        BirthLive(ops + UpdateOps(v), id);
        StaysSnoc(was, v, c, id);
        EntersSnoc(ops, was, v, c, id);
      } else {
        BirthLive(ops + UpdateOps(v), id);
        UpdateDecides(ops, v, id);
        EntersLast(ops, was, v, c, id);
      }
    }
  }

  /** The place of change j in the history. */
  function EnteredAt(ops: seq<Op>, u: Update, j: nat): nat { |ops| + (if u.reset then 1 else 0) + j }

  lemma BirthLive(ops: seq<Op>, id: string)
    ensures Birth(ops, id) >= 0 <==> Decided(ops, id).Some?
  {}

  lemma StaysNone(ops: seq<Op>, was: Dict, u: Update, id: string)
    requires id in was.keys <==> Decided(ops, id).Some?
    requires u.changes == [] && !u.reset && Decided(ops, id).Some?
    ensures Stays(was, u, id) && Birth(ops, id) >= 0
  {}

  lemma StaysSnoc(was: Dict, v: Update, c: Change, id: string)
    requires Concerns(c, id) ==> c.Upsert?
    ensures Stays(was, v, id) ==> Stays(was, v.(changes := v.changes + [c]), id)
  {}

  lemma EntersSnoc(ops: seq<Op>, was: Dict, v: Update, c: Change, id: string)
    requires Concerns(c, id) ==> c.Upsert?
    ensures var u := v.(changes := v.changes + [c]);
      forall j: nat | Enters(was, v, id, j) :: Enters(was, u, id, j) && EnteredAt(ops, u, j) == EnteredAt(ops, v, j)
  {
    var u := v.(changes := v.changes + [c]);
    forall j: nat | Enters(was, v, id, j) ensures Enters(was, u, id, j) {
      assert u.changes[..j] == v.changes[..j];
      assert forall k | 0 <= k < |v.changes| :: u.changes[k] == v.changes[k];
      AbsentSame(was, v, u, id, j);
    }
  }

  lemma AbsentSame(was: Dict, v: Update, u: Update, id: string, j: nat)
    requires j <= |v.changes| && j <= |u.changes| && u.changes[..j] == v.changes[..j] && u.reset == v.reset && Absent(was, v, id, j)
    ensures Absent(was, u, id, j)
  {
    assert forall k | 0 <= k < j :: v.changes[..j][k] == v.changes[k] && u.changes[..j][k] == u.changes[k];
  }

  lemma EntersLast(ops: seq<Op>, was: Dict, v: Update, c: Change, id: string)
    requires Concerns(c, id) && c.Upsert? && Decided(ops + UpdateOps(v), id) == None
    requires id in was.keys <==> Decided(ops, id).Some?
    requires forall j: nat | LastAbout(v.changes, id, j) ::
      Decided(ops + UpdateOps(v), id) == if v.changes[j].Upsert? then Some(v.changes[j].row) else None
    requires NoneAbout(v.changes, id) ==> Decided(ops + UpdateOps(v), id) == if v.reset then None else Decided(ops, id)
    requires NoneAbout(v.changes, id) || exists j: nat :: LastAbout(v.changes, id, j)
    ensures var u := v.(changes := v.changes + [c]);
      Enters(was, u, id, |v.changes|) && EnteredAt(ops, u, |v.changes|) == |ops| + (if v.reset then 1 else 0) + |v.changes|
  {
    hide Concerns, Decided, UpdateOps;
    var u := v.(changes := v.changes + [c]);
    var n := |v.changes|;
    assert u.changes[..n] == v.changes;
    assert forall k | 0 <= k < n :: u.changes[k] == v.changes[k];
    assert Absent(was, u, id, n);
  }

  lemma StaysOld(was: Dict, u: Update, id: string)
    ensures Stays(was, u, id) ==> id in was.keys
  {}

  lemma RowUpdates(ops: seq<Op>, u: Update, id: string)
    ensures var now := After(ops + UpdateOps(u)); RowUpdated(After(ops), u, now, id) && (id in now.keys <==> id in now.rows)
  {
    hide Decided, Birth, UpdateOps, After, Concerns, LastAbout, NoneAbout;
    RowIsDecided(ops, id);
    RowIsDecided(ops + UpdateOps(u), id);
    UpdateDecides(ops, u, id);
  }

  /** One frame, in terms of the dict before and after it, whatever the history was. */
  lemma FrameUpdates(ops: seq<Op>, f: Frame)
    ensures Updated(After(ops), f, After(ops + FrameOps(f)))
  {
    hide After, UpdateOps, RowUpdated, InFront;
    if f.Other? {
      assert ops + [] == ops;
    } else {
      var u := f.update;
      var was, now := After(ops), After(ops + UpdateOps(u));
      forall id: string ensures RowUpdated(was, u, now, id) && (id in now.keys <==> id in now.rows) {
        RowUpdates(ops, u, id);
      }
      forall i, j | 0 <= i < j < |now.keys| ensures InFront(was, u, now.keys[i], now.keys[j]) {
        FrameOrders(ops, u, i, j);
      }
    }
  }

  lemma FrameOrders(ops: seq<Op>, u: Update, i: nat, j: nat)
    requires i < j < |After(ops + UpdateOps(u)).keys|
    ensures var now := After(ops + UpdateOps(u)); InFront(After(ops), u, now.keys[i], now.keys[j])
  {
    hide Decided, Birth, UpdateOps, After, Stays, Enters, Concerns, LastAbout;
    var all := ops + UpdateOps(u);
    var was, a, b := After(ops), After(all).keys[i], After(all).keys[j];
    KeysByBirth(all);
    assert Elder(all, a, b);
    RowIsDecided(all, a);
    RowIsDecided(all, b);
    RowIsDecided(ops, a);
    RowIsDecided(ops, b);
    UpdateBirth(ops, was, u, a);
    UpdateBirth(ops, was, u, b);
    StaysOld(was, u, a);
    StaysOld(was, u, b);
    if Stays(was, u, a) && Stays(was, u, b) && Birth(all, b) == Birth(ops, b) && Birth(all, a) == Birth(ops, a) {
      OldOrder(ops, a, b);
    }
    BirthBelow(ops, a);
    BirthBelow(ops, b);
  }

  lemma BirthBelow(ops: seq<Op>, id: string)
    ensures Birth(ops, id) < |ops|
  {}

  lemma OldOrder(ops: seq<Op>, a: string, b: string)
    requires a in After(ops).keys && b in After(ops).keys && Birth(ops, a) < Birth(ops, b)
    ensures exists x, y :: 0 <= x < y < |After(ops).keys| && After(ops).keys[x] == a && After(ops).keys[y] == b
  {
    hide After, Birth, ByBirth;
    var keys := After(ops).keys;
    KeysByBirth(ops);
    var x :| 0 <= x < |keys| && keys[x] == a;
    var y :| 0 <= y < |keys| && keys[y] == b;
    if y < x { OrderAt(ops, keys, y, x); }
  }

  lemma OrderAt(ops: seq<Op>, keys: seq<string>, x: nat, y: nat)
    requires ByBirth(ops, keys) && x < y < |keys|
    ensures Birth(ops, keys[x]) < Birth(ops, keys[y])
  {
    assert Elder(ops, keys[x], keys[y]);
  }

  // ---- the loop ----

  class View {
    var dict: Dict
    ghost var ops: seq<Op>

    ghost predicate Valid()
      reads this
    {
      dict == After(ops)
    }

    constructor ()
      ensures Valid() && ops == []
    {
      dict, ops := Dict([], map[]), [];
    }

    method Apply(op: Op)
      requires Valid()
      modifies this
      ensures Valid() && ops == old(ops) + [op]
    {
      match op {
        case Clear => dict := Dict([], map[]);
        case Set(row) => dict := Put(dict, row);
        case Del(id) => dict := Pop(dict, id);
      }
      assert (ops + [op])[..|ops|] == ops;
      ops := ops + [op];
    }

    /** One frame; only an event with an update does anything. */
    method Take(f: Frame)
      requires Valid()
      modifies this
      ensures Valid() && ops == old(ops) + FrameOps(f) && Updated(old(dict), f, dict)
    {
      FrameUpdates(ops, f);
      hide Updated, After;
      assert ops + [] == ops;
      if f.Other? { return; }
      if f.update.reset { Apply(Clear); }
      ApplyChanges(f.update.changes);
    }

    method ApplyChanges(changes: seq<Change>)
      requires Valid()
      modifies this
      ensures Valid() && ops == old(ops) + ChangeOps(changes)
    {
      hide After;
      for i := 0 to |changes|
        invariant Valid() && ops == old(ops) + ChangeOps(changes[..i])
      {
        var c := changes[i];
        ChangeOpsSnoc(changes, i);
        if c.Upsert? {
          Apply(Set(c.row));
        } else {
          Apply(Del(if c.Remove? then c.id else ""));
        }
      }
      assert changes[..|changes|] == changes;
    }

    /** The rows as they are printed after an update. */
    method Show() returns (list: seq<Row>)
      requires Valid()
      ensures Shows(ops, list)
    {
      WholeAfter(ops);
      ShownIs(ops);
      list := Shown(dict);
    }
  }
}
