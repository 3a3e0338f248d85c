/** Python's `sorted`: equal keys keep their input order. */
module StableSort {
  ghost predicate TotalPreorder<T(!new)>(le: (T, T) -> bool) {
    && (forall x, y :: le(x, y) || le(y, x))
    && (forall x, y, z :: le(x, y) && le(y, z) ==> le(x, z))
  }

  ghost predicate Asymmetric<T(!new)>(before: (T, T) -> bool) {
    forall x, y :: !(before(x, y) && before(y, x))
  }

  ghost predicate InOrder<T>(before: (T, T) -> bool, s: seq<T>) {
    forall i, j | 0 <= i < j < |s| :: before(s[i], s[j])
  }

  /** Sorted by `le`, and `before` decides between equals. */
  ghost predicate Ranked<T>(le: (T, T) -> bool, before: (T, T) -> bool, s: seq<T>) {
    forall i, j | 0 <= i < j < |s| :: le(s[i], s[j]) && (le(s[j], s[i]) ==> before(s[i], s[j]))
  }

  /** x comes after every element that is not greater. */
  function Insert<T>(le: (T, T) -> bool, s: seq<T>, x: T): (r: seq<T>)
    ensures |r| == |s| + 1
  {
    var n := |s|;
    if n == 0 || le(s[n - 1], x) then s + [x] else Insert(le, s[..n - 1], x) + [s[n - 1]]
  }

  function Sort<T>(le: (T, T) -> bool, s: seq<T>): (r: seq<T>)
    ensures |r| == |s|
  {
    var n := |s|;
    if n == 0 then [] else Insert(le, Sort(le, s[..n - 1]), s[n - 1])
  }

  lemma {:induction false} InsertKeeps<T>(le: (T, T) -> bool, s: seq<T>, x: T)
    ensures multiset(Insert(le, s, x)) == multiset(s) + multiset{x}
  {
    var n := |s|;
    if n > 0 {
      InsertKeeps(le, s[..n - 1], x);
      assert s == s[..n - 1] + [s[n - 1]];
    }
  }

  lemma {:induction false} SortKeeps<T>(le: (T, T) -> bool, s: seq<T>)
    ensures multiset(Sort(le, s)) == multiset(s)
  {
    var n := |s|;
    if n > 0 {
      SortStep(le, s);
      hide Sort, Insert;
      SortKeeps(le, s[..n - 1]);
      InsertKeeps(le, Sort(le, s[..n - 1]), s[n - 1]);
      LastApart(s);
    }
  }

  lemma SortStep<T>(le: (T, T) -> bool, s: seq<T>)
    requires s != []
    ensures Sort(le, s) == Insert(le, Sort(le, s[..|s| - 1]), s[|s| - 1]) && Sort(le, []) == []
  {}

  lemma LastApart<T>(s: seq<T>)
    requires s != []
    ensures multiset(s) == multiset(s[..|s| - 1]) + multiset{s[|s| - 1]}
  {
    assert s == s[..|s| - 1] + [s[|s| - 1]];
  }

  lemma InSame<T>(a: seq<T>, b: seq<T>, x: T)
    requires multiset(a) == multiset(b)
    ensures x in a <==> x in b
  {
    assert x in a <==> x in multiset(a);
    assert x in b <==> x in multiset(b);
  }

  lemma SameLength<T>(a: seq<T>, b: seq<T>)
    requires multiset(a) == multiset(b)
    ensures |a| == |b|
  {
    assert |a| == |multiset(a)| && |b| == |multiset(b)|;
  }

  lemma InsertHas<T>(le: (T, T) -> bool, s: seq<T>, x: T, y: T)
    requires y in Insert(le, s, x)
    ensures y == x || y in s
  {}

  lemma {:induction false} InsertRanks<T(!new)>(le: (T, T) -> bool, before: (T, T) -> bool, s: seq<T>, x: T)
    requires TotalPreorder(le) && Ranked(le, before, s) && forall y | y in s :: before(y, x)
    ensures Ranked(le, before, Insert(le, s, x))
  {
    var n := |s|;
    var r := Insert(le, s, x);
    if n == 0 || le(s[n - 1], x) {
      forall i, j | 0 <= i < j < |r| ensures le(r[i], r[j]) && (le(r[j], r[i]) ==> before(r[i], r[j])) {
        assert i == n - 1 || le(s[i], s[n - 1]);
      }
    } else {
      InsertRanks(le, before, s[..n - 1], x);
      var t := Insert(le, s[..n - 1], x);
      forall i, j | 0 <= i < j < |r| ensures le(r[i], r[j]) && (le(r[j], r[i]) ==> before(r[i], r[j])) {
        if j == n {
          InsertHas(le, s[..n - 1], x, t[i]);
        }
      }
    }
  }

  lemma {:induction false} SortRanks<T(!new)>(le: (T, T) -> bool, before: (T, T) -> bool, s: seq<T>)
    requires TotalPreorder(le) && InOrder(before, s)
    ensures Ranked(le, before, Sort(le, s))
  {
    var n := |s|;
    if n > 0 {
      var t := Sort(le, s[..n - 1]);
      SortRanks(le, before, s[..n - 1]);
      SortKeeps(le, s[..n - 1]);
      forall y | y in t ensures before(y, s[n - 1]) { InSame(t, s[..n - 1], y); }
      InsertRanks(le, before, t, s[n - 1]);
    }
  }

  lemma HeadRank<T>(le: (T, T) -> bool, before: (T, T) -> bool, s: seq<T>, x: T)
    requires Ranked(le, before, s) && x in s
    ensures x == s[0] || (le(s[0], x) && (le(x, s[0]) ==> before(s[0], x)))
  {}

  /** There is only one such order. */
  lemma {:induction false} RankedUnique<T(!new)>(le: (T, T) -> bool, before: (T, T) -> bool, a: seq<T>, b: seq<T>)
    requires Asymmetric(before) && Ranked(le, before, a) && Ranked(le, before, b) && multiset(a) == multiset(b)
    ensures a == b
  {
    SameLength(a, b);
    if a != [] {
      InSame(a, b, a[0]);
      InSame(a, b, b[0]);
      HeadRank(le, before, a, b[0]);
      HeadRank(le, before, b, a[0]);
      assert a[0] == b[0];
      TailsSame(a, b);
      RankedUnique(le, before, a[1..], b[1..]);
    }
  }

  lemma TailsSame<T>(a: seq<T>, b: seq<T>)
    requires a != [] && b != [] && a[0] == b[0] && multiset(a) == multiset(b)
    ensures multiset(a[1..]) == multiset(b[1..])
    ensures a[1..] == b[1..] ==> a == b
  {
    assert a == [a[0]] + a[1..] && b == [b[0]] + b[1..];
    assert multiset(a[1..]) == multiset(a) - multiset{a[0]};
    assert multiset(b[1..]) == multiset(b) - multiset{b[0]};
  }
}
