/** Which notification is posted: generation tokens against the order of shows and closes. */
module BrokerNotes {
  import opened Options
  import opened BrokerModel

  /** The show handled last for (ns, id), unless a close was handled after it. Namespace and id are
      kept apart here, where the broker looks up the one string `ns:id`. */
  ghost function Latest(hist: seq<Act>, ns: string, id: string): Option<nat> {
    if hist == [] then None
    else
      match hist[|hist| - 1]
      case Shown(n, i, t) => if n == ns && i == id then Some(t) else Latest(hist[..|hist| - 1], ns, id)
      case Closed(n, i) => if n == ns && i == id then None else Latest(hist[..|hist| - 1], ns, id)
      case _ => Latest(hist[..|hist| - 1], ns, id)
  }

  /** The act changes what is current for (ns, id). */
  predicate Concerns(a: Act, ns: string, id: string) {
    (a.Shown? || a.Closed?) && a.ns == ns && a.id == id
  }

  /** Show t of (ns, id) was handled at position j, and nothing concerning (ns, id) after it. */
  ghost predicate CurrentSince(hist: seq<Act>, j: nat, ns: string, id: string, t: nat) {
    j < |hist| && hist[j] == Shown(ns, id, t) && forall k | j < k < |hist| :: !Concerns(hist[k], ns, id)
  }

  lemma CurrentSnoc(front: seq<Act>, a: Act, j: nat, ns: string, id: string, t: nat)
    ensures CurrentSince(front + [a], j, ns, id, t) <==>
            if j < |front| then CurrentSince(front, j, ns, id, t) && !Concerns(a, ns, id)
            else j == |front| && a == Shown(ns, id, t)
  {
    var hist := front + [a];
    assert hist[|front|] == a && forall k | 0 <= k < |front| :: hist[k] == front[k];
  }

  lemma {:induction false} LatestMeans(hist: seq<Act>, ns: string, id: string, t: nat)
    ensures Latest(hist, ns, id) == Some(t) <==> exists j :: CurrentSince(hist, j, ns, id, t)
  {
    if hist != [] {
      var front, last := hist[..|hist| - 1], hist[|hist| - 1];
      assert hist == front + [last];
      LatestMeans(front, ns, id, t);
      forall j: nat ensures CurrentSince(hist, j, ns, id, t) <==>
                            if j < |front| then CurrentSince(front, j, ns, id, t) && !Concerns(last, ns, id)
                            else j == |front| && last == Shown(ns, id, t)
      {
        CurrentSnoc(front, last, j, ns, id, t);
      }
      assert last == Shown(ns, id, t) ==> CurrentSince(hist, |front|, ns, id, t);
    }
  }

  lemma LatestSnoc(hist: seq<Act>, a: Act, ns: string, id: string)
    ensures Latest(hist + [a], ns, id) ==
            if !Concerns(a, ns, id) then Latest(hist, ns, id) else if a.Shown? then Some(a.token) else None
  {}

  function Lookup(g: map<string, nat>, key: string): Option<nat> { if key in g then Some(g[key]) else None }

  /** A namespace is 32 characters, none of them a colon, so `ns:id` names one pair only. */
  lemma IdentInjective(ns: string, id: string, ns': string, id': string)
    requires IsNamespace(ns) && IsNamespace(ns')
    ensures Ident(ns, id) == Ident(ns', id') <==> ns == ns' && id == id'
  {
    assert Ident(ns, id)[..32] == ns && Ident(ns', id')[..32] == ns';
    assert Ident(ns, id)[33..] == id && Ident(ns', id')[33..] == id';
  }

  ghost predicate Names(n: Notes, t: nat, ns: string, id: string) {
    t < |n.shows| && n.shows[t].ns == ns && n.shows[t].id == id
  }

  ghost predicate ActOk(n: Notes, i: nat)
    requires i < |n.hist|
  {
    match n.hist[i]
    case Shown(ns, id, t) => Names(n, t, ns, id)
    case Closed(_, _) => true
    case Posted(ns, id, t) =>
      Names(n, t, ns, id) && t !in n.asked && t !in n.ready && Latest(n.hist[..i], ns, id) == Some(t)
    case Reposted(ns, id, t) =>
      Names(n, t, ns, id) && t !in n.retry && exists j :: 0 <= j < i && n.hist[j] == Posted(ns, id, t)
  }

  ghost predicate GenerationsOk(n: Notes) {
    forall ns, id {:trigger Latest(n.hist, ns, id)} | IsNamespace(ns) :: Lookup(n.generations, Ident(ns, id)) == Latest(n.hist, ns, id)
  }

  ghost predicate PostsRise(n: Notes) {
    && (forall i, j | 0 <= i < j < |n.hist| && n.hist[i].Posted? && n.hist[j].Posted?
          && n.hist[i].ns == n.hist[j].ns && n.hist[i].id == n.hist[j].id :: n.hist[i].token < n.hist[j].token)
    && (forall i | 0 <= i < |n.hist| && n.hist[i].Posted? ::
          var now := Latest(n.hist, n.hist[i].ns, n.hist[i].id); now.Some? ==> n.hist[i].token <= now.value)
  }

  ghost predicate TokensOk(n: Notes) {
    && (forall t | 0 <= t < |n.shows| :: IsNamespace(n.shows[t].ns))
    && (forall t | t in n.asked :: t < |n.shows| && t !in n.ready)
    && (forall t | t in n.ready :: t < |n.shows|)
    && (forall t | t in n.retry :: t < |n.shows| && exists j :: 0 <= j < |n.hist| && n.hist[j] == Posted(n.shows[t].ns, n.shows[t].id, t))
  }

  /** Each show is handled once, so a token enters the history at one place. */
  ghost predicate ShownOnce(hist: seq<Act>) {
    forall i, j | 0 <= i < j < |hist| && hist[i].Shown? && hist[j].Shown? :: hist[i].token < hist[j].token
  }

  ghost predicate NotesOk(n: Notes) {
    TokensOk(n) && GenerationsOk(n) && PostsRise(n) && ShownOnce(n.hist) && forall i | 0 <= i < |n.hist| :: ActOk(n, i)
  }

  // ---- each operation keeps it ----

  /** The notes with one more act and whatever else changed. */
  lemma ActsStay(n: Notes, n': Notes, a: Act)
    requires NotesOk(n) && n'.hist == n.hist + [a] && n.shows <= n'.shows
    requires forall t | 0 <= t < |n.shows| && (t in n'.asked || t in n'.ready) :: t in n.asked || t in n.ready
    requires forall t | t in n'.retry :: t in n.retry || (a.Posted? && a.token == t && t !in n.retry)
    requires a.Posted? ==> a.token in n.ready && a.token < |n.shows|
    ensures forall i | 0 <= i < |n.hist| :: ActOk(n', i)
  {
    forall i | 0 <= i < |n.hist| ensures ActOk(n', i) {
      assert ActOk(n, i);
      assert n'.hist[i] == n.hist[i] && n'.hist[..i] == n.hist[..i];
      if n.hist[i].Reposted? {
        var j :| 0 <= j < i && n.hist[j] == Posted(n.hist[i].ns, n.hist[i].id, n.hist[i].token);
        assert n'.hist[j] == n.hist[j];
        assert ActOk(n, j);
      }
    }
  }

  lemma GenerationsMove(n: Notes, n': Notes, a: Act)
    requires GenerationsOk(n) && n'.hist == n.hist + [a] && ((a.Shown? || a.Closed?) ==> IsNamespace(a.ns))
    requires n'.generations ==
             if a.Shown? then n.generations[Ident(a.ns, a.id) := a.token]
             else if a.Closed? then n.generations - {Ident(a.ns, a.id)} else n.generations
    ensures GenerationsOk(n')
  {
    forall ns, id | IsNamespace(ns) ensures Lookup(n'.generations, Ident(ns, id)) == Latest(n'.hist, ns, id) {
      LatestSnoc(n.hist, a, ns, id);
      if a.Shown? || a.Closed? { IdentInjective(ns, id, a.ns, a.id); }
    }
  }

  lemma PostsStay(n: Notes, n': Notes, a: Act)
    requires PostsRise(n) && n'.hist == n.hist + [a]
    requires a.Shown? ==> forall i | 0 <= i < |n.hist| && n.hist[i].Posted? :: n.hist[i].token <= a.token
    requires a.Posted? ==> Latest(n.hist, a.ns, a.id) == Some(a.token)
    requires a.Posted? ==> forall i | 0 <= i < |n.hist| && n.hist[i].Posted? :: n.hist[i].token != a.token
    ensures PostsRise(n')
  {}

  lemma RetryStays(n: Notes, n': Notes)
    requires TokensOk(n) && n.hist <= n'.hist && n.shows <= n'.shows && n'.retry <= n.retry
    ensures forall t | t in n'.retry ::
              t < |n'.shows| && exists j :: 0 <= j < |n'.hist| && n'.hist[j] == Posted(n'.shows[t].ns, n'.shows[t].id, t)
  {}

  lemma ShowKeeps(n: Notes, ns: string, id: string, p: nat)
    requires NotesOk(n) && IsNamespace(ns)
    ensures NotesOk(ShowNotes(n, ns, id, p))
  {
    var a := Shown(ns, id, |n.shows|);
    var n' := ShowNotes(n, ns, id, p);
    ActsStay(n, n', a);
    GenerationsMove(n, n', a);
    forall i | 0 <= i < |n.hist| && (n.hist[i].Posted? || n.hist[i].Shown?) ensures n.hist[i].token < a.token { assert ActOk(n, i); }
    PostsStay(n, n', a);
    RetryStays(n, n');
  }

  lemma CloseKeeps(n: Notes, ns: string, id: string)
    requires NotesOk(n) && IsNamespace(ns)
    ensures NotesOk(CloseNotes(n, ns, id))
  {
    var a := Closed(ns, id);
    var n' := CloseNotes(n, ns, id);
    ActsStay(n, n', a);
    GenerationsMove(n, n', a);
    PostsStay(n, n', a);
    RetryStays(n, n');
  }

  lemma SettledKeeps(n: Notes, t: nat, allowed: bool, copy: bool)
    requires NotesOk(n) && t in n.asked
    ensures NotesOk(Settled(n, t, allowed, copy))
  {
    var n' := Settled(n, t, allowed, copy);
    forall i | 0 <= i < |n'.hist| ensures ActOk(n', i) { assert ActOk(n, i); }
  }

  lemma CheckKeeps(n: Notes, t: nat, alive: bool)
    requires NotesOk(n) && t in n.ready
    ensures NotesOk(Check(n, t, alive))
  {
    var n' := Check(n, t, alive);
    var ns, id := n.shows[t].ns, n.shows[t].id;
    if n'.hist == n.hist {
      forall i | 0 <= i < |n'.hist| ensures ActOk(n', i) { assert ActOk(n, i); }
    } else {
      var a := Posted(ns, id, t);
      forall i | 0 <= i < |n.hist| && n.hist[i].Posted? ensures n.hist[i].token != t { assert ActOk(n, i); }
      assert t !in n.retry;
      assert Latest(n.hist, ns, id) == Some(t);
      ActsStay(n, n', a);
      GenerationsMove(n, n', a);
      PostsStay(n, n', a);
      hide Latest, ActOk;
      assert n'.hist[..|n.hist|] == n.hist;
      RetryStays(n, n'.(retry := n.retry));
      assert n'.hist[|n.hist|] == a;
    }
  }

  lemma RetryKeeps(n: Notes, t: nat)
    requires NotesOk(n) && t in n.retry
    ensures NotesOk(Retry(n, t))
  {
    var ns, id := n.shows[t].ns, n.shows[t].id;
    var a := Reposted(ns, id, t);
    var n' := Retry(n, t);
    ActsStay(n, n', a);
    GenerationsMove(n, n', a);
    PostsStay(n, n', a);
    RetryStays(n, n');
    var j :| 0 <= j < |n.hist| && n.hist[j] == Posted(ns, id, t);
    assert n'.hist[j] == n.hist[j];
  }

  // ---- supersession ----

  /** A show is posted only while it is the latest one handled for its identifier, with no close
      handled since; the posts of one identifier rise in show order, so no show is posted twice. */
  lemma PostsAreCurrent(n: Notes, i: nat)
    requires NotesOk(n) && i < |n.hist| && n.hist[i].Posted?
    ensures var (ns, id, t) := (n.hist[i].ns, n.hist[i].id, n.hist[i].token);
      && (exists j :: CurrentSince(n.hist[..i], j, ns, id, t))
      && (forall j | 0 <= j < i && n.hist[j].Posted? && n.hist[j].ns == ns && n.hist[j].id == id :: n.hist[j].token < t)
      && (forall j | 0 <= j < |n.hist| && j != i && n.hist[j].Posted? :: n.hist[j].token != t)
  {
    var (ns, id, t) := (n.hist[i].ns, n.hist[i].id, n.hist[i].token);
    assert ActOk(n, i);
    LatestMeans(n.hist[..i], ns, id, t);
    forall j | 0 <= j < |n.hist| && j != i && n.hist[j].Posted? ensures n.hist[j].token != t { assert ActOk(n, j); }
  }

  lemma {:induction false} LatestAfter(hist: seq<Act>, j: nat, i: nat, ns: string, id: string, t: nat)
    requires j <= i <= |hist| && ShownOnce(hist) && Latest(hist[..j], ns, id) == Some(t)
    ensures Latest(hist[..i], ns, id) == Some(t) <==> forall k | j <= k < i :: !Concerns(hist[k], ns, id)
    decreases i - j
  {
    if j < i {
      assert hist[..i] == hist[..i - 1] + [hist[i - 1]];
      LatestSnoc(hist[..i - 1], hist[i - 1], ns, id);
      LatestAfter(hist, j, i - 1, ns, id, t);
      LatestMeans(hist[..j], ns, id, t);
      var x: nat :| CurrentSince(hist[..j], x, ns, id, t);
      assert hist[x] == Shown(ns, id, t);
    }
  }

  /** The bare retry of a rejected attachment shows the latest notification exactly
      if no show and no close of its identifier was handled since the first post. */
  lemma RepostCurrent(n: Notes, i: nat, j: nat)
    requires NotesOk(n) && j < i < |n.hist| && n.hist[i].Reposted?
    requires n.hist[j] == Posted(n.hist[i].ns, n.hist[i].id, n.hist[i].token)
    ensures var (ns, id, t) := (n.hist[i].ns, n.hist[i].id, n.hist[i].token);
      Latest(n.hist[..i], ns, id) == Some(t) <==> forall k | j < k < i :: !Concerns(n.hist[k], ns, id)
  {
    var (ns, id, t) := (n.hist[i].ns, n.hist[i].id, n.hist[i].token);
    assert ActOk(n, j);
    LatestAfter(n.hist, j, i, ns, id, t);
  }

  /** When the bare retry comes, it is current exactly if the generation is still its own, which is what the
      first post asks and the retry does not. */
  lemma RetryCurrent(n: Notes, t: nat)
    requires NotesOk(n) && t in n.retry && t < |n.shows|
    ensures var (ns, id) := (n.shows[t].ns, n.shows[t].id);
      Latest(Retry(n, t).hist, ns, id) == Some(t) <==> Lookup(n.generations, Ident(ns, id)) == Some(t)
  {
    LatestSnoc(n.hist, Reposted(n.shows[t].ns, n.shows[t].id, t), n.shows[t].ns, n.shows[t].id);
  }

  /** So a rejected attachment can bring back a superseded notification: whatever was posted with one
      and not yet answered, a later show of the same identifier is posted first and then overwritten. */
  lemma StaleRepost(n: Notes, t: nat, p: nat)
    requires NotesOk(n) && t in n.retry
    ensures var (ns, id, u) := (n.shows[t].ns, n.shows[t].id, |n.shows|);
      var n1 := Settled(ShowNotes(n, ns, id, p), u, true, false);
      && u in n1.ready && t in Check(n1, u, true).retry
      && var n2 := Retry(Check(n1, u, true), t);
         && n2.hist == n.hist + [Shown(ns, id, u), Posted(ns, id, u), Reposted(ns, id, t)]
         && Latest(n2.hist, ns, id) == Some(u) && u != t
  {
    var (ns, id, u) := (n.shows[t].ns, n.shows[t].id, |n.shows|);
    var n1 := Settled(ShowNotes(n, ns, id, p), u, true, false);
    var n2 := Retry(Check(n1, u, true), t);
    LatestSnoc(n.hist, Shown(ns, id, u), ns, id);
    LatestSnoc(n.hist + [Shown(ns, id, u)], Posted(ns, id, u), ns, id);
    LatestSnoc(n.hist + [Shown(ns, id, u)] + [Posted(ns, id, u)], Reposted(ns, id, t), ns, id);
    assert n2.hist == n.hist + [Shown(ns, id, u)] + [Posted(ns, id, u)] + [Reposted(ns, id, t)];
  }

  /** From the start: shown with an avatar, posted, replaced, and then the old one again. */
  lemma StaleExample(ns: string, id: string, p: nat)
    ensures var first := Check(Settled(ShowNotes(START.core.notes, ns, id, p), 0, true, true), 0, true);
      var second := Retry(Check(Settled(ShowNotes(first, ns, id, p), 1, true, false), 1, true), 0);
      && second.hist == [Shown(ns, id, 0), Posted(ns, id, 0), Shown(ns, id, 1), Posted(ns, id, 1), Reposted(ns, id, 0)]
      && Latest(second.hist, ns, id) == Some(1)
  {
    var first := Check(Settled(ShowNotes(START.core.notes, ns, id, p), 0, true, true), 0, true);
    var second := Retry(Check(Settled(ShowNotes(first, ns, id, p), 1, true, false), 1, true), 0);
    assert first.hist == [Shown(ns, id, 0), Posted(ns, id, 0)];
    LatestSnoc([Shown(ns, id, 0), Posted(ns, id, 0)], Shown(ns, id, 1), ns, id);
    LatestSnoc([Shown(ns, id, 0), Posted(ns, id, 0), Shown(ns, id, 1)], Posted(ns, id, 1), ns, id);
    LatestSnoc([Shown(ns, id, 0), Posted(ns, id, 0), Shown(ns, id, 1), Posted(ns, id, 1)], Reposted(ns, id, 0), ns, id);
  }
}
