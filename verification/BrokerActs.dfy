/** What each message does, told from its fields: the acts it causes, and what follows for later posts. */
module BrokerActs {
  import opened Lines
  import opened Options
  import opened BrokerModel
  import opened BrokerInvariants
  import opened BrokerNotes
  import opened BrokerRuns
  import opened BrokerHistory
  import opened BrokerTheorems
  import opened BrokerWire

  // ---- one message ----

  /** A message of its kind that names the namespace its peer has. */
  predicate Own(s: Core, p: nat, m: Message, kind: string)
    requires p < |s.conns.all|
  {
    m.kind == kind && s.conns.all[p].namespace.Some? && m.namespace == s.conns.all[p].namespace
  }

  predicate Shows(s: Core, p: nat, m: Message)
    requires p < |s.conns.all|
  {
    Own(s, p, m, "show") && m.notice.Some?
  }

  predicate Closes(s: Core, p: nat, m: Message)
    requires p < |s.conns.all|
  {
    Own(s, p, m, "close") && m.id.Some?
  }

  /** No other key changes. */
  ghost predicate OnlyAt(key: string, g: map<string, nat>, g': map<string, nat>) {
    forall k | k != key :: Lookup(g', k) == Lookup(g, k)
  }

  /** A close of the peer's own namespace is recorded, and nothing is current for its identifier afterwards. A show is
      recorded, current from then on, and waits for the settings. No other message touches the notes. */
  lemma HandleActs(w: World, s: Core, p: nat, m: Message, env: Env)
    requires p < |s.conns.all|
    ensures var (n, r) := (s.notes, Handle(w, s, p, m, env));
      if Closes(s, p, m) then
        var (ns, id) := (m.namespace.value, m.id.value);
        var key := ns + ":" + id;
        && r == s.(notes := r.notes) && r.notes.hist == n.hist + [Closed(ns, id)]
        && Lookup(r.notes.generations, key) == None && OnlyAt(key, n.generations, r.notes.generations)
        && r.notes.shows == n.shows && r.notes.asked == n.asked && r.notes.ready == n.ready && r.notes.retry == n.retry
      else if Shows(s, p, m) then
        var (ns, id, t) := (m.namespace.value, m.notice.value.id, |n.shows|);
        var key := ns + ":" + id;
        && r == s.(notes := r.notes) && r.notes.hist == n.hist + [Shown(ns, id, t)]
        && Lookup(r.notes.generations, key) == Some(t) && OnlyAt(key, n.generations, r.notes.generations)
        && r.notes.shows == n.shows + [Show(ns, id, p)] && (forall x :: x in r.notes.asked <==> x in n.asked || x == t)
        && r.notes.ready == n.ready && r.notes.retry == n.retry
      else r.notes == n
  {
    hide Send, Stop, Flush, Busy, IsNamespace, WakeableSocket;
  }

  /** A peer whose message makes no sense is stopped, and that is all: a hello without a namespace of 32 hexadecimal digits,
      a show or close of another namespace or without its subject, and any unknown kind. */
  lemma HandleStops(w: World, s: Core, p: nat, m: Message, env: Env)
    requires p < |s.conns.all|
    requires m.kind == "hello" ==> m.namespace.None? || !IsNamespace(m.namespace.value)
    requires !Shows(s, p, m) && !Closes(s, p, m) && m.kind != "status" && m.kind != "authorize" && m.kind != "quit-if-idle"
    ensures var (c, r) := (s.conns, Handle(w, s, p, m, env));
      && r == s.(conns := r.conns) && |r.conns.all| == |c.all| && r.conns.all[p] == c.all[p].(closed := true)
      && (forall q | 0 <= q < |c.all| && q != p :: r.conns.all[q] == c.all[q])
  {}

  /** Asking for the status or for permission is answered later, and changes nothing now. */
  lemma HandleWaits(w: World, s: Core, p: nat, m: Message, env: Env)
    requires p < |s.conns.all| && (m.kind == "status" || m.kind == "authorize")
    ensures Handle(w, s, p, m, env) == s
  {}

  lemma HandleQuits(w: World, s: Core, p: nat, m: Message, env: Env)
    requires CoreOk(w, s) && p < |s.conns.all| && m.kind == "quit-if-idle"
    ensures var r := Handle(w, s, p, m, env);
      var idle := forall q | 0 <= q < |s.conns.all| && !s.conns.all[q].closed :: s.conns.all[q].namespace.None?;
      && (r.terminating <==> s.terminating || idle)
      && (r.conns.all[p].closed || r.conns.all[p].sent == s.conns.all[p].sent + [Sent(Status(if idle then "stopping" else "busy"), None)])
      && r.hold == s.hold && r.notes == s.notes && r.sockets == s.sockets
  {
    hide CoreOk, Busy, Send, QuitIfIdle;
    QuitIs(w, s, p, m, env);
    QuitsOnlyIdle(w, s, p, env);
  }

  lemma QuitIs(w: World, s: Core, p: nat, m: Message, env: Env)
    requires p < |s.conns.all| && m.kind == "quit-if-idle"
    ensures var r := QuitIfIdle(w, s, p, env);
      Handle(w, s, p, m, env) == r && r.hold == s.hold && r.notes == s.notes && r.sockets == s.sockets
  {
    hide Busy, Send;
  }

  /** A valid hello keeps the peer's socket for its namespace if the path is absolute and shorter than 104 bytes, and
      no other hello or message keeps or drops one. */
  lemma SocketKept(w: World, s: Core, p: nat, m: Message, env: Env)
    requires p < |s.conns.all|
    ensures var (was, now) := (s.sockets, Handle(w, s, p, m, env).sockets);
      if m.kind == "hello" && m.namespace.Some? && IsNamespace(m.namespace.value)
         && m.socket.Some? && m.socket.value != "" && m.socket.value[0] == '/' && Utf8Count(m.socket.value) < 104
      then m.namespace.value in now && now[m.namespace.value] == m.socket.value
           && (forall ns | ns != m.namespace.value :: ns in now <==> ns in was)
           && (forall ns | ns in was && ns != m.namespace.value :: now[ns] == was[ns])
      else now == was
  {
    hide Send, Stop, Flush, Busy, IsNamespace;
  }

  // ---- no post after a close ----

  /** Between a close and a later post of its identifier there is a show of it. */
  lemma ShownBetween(n: Notes, c: nat, i: nat, ns: string, id: string)
    requires NotesOk(n) && c < i < |n.hist| && n.hist[c] == Closed(ns, id)
    requires n.hist[i].Posted? && n.hist[i].ns == ns && n.hist[i].id == id
    ensures exists j :: c < j < i && n.hist[j].Shown? && n.hist[j].ns == ns && n.hist[j].id == id
  {
    PostsAreCurrent(n, i);
    var j: nat :| CurrentSince(n.hist[..i], j, ns, id, n.hist[i].token);
    assert Concerns(n.hist[..i][c], ns, id);
    assert n.hist[..i][j] == n.hist[j];
  }

  /** A line read alone is handled alone. */
  lemma OneLine(w: World, s: State, p: nat, line: Line, m: Message, env: nat -> Env)
    requires Sized(s) && p < |s.inbox| && s.inbox[p] == [] && !s.core.conns.all[p].closed
    requires NEWLINE !in line && |line| < CHUNK && Accepted(w, line) == Some(m)
    ensures Enabled(s, ReadEvent(p, line + [NEWLINE], env))
    ensures Step(w, s, ReadEvent(p, line + [NEWLINE], env)).core == Take(w, s.core, p, line, m, env)
  {
    hide Take, Drain, Accepted;
    var chunk := line + [NEWLINE];
    assert [] + chunk == chunk && Unlines([line]) + [] == chunk by { assert [line][1..] == []; }
    DrainLines(w, s.(inbox := s.inbox[p := chunk]), p, [line], [], env);
    assert [line][1..] == [];
    assert HandleAll(w, s.core, p, [line], env) == HandleAll(w, Take(w, s.core, p, line, m, env), p, [], env);
  }

  /** From any reachable state: once a peer's close of (ns, id) has been read, nothing is posted under
      them in any run from there before another show of them is handled. */
  lemma NoPostAfterClose(w: World, s: State, p: nat, line: Line, m: Message, env: nat -> Env, es: seq<Event>, i: nat)
    requires Sized(s) && CoreOk(w, s.core) && NewlineFree(w) && p < |s.inbox| && s.inbox[p] == [] && !s.core.conns.all[p].closed
    requires NEWLINE !in line && |line| < CHUNK && Accepted(w, line) == Some(m) && Closes(s.core, p, m)
    requires Possible(w, s, [ReadEvent(p, line + [NEWLINE], env)] + es)
    requires var hist := Run(w, s, [ReadEvent(p, line + [NEWLINE], env)] + es).core.notes.hist;
      |s.core.notes.hist| <= i < |hist| && hist[i].Posted? && hist[i].ns == m.namespace.value && hist[i].id == m.id.value
    ensures var hist := Run(w, s, [ReadEvent(p, line + [NEWLINE], env)] + es).core.notes.hist;
      exists j :: |s.core.notes.hist| < j < i && hist[j].Shown? && hist[j].ns == m.namespace.value && hist[j].id == m.id.value
  {
    assert m.namespace.Some? && m.id.Some?;
    hide CoreOk, Take, Accepted, Closes, Enabled, Step;
    var e := ReadEvent(p, line + [NEWLINE], env);
    OneLine(w, s, p, line, m, env);
    ClosedNext(w, s.core, p, line, m, env);
    StepKeeps(w, s, e);
    assert ([e] + es)[0] == e && ([e] + es)[1..] == es;
    NoPostFrom(w, Step(w, s, e), es, |s.core.notes.hist|, i, m.namespace.value, m.id.value);
  }

  lemma NoPostFrom(w: World, s: State, es: seq<Event>, c: nat, i: nat, ns: string, id: string)
    requires Sized(s) && CoreOk(w, s.core) && NewlineFree(w) && Possible(w, s, es)
    requires c < |s.core.notes.hist| && s.core.notes.hist[c] == Closed(ns, id)
    requires var hist := Run(w, s, es).core.notes.hist; c <= i < |hist| && hist[i].Posted? && hist[i].ns == ns && hist[i].id == id
    ensures var hist := Run(w, s, es).core.notes.hist;
      exists j :: c < j < i && hist[j].Shown? && hist[j].ns == ns && hist[j].id == id
  {
    hide *;
    NotesLater(w, s, es);
    var h, hist := s.core.notes.hist, Run(w, s, es).core.notes.hist;
    assert hist[c] == h[c];
    ShownBetween(Run(w, s, es).core.notes, c, i, ns, id);
  }

  /** Runs keep the notes' invariant and only add to their history. */
  lemma NotesLater(w: World, s: State, es: seq<Event>)
    requires Sized(s) && CoreOk(w, s.core) && NewlineFree(w) && Possible(w, s, es)
    ensures var (n, end) := (s.core.notes, Run(w, s, es).core.notes);
      NotesOk(end) && n.hist <= end.hist && n.shows <= end.shows
  {
    hide CoreOk, Run, Possible, NewlineFree, NotesOk, PeersFollow;
    RunKeeps(w, s, es);
    RunFollows(w, s, es);
    NotesFine(w, Run(w, s, es).core);
  }

  lemma ClosedNext(w: World, s: Core, p: nat, line: Line, m: Message, env: nat -> Env)
    requires p < |s.conns.all| && Closes(s, p, m)
    ensures Take(w, s, p, line, m, env).notes.hist == s.notes.hist + [Closed(m.namespace.value, m.id.value)]
  {
    hide Handle;
    HandleActs(w, Note(s, p, line), p, m, env(|s.conns.all[p].handled|));
  }

  lemma NotesFine(w: World, s: Core)
    requires CoreOk(w, s)
    ensures NotesOk(s.notes)
  {}

  // ---- every current show is posted ----

  /** A show that is waiting for the settings: refused, it is dropped; allowed, its block is queued with what was attached. */
  lemma SettingsDecide(n: Notes, t: nat, allowed: bool, copy: bool, u: nat)
    ensures var r := Settled(n, t, allowed, copy);
      && (u in r.asked <==> u in n.asked && u != t)
      && (u in r.ready <==> u in n.ready || (u == t && allowed))
      && (u in r.ready ==> r.ready[u] == if u == t && allowed then copy else n.ready[u])
      && r.hist == n.hist && r.retry == n.retry && r.generations == n.generations && r.shows == n.shows
  {}

  /** The block posts its show exactly if the peer is alive and the show is the latest of its identifier,
      with no close since; it may be retried exactly if it was posted with an attachment. */
  lemma BlockPosts(n: Notes, t: nat, alive: bool)
    requires NotesOk(n) && t in n.ready && t < |n.shows|
    ensures var (r, ns, id) := (Check(n, t, alive), n.shows[t].ns, n.shows[t].id);
      var posts := alive && Latest(n.hist, ns, id) == Some(t);
      && r.hist == (if posts then n.hist + [Posted(ns, id, t)] else n.hist)
      && (forall u :: u in r.retry <==> u in n.retry || (u == t && posts && n.ready[t]))
      && (forall u :: u in r.ready <==> u in n.ready && u != t)
      && r.generations == n.generations && r.shows == n.shows && r.asked == n.asked
  {}

  /** So a show is posted in the end unless something concerns its identifier first: over any run in which nothing does,
      after the settings allow it, its block posts it if the peer lives, and for a retry if it has an attachment. */
  lemma CurrentIsPosted(w: World, s: State, es: seq<Event>, t: nat)
    requires Sized(s) && CoreOk(w, s.core) && NewlineFree(w) && Possible(w, s, es)
    requires t < |s.core.notes.shows| && Latest(s.core.notes.hist, s.core.notes.shows[t].ns, s.core.notes.shows[t].id) == Some(t)
    requires var (n, end) := (s.core.notes, Run(w, s, es).core.notes);
      && (forall k | |n.hist| <= k < |end.hist| :: !Concerns(end.hist[k], n.shows[t].ns, n.shows[t].id)) && t in end.ready
    ensures var (n, end) := (s.core.notes, Run(w, s, es).core.notes);
      && t < |end.shows| && end.shows[t] == n.shows[t]
      && Check(end, t, true).hist == end.hist + [Posted(n.shows[t].ns, n.shows[t].id, t)]
      && (end.ready[t] ==> t in Check(end, t, true).retry)
  {
    hide *;
    NotesLater(w, s, es);
    StillCurrent(s.core.notes, Run(w, s, es).core.notes, t);
  }

  lemma StillCurrent(n: Notes, end: Notes, t: nat)
    requires NotesOk(end) && n.hist <= end.hist && n.shows <= end.shows && t < |n.shows| && t in end.ready
    requires Latest(n.hist, n.shows[t].ns, n.shows[t].id) == Some(t)
    requires forall k | |n.hist| <= k < |end.hist| :: !Concerns(end.hist[k], n.shows[t].ns, n.shows[t].id)
    ensures Check(end, t, true).hist == end.hist + [Posted(n.shows[t].ns, n.shows[t].id, t)]
    ensures end.ready[t] ==> t in Check(end, t, true).retry
  {
    hide NotesOk, Latest, Check;
    ShownOnceOf(end);
    assert end.hist[..|n.hist|] == n.hist && end.hist[..|end.hist|] == end.hist;
    LatestAfter(end.hist, |n.hist|, |end.hist|, n.shows[t].ns, n.shows[t].id, t);
    BlockPosts(end, t, true);
  }

  lemma ShownOnceOf(n: Notes)
    requires NotesOk(n)
    ensures ShownOnce(n.hist)
  {}
}
