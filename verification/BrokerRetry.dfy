/** A run in which the broker shows a superseded notification over its successor. */
module BrokerRetry {
  import opened Lines
  import opened Options
  import opened BrokerModel
  import opened BrokerNotes
  import opened BrokerWire
  import opened BrokerTheorems

  lemma {:induction false} RunSnoc(w: World, s: State, es: seq<Event>, e: Event)
    requires Sized(s) && Possible(w, s, es) && Enabled(Run(w, s, es), e)
    ensures Possible(w, s, es + [e]) && Run(w, s, es + [e]) == Step(w, Run(w, s, es), e)
    decreases es
  {
    hide Enabled, Step;
    if es == [] {
      assert es + [e] == [e];
      var none: seq<Event> := [e][1..];
      assert |none| == 0;
    } else {
      assert (es + [e])[1..] == es[1..] + [e];
      RunSnoc(w, Step(w, s, es[0]), es[1..], e);
    }
  }

  /** A line that is a hello for this namespace, and one that shows a notice in it. */
  predicate SaysHello(w: World, line: Line, ns: string) {
    var m := Accepted(w, line);
    NEWLINE !in line && |line| < CHUNK && m.Some? && m.value.kind == "hello" && m.value.namespace == Some(ns) && IsNamespace(ns)
  }

  predicate SaysShow(w: World, line: Line, ns: string) {
    var m := Accepted(w, line);
    NEWLINE !in line && |line| < CHUNK && m.Some? && m.value.kind == "show" && m.value.namespace == Some(ns) && m.value.notice.Some?
  }

  /** A peer says hello and shows a notice twice; the first is posted with
      an avatar, and the refusal of that comes after the second is posted. */
  function StaleEvents(fd: int, hello: Line, show: Line, env: nat -> Env): seq<Event> {
    [AcceptEvent(fd, true), ReadEvent(0, hello + [NEWLINE], env),
     ReadEvent(0, show + [NEWLINE], env), SettingsEvent(0, true, true), CheckEvent(0, true),
     ReadEvent(0, show + [NEWLINE], env), SettingsEvent(1, true, false), CheckEvent(1, true),
     AddFailedEvent(0)]
  }

  /** One open peer with an empty buffer, nothing queued, and these notes. */
  ghost predicate OnePeer(s: State, ns: Option<string>, notes: Notes) {
    && Sized(s) && |s.core.conns.all| == 1 && !s.core.conns.all[0].closed && s.core.conns.all[0].namespace == ns
    && s.inbox == [[]] && s.core.hold.pending == map[] && s.core.notes == notes
  }

  lemma LineRead(w: World, s: State, line: Line, env: nat -> Env)
    requires Sized(s) && |s.inbox| == 1 && s.inbox == [[]] && !s.core.conns.all[0].closed
    requires NEWLINE !in line && |line| < CHUNK && Accepted(w, line).Some?
    ensures Enabled(s, ReadEvent(0, line + [NEWLINE], env))
    ensures var r := Step(w, s, ReadEvent(0, line + [NEWLINE], env));
      r.core == Take(w, s.core, 0, line, Accepted(w, line).value, env) && r.inbox == [[]]
  {
    hide Take, Drain, HandleAll;
    UnlinesOne(line);
    var chunk := line + [NEWLINE];
    assert [] + chunk == chunk == Unlines([line]) + [];
    DrainLines(w, s.(inbox := s.inbox[0 := chunk]), 0, [line], [], env);
    HandlesOne(w, s.core, 0, line, env);
    assert s.inbox[0 := chunk][0 := []] == [[]];
  }

  lemma HelloRead(w: World, s: State, hello: Line, ns: string, env: nat -> Env)
    requires OnePeer(s, None, START.core.notes) && SaysHello(w, hello, ns)
    ensures var e := ReadEvent(0, hello + [NEWLINE], env);
      Enabled(s, e) && OnePeer(Step(w, s, e), Some(ns), START.core.notes)
  {
    LineRead(w, s, hello, env);
  }

  lemma ShowRead(w: World, s: State, show: Line, ns: string, notes: Notes, env: nat -> Env)
    requires OnePeer(s, Some(ns), notes) && SaysShow(w, show, ns)
    ensures var e := ReadEvent(0, show + [NEWLINE], env);
      Enabled(s, e) && OnePeer(Step(w, s, e), Some(ns), ShowNotes(notes, ns, Accepted(w, show).value.notice.value.id, 0))
  {
    LineRead(w, s, show, env);
  }

  /** The three callbacks change the notes alone. */
  lemma CallbackDone(w: World, s: State, e: Event, ns: string, notes: Notes)
    requires OnePeer(s, Some(ns), notes) && Enabled(s, e) && (e.SettingsEvent? || e.CheckEvent? || e.AddFailedEvent?)
    ensures OnePeer(Step(w, s, e), Some(ns),
              if e.SettingsEvent? then Settled(notes, e.t, e.allowed, e.copy) else if e.CheckEvent? then Check(notes, e.t, e.alive)
              else Retry(notes, e.t))
  {}

  /** The broker can be led there: this run is possible from the start, and at its
      end the notice that was shown last is the old one. */
  lemma StaleRun(w: World, fd: int, hello: Line, show: Line, ns: string, env: nat -> Env)
    requires SaysHello(w, hello, ns) && SaysShow(w, show, ns)
    ensures var es := StaleEvents(fd, hello, show, env);
      var id := Accepted(w, show).value.notice.value.id;
      Possible(w, START, es) && var hist := Run(w, START, es).core.notes.hist;
        && hist == [Shown(ns, id, 0), Posted(ns, id, 0), Shown(ns, id, 1), Posted(ns, id, 1), Reposted(ns, id, 0)]
        && Latest(hist, ns, id) == Some(1)
  {
    var es, id := StaleEvents(fd, hello, show, env), Accepted(w, show).value.notice.value.id;
    hide Run, Possible, OnePeer, StaleEvents, First, Second, Retry;
    NotesFacts(ns, id);
    var a := StaleStart(w, fd, hello, ns, env);
    var b := ShownAndPosted(w, a, show, ns, START.core.notes, true, env, First(ns, id));
    var c := ShownAndPosted(w, b, show, ns, First(ns, id), false, env, Second(ns, id));
    var all := StaleStep(w, c, AddFailedEvent(0), show, ns, Second(ns, id), Retry(Second(ns, id), 0));
    EventsAre(fd, hello, show, env, a, b, c);
    NotesAre(w, es, ns, Retry(Second(ns, id), 0));
  }

  function First(ns: string, id: string): Notes { Posting(START.core.notes, ns, id, true) }

  function Second(ns: string, id: string): Notes { Posting(First(ns, id), ns, id, false) }

  lemma NotesFacts(ns: string, id: string)
    ensures 0 in Second(ns, id).retry && |START.core.notes.shows| == 0 && |First(ns, id).shows| == 1 && |Second(ns, id).shows| == 2
    ensures var hist := Retry(Second(ns, id), 0).hist;
      && hist == [Shown(ns, id, 0), Posted(ns, id, 0), Shown(ns, id, 1), Posted(ns, id, 1), Reposted(ns, id, 0)]
      && Latest(hist, ns, id) == Some(1)
  {
    StaleExample(ns, id, 0);
    hide Latest;
  }

  lemma EventsAre(fd: int, hello: Line, show: Line, env: nat -> Env, a: seq<Event>, b: seq<Event>, c: seq<Event>)
    requires a == [AcceptEvent(fd, true), ReadEvent(0, hello + [NEWLINE], env)]
    requires b == a + [ReadEvent(0, show + [NEWLINE], env), SettingsEvent(0, true, true), CheckEvent(0, true)]
    requires c == b + [ReadEvent(0, show + [NEWLINE], env), SettingsEvent(1, true, false), CheckEvent(1, true)]
    ensures c + [AddFailedEvent(0)] == StaleEvents(fd, hello, show, env)
  {}

  lemma NotesAre(w: World, es: seq<Event>, ns: string, n: Notes)
    requires Possible(w, START, es) && OnePeer(Run(w, START, es), Some(ns), n)
    ensures Run(w, START, es).core.notes == n
  {}

  /** A notice shown by peer 0, allowed by the settings, and posted. */
  function Posting(n: Notes, ns: string, id: string, copy: bool): Notes {
    Check(Settled(ShowNotes(n, ns, id, 0), |n.shows|, true, copy), |n.shows|, true)
  }

  lemma ShownAndPosted(w: World, es: seq<Event>, show: Line, ns: string, n: Notes, copy: bool, env: nat -> Env, n': Notes) returns (r: seq<Event>)
    requires Possible(w, START, es) && OnePeer(Run(w, START, es), Some(ns), n) && SaysShow(w, show, ns)
    requires n' == Posting(n, ns, Accepted(w, show).value.notice.value.id, copy)
    ensures var t := |n.shows|;
      r == es + [ReadEvent(0, show + [NEWLINE], env), SettingsEvent(t, true, copy), CheckEvent(t, true)]
    ensures Possible(w, START, r) && OnePeer(Run(w, START, r), Some(ns), n')
  {
    hide Run, Possible, OnePeer;
    var t, id := |n.shows|, Accepted(w, show).value.notice.value.id;
    var n1 := ShowNotes(n, ns, id, 0);
    var n2 := Settled(n1, t, true, copy);
    r := StaleStep(w, es, ReadEvent(0, show + [NEWLINE], env), show, ns, n, n1);
    r := StaleStep(w, r, SettingsEvent(t, true, copy), show, ns, n1, n2);
    r := StaleStep(w, r, CheckEvent(t, true), show, ns, n2, n');
  }

  lemma StaleStart(w: World, fd: int, hello: Line, ns: string, env: nat -> Env) returns (es: seq<Event>)
    requires SaysHello(w, hello, ns)
    ensures es == [AcceptEvent(fd, true), ReadEvent(0, hello + [NEWLINE], env)]
    ensures Possible(w, START, es) && OnePeer(Run(w, START, es), Some(ns), START.core.notes)
  {
    es := [];
    RunSnoc(w, START, es, AcceptEvent(fd, true));
    es := es + [AcceptEvent(fd, true)];
    var s := Run(w, START, es);
    assert s == Accept(START, fd, true);
    HelloRead(w, s, hello, ns, env);
    RunSnoc(w, START, es, ReadEvent(0, hello + [NEWLINE], env));
    es := es + [ReadEvent(0, hello + [NEWLINE], env)];
  }

  /** One more event that takes the notes from n to n'. */
  lemma StaleStep(w: World, es: seq<Event>, e: Event, show: Line, ns: string, n: Notes, n': Notes) returns (r: seq<Event>)
    requires Possible(w, START, es) && OnePeer(Run(w, START, es), Some(ns), n) && SaysShow(w, show, ns)
    requires match e
      case ReadEvent(p, chunk, _) => p == 0 && chunk == show + [NEWLINE] && n' == ShowNotes(n, ns, Accepted(w, show).value.notice.value.id, 0)
      case SettingsEvent(t, allowed, copy) => t in n.asked && n' == Settled(n, t, allowed, copy)
      case CheckEvent(t, alive) => alive && t in n.ready && t < |n.shows| && n' == Check(n, t, alive)
      case AddFailedEvent(t) => t in n.retry && t < |n.shows| && n' == Retry(n, t)
      case _ => false
    ensures r == es + [e] && Possible(w, START, r) && OnePeer(Run(w, START, r), Some(ns), n')
  {
    var s := Run(w, START, es);
    r := es + [e];
    if e.ReadEvent? {
      ShowRead(w, s, show, ns, n, e.env);
    } else {
      CallbackDone(w, s, e, ns, n);
    }
    hide Step, Enabled, OnePeer;
    RunSnoc(w, START, es, e);
  }
}
