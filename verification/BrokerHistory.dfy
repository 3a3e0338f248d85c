/** Nothing that happened is undone by anything that happens later. */
module BrokerHistory {
  import opened Lines
  import opened Options
  import opened BrokerModel
  import opened BrokerInvariants
  import opened BrokerQueues
  import opened BrokerRuns

  /** History is never rewritten: nothing is written to or handled for a peer and then taken back, a stopped
      peer stays stopped and is written nothing more, and what no longer waits keeps its fate. */
  ghost predicate Follows(s: Core, s': Core) {
    && PeersFollow(s.conns, s'.conns) && Later(s.hold, s'.hold)
    && s.notes.hist <= s'.notes.hist && s.notes.shows <= s'.notes.shows
  }

  ghost predicate PeerFollows(q: Conn, q': Conn) {
    && q'.fd == q.fd && (q'.open ==> q.open)
    && q.wire <= q'.wire && q.sent <= q'.sent && q.handled <= q'.handled
    && (q.closed ==> q'.closed && q'.wire == q.wire && q'.sent == q.sent)
  }

  ghost predicate PeersFollow(c: Conns, c': Conns) {
    |c.all| <= |c'.all| && forall p | 0 <= p < |c.all| :: PeerFollows(c.all[p], c'.all[p])
  }

  lemma FollowsTwice(a: Core, b: Core, c: Core)
    requires Follows(a, b) && Follows(b, c)
    ensures Follows(a, c)
  {}

  lemma TouchedFollows(s: Core, c': Conns, p: nat)
    requires HoldOk(s.hold) && Touched(s.conns, c', p)
    ensures Follows(s, s.(conns := c'))
  {}

  lemma StopFollows(s: Core, p: nat)
    requires HoldOk(s.hold) && p < |s.conns.all|
    ensures Follows(s, s.(conns := Stop(s.conns, p)))
  {}

  lemma SendFollows(w: World, s: Core, p: nat, m: Sent, writes: Writes)
    requires HoldOk(s.hold) && p < |s.conns.all|
    ensures Follows(s, s.(conns := Send(w, s.conns, p, m, writes)))
  {
    SendTouches(w, s.conns, p, m, writes);
    TouchedFollows(s, Send(w, s.conns, p, m, writes), p);
  }

  lemma HelloFollows(w: World, s: Core, p: nat, m: Message, env: Env)
    requires CoreOk(w, s) && p < |s.conns.all| && NewlineFree(w)
    ensures Follows(s, Hello(w, s, p, m, env))
  {
    if m.namespace.None? || !IsNamespace(m.namespace.value) {
      StopFollows(s, p);
    } else {
      var ns := m.namespace.value;
      var c1 := s.conns.(all := s.conns.all[p := s.conns.all[p].(namespace := Some(ns))]);
      assert WireOk(w, s.conns.all[p]) && HoldOk(s.hold);
      hide CoreOk, HoldOk, WireOk;
      HelloHold(w, s.hold, c1, p, ns, env);
      FlushTouches(w, c1, s.hold.fates, p, Queue(s.hold, ns), ns, env, 0);
      hide Flush, Later;
      NamedFollow(s.conns, Flush(w, c1, s.hold.fates, p, Queue(s.hold, ns), ns, env, 0).0, p, ns);
    }
  }

  lemma NamedFollow(c: Conns, c': Conns, p: nat, ns: string)
    requires p < |c.all| && Touched(c.(all := c.all[p := c.all[p].(namespace := Some(ns))]), c', p)
    ensures PeersFollow(c, c')
  {
    forall q | 0 <= q < |c.all| ensures PeerFollows(c.all[q], c'.all[q]) {}
  }

  lemma NoticeFollows(s: Core, p: nat, m: Message)
    requires HoldOk(s.hold) && p < |s.conns.all|
    ensures Follows(s, ShowNotice(s, p, m)) && Follows(s, CloseNotice(s, p, m))
  {
    StopFollows(s, p);
    FollowsSelf(s);
  }

  lemma QuitFollows(w: World, s: Core, p: nat, env: Env)
    requires HoldOk(s.hold) && p < |s.conns.all|
    ensures Follows(s, QuitIfIdle(w, s, p, env))
  {}

  lemma HandleFollows(w: World, s: Core, p: nat, m: Message, env: Env)
    requires CoreOk(w, s) && p < |s.conns.all| && NewlineFree(w)
    ensures Follows(s, Handle(w, s, p, m, env))
  {
    assert HoldOk(s.hold);
    hide CoreOk, Hello, HoldOk;
    FollowsSelf(s);
    QuitFollows(w, s, p, env);
    hide Follows, QuitIfIdle, ShowNotice, CloseNotice;
    StopFollows(s, p);
    HelloFollows(w, s, p, m, env);
    NoticeFollows(s, p, m);
  }

  lemma NoteFollows(s: Core, p: nat, line: Line)
    requires HoldOk(s.hold) && p < |s.conns.all|
    ensures Follows(s, Note(s, p, line))
  {}

  lemma TakeFollows(w: World, s: Core, p: nat, line: Line, m: Message, env: nat -> Env)
    requires CoreOk(w, s) && p < |s.conns.all| && NewlineFree(w) && |line| < MAX_BUFFER
    ensures Follows(s, Take(w, s, p, line, m, env)) && CoreOk(w, Take(w, s, p, line, m, env))
  {
    var s1 := Note(s, p, line);
    var e := env(|s.conns.all[p].handled|);
    TakeKeeps(w, s, p, line, m, env);
    NoteKeeps(w, s, p, line);
    NoteFollows(s, p, line);
    HandleFollows(w, s1, p, m, e);
    FollowsTwice(s, s1, Handle(w, s1, p, m, e));
  }

  lemma HoldIsOk(w: World, s: Core)
    requires CoreOk(w, s)
    ensures HoldOk(s.hold)
  {}

  lemma {:induction false} DrainFollows(w: World, s: State, p: nat, env: nat -> Env)
    requires Sized(s) && p < |s.inbox| && CoreOk(w, s.core) && NewlineFree(w) && |s.inbox[p]| <= MAX_BUFFER
    ensures Follows(s.core, Drain(w, s, p, env).core)
    decreases |s.inbox[p]|
  {
    hide CoreOk, HoldOk, Follows, Take, Stop, Drain, Accepted;
    HoldIsOk(w, s.core);
    DrainUnfolds(w, s, p, env);
    var i := FindNewline(s.inbox[p]);
    if i != -1 {
      var line := s.inbox[p][..i];
      var inbox := s.inbox[p := s.inbox[p][i + 1..]];
      var m := Accepted(w, line);
      if m.None? {
        StopFollows(s.core, p);
      } else {
        TakeFollows(w, s.core, p, line, m.value, env);
        var s1 := State(Take(w, s.core, p, line, m.value, env), inbox);
        DrainFollows(w, s1, p, env);
        FollowsTwice(s.core, s1.core, Drain(w, s1, p, env).core);
      }
    } else {
      FollowsSelf(s.core);
    }
  }

  lemma FollowsSelf(s: Core)
    requires HoldOk(s.hold)
    ensures Follows(s, s)
  {}

  lemma SendAllFollows(w: World, s: Core, m: Message, ns: string, order: seq<nat>, writes: nat -> Writes)
    requires CoreOk(w, s) && NewlineFree(w) && Lists(order, s.conns, ns) && m.namespace == Some(ns)
    ensures Follows(s, s.(conns := SendAll(w, s.conns, order, Sent(m, Some((|s.hold.log|, ns))), writes, 0), hold := Logged(s.hold, m, Direct)))
  {
    var note := Sent(m, Some((|s.hold.log|, ns)));
    var c' := SendAll(w, s.conns, order, note, writes, 0);
    SendAllAttempts(w, s.conns, order, note, writes, 0);
    SendAllWires(w, s.conns, order, note, writes, 0);
    assert order[0..] == order;
    LoggedDirect(s.hold, m);
    forall q | 0 <= q < |s.conns.all| ensures PeerFollows(s.conns.all[q], c'.all[q]) {
      assert q in order ==> Attempted(s.conns, c', q, note);
    }
  }

  lemma {:induction false} SendAllWires(w: World, c: Conns, order: seq<nat>, s: Sent, writes: nat -> Writes, i: nat)
    requires (forall p | p in order :: p < |c.all|) && i <= |order|
    ensures forall q | 0 <= q < |c.all| :: c.all[q].wire <= SendAll(w, c, order, s, writes, i).all[q].wire
    decreases |order| - i
  {
    if i < |order| {
      assert order[i] in order;
      SendTouches(w, c, order[i], s, writes(i));
      SendAllWires(w, Send(w, c, order[i], s, writes(i)), order, s, writes, i + 1);
    }
  }

  lemma QueuedFollows(w: World, s: Core, m: Message, ns: string, now: real, connect: Connect)
    requires CoreOk(w, s) && m.namespace == Some(ns)
    ensures var h' := Wake(w, Enqueue(Logged(MakeRoom(s.hold), m, Waiting), ns, Held(now, |s.hold.log|, m)), s.sockets, ns, connect);
      Follows(s, s.(hold := h'))
  {
    RoomMade(s.hold);
    LoggedUnplaced(MakeRoom(s.hold), m);
    Enqueued(Logged(MakeRoom(s.hold), m, Waiting), ns, Held(now, |s.hold.log|, m));
    Woken(w, Enqueue(Logged(MakeRoom(s.hold), m, Waiting), ns, Held(now, |s.hold.log|, m)), s.sockets, ns, connect);
    FollowsSelf(s);
  }

  lemma StepFollows(w: World, s: State, e: Event)
    requires Sized(s) && CoreOk(w, s.core) && NewlineFree(w) && Enabled(s, e)
    ensures Follows(s.core, Step(w, s, e).core)
  {
    var c := s.core;
    hide CoreOk, HoldOk, Follows, Drain, SendAll, Send, Stop, Lists;
    HoldIsOk(w, c);
    FollowsSelf(c);
    match e
    case AcceptEvent(fd, trusted) => AcceptFollows(s, fd, trusted);
    case ReadEvent(p, chunk, env) =>
      StopFollows(c, p);
      if |s.inbox[p] + chunk| <= MAX_BUFFER { DrainFollows(w, s.(inbox := s.inbox[p := s.inbox[p] + chunk]), p, env); }
    case ReplyEvent(p, status, writes) => SendFollows(w, c, p, Sent(Status(status), None), writes);
    case CancelEvent(p) => CancelFollows(c, p);
    case DeliverEvent(m, order, now, sends, connect) =>
      if m.namespace.Some? {
        if order != [] { SendAllFollows(w, c, m, m.namespace.value, order, sends); }
        else { QueuedFollows(w, c, m, m.namespace.value, now, connect); }
      }
    case SettingsEvent(t, allowed, copy) => NotesFollow(c, Settled(c.notes, t, allowed, copy));
    case CheckEvent(t, alive) => NotesFollow(c, Check(c.notes, t, alive));
    case AddFailedEvent(t) => NotesFollow(c, Retry(c.notes, t));
  }

  lemma AcceptFollows(s: State, fd: int, trusted: bool)
    requires HoldOk(s.core.hold)
    ensures Follows(s.core, Accept(s, fd, trusted).core)
  {
    hide HoldOk;
    LaterSelf(s.core.hold);
    hide Later;
    var c, c' := s.core.conns, Accept(s, fd, trusted).core.conns;
    forall q | 0 <= q < |c.all| ensures PeerFollows(c.all[q], c'.all[q]) {}
  }

  lemma CancelFollows(s: Core, p: nat)
    requires HoldOk(s.hold) && p < |s.conns.all|
    ensures Follows(s, s.(conns := Cancelled(s.conns, p)))
  {
    hide HoldOk;
    LaterSelf(s.hold);
    hide Later;
    forall q | 0 <= q < |s.conns.all| ensures PeerFollows(s.conns.all[q], Cancelled(s.conns, p).all[q]) {}
  }

  lemma NotesFollow(s: Core, n: Notes)
    requires HoldOk(s.hold) && s.notes.hist <= n.hist && s.notes.shows <= n.shows
    ensures Follows(s, s.(notes := n))
  {
    hide HoldOk;
    LaterSelf(s.hold);
    hide Later;
    forall q | 0 <= q < |s.conns.all| ensures PeerFollows(s.conns.all[q], s.conns.all[q]) {}
  }

  lemma LaterSelf(h: Hold)
    requires HoldOk(h)
    ensures Later(h, h)
  {}

  lemma {:induction false} RunFollows(w: World, s: State, es: seq<Event>)
    requires Sized(s) && CoreOk(w, s.core) && NewlineFree(w) && Possible(w, s, es)
    ensures Follows(s.core, Run(w, s, es).core)
    decreases es
  {
    hide CoreOk, Follows;
    if es == [] {
      assert Follows(s.core, s.core) by { CoreFollowsSelf(w, s.core); }
    } else {
      StepKeeps(w, s, es[0]);
      StepFollows(w, s, es[0]);
      RunFollows(w, Step(w, s, es[0]), es[1..]);
      FollowsTwice(s.core, Step(w, s, es[0]).core, Run(w, s, es).core);
    }
  }

  lemma CoreFollowsSelf(w: World, s: Core)
    requires CoreOk(w, s)
    ensures Follows(s, s)
  {}
}
