/** What reaches a peer: only messages of the namespace it has at that moment, and, at the other end
    of its wire, exactly the messages that were sent. */
module BrokerReceipts {
  import opened Lines
  import opened Options
  import opened BrokerModel
  import opened BrokerInvariants
  import opened BrokerRuns
  import opened BrokerHistory
  import opened BrokerTheorems
  import opened BrokerWire

  // ---- a peer is sent what is of its namespace ----

  /** Every delivered message that q' was sent and q was not is of the namespace that q' has. */
  ghost predicate OwnFrom(q: Conn, q': Conn) {
    forall k | |q.sent| <= k < |q'.sent| && q'.sent[k].origin.Some? ::
      q'.namespace == q'.sent[k].msg.namespace == Some(q'.sent[k].origin.value.1)
  }

  /** A hello that gives its peer a namespace. */
  predicate Names(m: Message) { m.kind == "hello" && m.namespace.Some? && IsNamespace(m.namespace.value) }

  lemma HelloOwn(w: World, s: Core, p: nat, m: Message, env: Env)
    requires CoreOk(w, s) && NewlineFree(w) && p < |s.conns.all| && m.namespace.Some? && IsNamespace(m.namespace.value)
    ensures var q' := Hello(w, s, p, m, env).conns.all[p];
      OwnFrom(s.conns.all[p], q') && q'.namespace == m.namespace && q'.handled == s.conns.all[p].handled
    ensures forall q | 0 <= q < |s.conns.all| && q != p :: Hello(w, s, p, m, env).conns.all[q] == s.conns.all[q]
  {
    var ns := m.namespace.value;
    var items, r := Queue(s.hold, ns), Hello(w, s, p, m, env);
    OfNamespace(w, s, ns);
    QueueIs(w, s, ns);
    hide CoreOk, Kept, CutOf, FlushFate, OwnFrom, IsNamespace, QueueOk;
    HelloSettles(w, s, p, m, env, ns);
    HelloIs(w, s, p, m, env, ns);
    hide Hello, Flush;
    var c1 := s.conns.(all := s.conns.all[p := s.conns.all[p].(namespace := Some(ns))]);
    FlushTouches(w, c1, s.hold.fates, p, items, ns, env, 0);
    KeptOwn(s.conns.all[p], r.conns.all[p], items, ns, r.hold.fates, p);
  }

  lemma KeptOwn(q: Conn, q': Conn, items: seq<Held>, ns: string, fates: seq<Fate>, p: nat)
    requires forall i | 0 <= i < |items| :: items[i].msg.namespace == Some(ns)
    requires q'.sent == q.sent + Kept(items, ns, fates, p, 0) && q'.namespace == Some(ns)
    ensures OwnFrom(q, q')
  {
    forall k | |q.sent| <= k < |q'.sent|
      ensures q'.sent[k].origin.Some? && q'.sent[k].msg.namespace == Some(ns) == Some(q'.sent[k].origin.value.1)
    {
      var j := KeptAt(items, ns, fates, p, 0, k - |q.sent|);
    }
  }

  lemma OfNamespace(w: World, s: Core, ns: string)
    requires CoreOk(w, s)
    ensures forall i | 0 <= i < |Queue(s.hold, ns)| :: Queue(s.hold, ns)[i].msg.namespace == Some(ns)
  {}

  /** Handling one message sends its peer only messages of the namespace the peer then has, and no other peer any. */
  lemma HandleSendsOwn(w: World, s: Core, p: nat, m: Message, env: Env)
    requires CoreOk(w, s) && NewlineFree(w) && p < |s.conns.all|
    ensures var (q, q') := (s.conns.all[p], Handle(w, s, p, m, env).conns.all[p]);
      && OwnFrom(q, q') && q'.handled == q.handled
      && q'.namespace == if Names(m) then m.namespace else q.namespace
    ensures forall q | 0 <= q < |s.conns.all| && q != p :: Handle(w, s, p, m, env).conns.all[q] == s.conns.all[q]
  {
    hide CoreOk, OwnFrom, IsNamespace, Hello, QuitIfIdle, Stop;
    SameOwn(s.conns.all[p]);
    if Names(m) {
      HelloOwn(w, s, p, m, env);
    } else {
      StopOwn(s.conns, p);
      if m.kind == "hello" { StopIsHello(w, s, p, m, env); }
      QuitOwn(w, s, p, env);
    }
  }

  lemma SameOwn(q: Conn)
    ensures OwnFrom(q, q)
  {}

  lemma StopOwn(c: Conns, p: nat)
    requires p < |c.all|
    ensures var q' := Stop(c, p).all[p]; OwnFrom(c.all[p], q') && q'.handled == c.all[p].handled && q'.namespace == c.all[p].namespace
    ensures forall q | 0 <= q < |c.all| && q != p :: Stop(c, p).all[q] == c.all[q]
  {}

  lemma QuitOwn(w: World, s: Core, p: nat, env: Env)
    requires p < |s.conns.all|
    ensures var (q, q') := (s.conns.all[p], QuitIfIdle(w, s, p, env).conns.all[p]);
      OwnFrom(q, q') && q'.handled == q.handled && q'.namespace == q.namespace
    ensures forall q | 0 <= q < |s.conns.all| && q != p :: QuitIfIdle(w, s, p, env).conns.all[q] == s.conns.all[q]
  {
    hide Send, Busy;
    SendTouches(w, s.conns, p, Sent(Status(if Busy(s.conns) then "busy" else "stopping"), None), env.writes(0));
  }

  lemma StopIsHello(w: World, s: Core, p: nat, m: Message, env: Env)
    requires p < |s.conns.all| && (m.namespace.None? || !IsNamespace(m.namespace.value))
    ensures Hello(w, s, p, m, env) == s.(conns := Stop(s.conns, p))
  {}

  /** Any event but a read sends only messages of the namespace a peer has before and after it. */
  lemma StepSendsOwn(w: World, s: State, e: Event, q: nat)
    requires Sized(s) && CoreOk(w, s.core) && NewlineFree(w) && Enabled(s, e) && !e.ReadEvent? && q < |s.core.conns.all|
    ensures var (a, b) := (s.core.conns.all[q], Step(w, s, e).core.conns.all[q]);
      OwnFrom(a, b) && b.namespace == a.namespace && b.handled == a.handled
  {
    hide CoreOk, Send, Deliver, Lists, Settled, Check, Retry, OwnFrom;
    SameOwn(s.core.conns.all[q]);
    match e
    case ReplyEvent(p, status, writes) => ReplyOwn(w, s.core.conns, p, status, writes, q);
    case DeliverEvent(m, _, _, _, _) => if m.namespace.Some? { DeliveredOwn(w, s.core, e, q); }
    case AcceptEvent(fd, trusted) => assert Accept(s, fd, trusted).core.conns.all[q] == s.core.conns.all[q];
    case CancelEvent(p) => CancelOwn(s.core.conns, p, q);
    case _ =>
  }

  lemma CancelOwn(c: Conns, p: nat, q: nat)
    requires p < |c.all| && q < |c.all|
    ensures var b := Cancelled(c, p).all[q]; OwnFrom(c.all[q], b) && b.namespace == c.all[q].namespace && b.handled == c.all[q].handled
  {}

  lemma ReplyOwn(w: World, c: Conns, p: nat, status: string, writes: Writes, q: nat)
    requires p < |c.all| && q < |c.all|
    ensures var b := Send(w, c, p, Sent(Status(status), None), writes).all[q];
      OwnFrom(c.all[q], b) && b.namespace == c.all[q].namespace && b.handled == c.all[q].handled
  {
    hide Send;
    SendTouches(w, c, p, Sent(Status(status), None), writes);
  }

  lemma DeliveredOwn(w: World, s: Core, e: Event, q: nat)
    requires CoreOk(w, s) && NewlineFree(w) && q < |s.conns.all|
    requires e.DeliverEvent? && e.m.namespace.Some? && Lists(e.order, s.conns, e.m.namespace.value)
    ensures var (a, b) := (s.conns.all[q], Deliver(w, s, e.m, e.order, e.now, e.sends, e.connect).conns.all[q]);
      OwnFrom(a, b) && b.namespace == a.namespace && b.handled == a.handled
  {
    var ns := e.m.namespace.value;
    var sent := Sent(e.m, Some((|s.hold.log|, ns)));
    assert e.order[0..] == e.order;
    hide CoreOk, ConnsOk, SendAll, Attempted;
    ConnsFine(w, s);
    SendAllAttempts(w, s.conns, e.order, sent, e.sends, 0);
    if e.order == [] {
      SameOwn(s.conns.all[q]);
    } else if q in e.order {
      AttemptOwn(s.conns, SendAll(w, s.conns, e.order, sent, e.sends, 0), q, sent);
    }
  }

  lemma ConnsFine(w: World, s: Core)
    requires CoreOk(w, s)
    ensures ConnsOk(w, s.conns)
  {}

  lemma AttemptOwn(c: Conns, c': Conns, q: nat, sent: Sent)
    requires q < |c.all| == |c'.all| && Attempted(c, c', q, sent) && sent.origin.Some?
    requires c.all[q].namespace == sent.msg.namespace == Some(sent.origin.value.1)
    ensures OwnFrom(c.all[q], c'.all[q]) && c'.all[q].namespace == c.all[q].namespace && c'.all[q].handled == c.all[q].handled
  {}

  // ---- and it has the namespace it named ----

  /** The namespace the last of these lines that names one gives. */
  function NamedBy(w: World, lines: seq<Line>): Option<string> {
    if lines == [] then None
    else
      var m := Accepted(w, lines[|lines| - 1]);
      if m.Some? && Names(m.value) then m.value.namespace else NamedBy(w, lines[..|lines| - 1])
  }

  /** A peer's namespace is the one its last hello named, and every message delivered
      to it is of one that was the last named at some time. */
  ghost predicate AsNamed(w: World, q: Conn) {
    && q.namespace == NamedBy(w, q.handled)
    && forall k | 0 <= k < |q.sent| && q.sent[k].origin.Some? :: NamedFor(w, q.handled, q.sent[k])
  }

  ghost predicate NamedFor(w: World, handled: seq<Line>, s: Sent)
    requires s.origin.Some?
  {
    s.msg.namespace == Some(s.origin.value.1) && exists j: nat :: j <= |handled| && NamedBy(w, handled[..j]) == s.msg.namespace
  }

  ghost predicate AllAsNamed(w: World, c: Conns) { forall q | 0 <= q < |c.all| :: AsNamed(w, c.all[q]) }

  lemma OwnNamed(w: World, q: Conn, q': Conn)
    requires AsNamed(w, q) && OwnFrom(q, q') && PeerFollows(q, q') && q'.namespace == NamedBy(w, q'.handled)
    ensures AsNamed(w, q')
  {
    hide NamedBy;
    forall k | 0 <= k < |q'.sent| && q'.sent[k].origin.Some? ensures NamedFor(w, q'.handled, q'.sent[k]) {
      if k < |q.sent| {
        assert NamedFor(w, q.handled, q.sent[k]);
        var j: nat :| j <= |q.handled| && NamedBy(w, q.handled[..j]) == q.sent[k].msg.namespace;
        assert q'.handled[..j] == q.handled[..j];
      } else {
        assert q'.handled[..|q'.handled|] == q'.handled;
      }
    }
  }

  lemma NamedSnoc(w: World, lines: seq<Line>, line: Line, m: Message)
    requires Accepted(w, line) == Some(m)
    ensures NamedBy(w, lines + [line]) == if Names(m) then m.namespace else NamedBy(w, lines)
  {
    assert (lines + [line])[..|lines|] == lines;
  }

  lemma TakeNames(w: World, s: Core, p: nat, line: Line, m: Message, env: nat -> Env)
    requires CoreOk(w, s) && NewlineFree(w) && p < |s.conns.all| && |line| < MAX_BUFFER && Accepted(w, line) == Some(m)
    requires AllAsNamed(w, s.conns)
    ensures AllAsNamed(w, Take(w, s, p, line, m, env).conns)
  {
    var s1, s2 := Note(s, p, line), Take(w, s, p, line, m, env);
    TakeFollows(w, s, p, line, m, env);
    NoteKeeps(w, s, p, line);
    hide CoreOk, Handle, AsNamed, NamedBy, Accepted;
    HandleSendsOwn(w, s1, p, m, env(|s.conns.all[p].handled|));
    NamedSnoc(w, s.conns.all[p].handled, line, m);
    forall q | 0 <= q < |s2.conns.all| ensures AsNamed(w, s2.conns.all[q]) {
      assert AsNamed(w, s.conns.all[q]) && PeerFollows(s.conns.all[q], s2.conns.all[q]);
      if q == p { TakenNamed(w, s.conns.all[p], s2.conns.all[p], line, m); }
    }
  }

  lemma TakenNamed(w: World, q: Conn, q': Conn, line: Line, m: Message)
    requires AsNamed(w, q) && OwnFrom(q, q') && PeerFollows(q, q') && Accepted(w, line) == Some(m)
    requires q'.handled == q.handled + [line] && q'.namespace == if Names(m) then m.namespace else q.namespace
    ensures AsNamed(w, q')
  {
    NamedSnoc(w, q.handled, line, m);
    OwnNamed(w, q, q');
  }

  lemma {:induction false} DrainNames(w: World, s: State, p: nat, env: nat -> Env)
    requires Sized(s) && p < |s.inbox| && CoreOk(w, s.core) && NewlineFree(w) && |s.inbox[p]| <= MAX_BUFFER
    requires AllAsNamed(w, s.core.conns)
    ensures AllAsNamed(w, Drain(w, s, p, env).core.conns)
    decreases |s.inbox[p]|
  {
    hide CoreOk, Take, Stop, Drain, Accepted, AllAsNamed;
    DrainUnfolds(w, s, p, env);
    var i := FindNewline(s.inbox[p]);
    if i != -1 {
      var line := s.inbox[p][..i];
      var inbox := s.inbox[p := s.inbox[p][i + 1..]];
      var m := Accepted(w, line);
      if m.None? {
        StopNames(w, s.core.conns, p);
      } else {
        TakeNames(w, s.core, p, line, m.value, env);
        TakeKeeps(w, s.core, p, line, m.value, env);
        DrainNames(w, State(Take(w, s.core, p, line, m.value, env), inbox), p, env);
      }
    }
  }

  lemma StopNames(w: World, c: Conns, p: nat)
    requires p < |c.all| && AllAsNamed(w, c)
    ensures AllAsNamed(w, Stop(c, p))
  {
    forall q | 0 <= q < |c.all| ensures AsNamed(w, Stop(c, p).all[q]) {
      assert AsNamed(w, c.all[q]);
    }
  }

  lemma StepNames(w: World, s: State, e: Event)
    requires Sized(s) && CoreOk(w, s.core) && NewlineFree(w) && Enabled(s, e) && AllAsNamed(w, s.core.conns)
    ensures AllAsNamed(w, Step(w, s, e).core.conns)
  {
    if e.ReadEvent? {
      ReadNames(w, s, e.p, e.chunk, e.env);
    } else {
      var c, c' := s.core.conns, Step(w, s, e).core.conns;
      StepFollows(w, s, e);
      NewPeer(w, s, e);
      hide CoreOk, Step, AsNamed;
      forall q | 0 <= q < |c'.all| ensures AsNamed(w, c'.all[q]) {
        if q < |c.all| {
          StepSendsOwn(w, s, e, q);
          assert AsNamed(w, c.all[q]) && PeerFollows(c.all[q], c'.all[q]);
          StayedNamed(w, c.all[q], c'.all[q]);
        }
      }
    }
  }

  lemma StayedNamed(w: World, q: Conn, q': Conn)
    requires AsNamed(w, q) && OwnFrom(q, q') && PeerFollows(q, q') && q'.namespace == q.namespace && q'.handled == q.handled
    ensures AsNamed(w, q')
  {
    OwnNamed(w, q, q');
  }

  lemma ReadNames(w: World, s: State, p: nat, chunk: seq<byte>, env: nat -> Env)
    requires Sized(s) && p < |s.inbox| && CoreOk(w, s.core) && NewlineFree(w) && AllAsNamed(w, s.core.conns)
    ensures AllAsNamed(w, Read(w, s, p, chunk, env).core.conns)
  {
    hide CoreOk, AllAsNamed, Stop, Drain;
    StopNames(w, s.core.conns, p);
    if |s.inbox[p] + chunk| <= MAX_BUFFER { DrainNames(w, s.(inbox := s.inbox[p := s.inbox[p] + chunk]), p, env); }
  }

  /** An accepted peer has named nothing and was sent nothing. */
  lemma NewPeer(w: World, s: State, e: Event)
    requires Sized(s) && Enabled(s, e) && !e.ReadEvent?
    ensures forall q | |s.core.conns.all| <= q < |Step(w, s, e).core.conns.all| :: AsNamed(w, Step(w, s, e).core.conns.all[q])
  {
    hide Send, SendAll, Lists, Deliver;
  }

  lemma {:induction false} RunNames(w: World, s: State, es: seq<Event>)
    requires Sized(s) && CoreOk(w, s.core) && NewlineFree(w) && Possible(w, s, es) && AllAsNamed(w, s.core.conns)
    ensures AllAsNamed(w, Run(w, s, es).core.conns)
    decreases es
  {
    hide CoreOk, AllAsNamed, Step, Enabled;
    if es != [] {
      StepNames(w, s, es[0]);
      StepKeeps(w, s, es[0]);
      RunNames(w, Step(w, s, es[0]), es[1..]);
    }
  }

  /** After every run: a peer has the namespace its last hello named, and whatever was delivered
      to it is of a namespace that it named itself, the last one it had named at some time. */
  lemma SentAsNamed(w: World, es: seq<Event>, p: nat)
    requires NewlineFree(w) && Possible(w, START, es) && p < |Run(w, START, es).core.conns.all|
    ensures var q := Run(w, START, es).core.conns.all[p];
      && q.namespace == NamedBy(w, q.handled)
      && forall k | 0 <= k < |q.sent| && q.sent[k].origin.Some? ::
           q.sent[k].msg.namespace.Some? && exists j: nat :: j <= |q.handled| && NamedBy(w, q.handled[..j]) == q.sent[k].msg.namespace
  {
    Reachable(w, []);
    RunNames(w, START, es);
    var q := Run(w, START, es).core.conns.all[p];
    assert AsNamed(w, q);
    forall k | 0 <= k < |q.sent| && q.sent[k].origin.Some?
      ensures q.sent[k].msg.namespace.Some? && exists j: nat :: j <= |q.handled| && NamedBy(w, q.handled[..j]) == q.sent[k].msg.namespace
    {
      assert NamedFor(w, q.handled, q.sent[k]);
    }
  }

  // ---- the other end of the wire ----

  /** Whatever the chunks: the lines handled are the first n, all of them if the peer is not stopped, and if
      line k - 1 is the first to stop it, those of the chunk that completes that one. */
  lemma LinesHandled(w: World, s: State, p: nat, lines: seq<Line>, rest: seq<byte>, chunks: seq<seq<byte>>, env: nat -> Env) returns (n: nat)
    requires Sized(s) && p < |s.inbox| && s.inbox[p] == [] && Sendable(lines, rest) && Readable(w, lines)
    requires Chunked(chunks) && Flat(chunks) == Unlines(lines) + rest
    ensures n <= |lines| && var now := ReadAll(w, s, p, chunks, env).core.conns.all[p];
      now.handled == s.core.conns.all[p].handled + lines[..n] && (!now.closed ==> n == |lines|)
    ensures forall k | !s.core.conns.all[p].closed && FirstStop(w, s.core, p, lines, k, env) :: StopsAt(lines, chunks, k, n)
  {
    hide ReadAll, HandleAll, Arrived, Boundary, FirstStop, StopsAt;
    assert [] + Flat(chunks) == Flat(chunks);
    AnyChunking(w, s, p, lines, rest, chunks, env);
    HandledInChunks(w, s, p, lines, rest, chunks, env);
    n := Arrived(w, s.core, p, lines, 0, chunks, env);
    FrontAll(w, lines, n);
    forall k | !s.core.conns.all[p].closed && FirstStop(w, s.core, p, lines, k, env) ensures StopsAt(lines, chunks, k, n) {
      StopArrives(w, s.core, p, lines, rest, chunks, env, k);
    }
  }

  /** The n lines handled are those that the chunk completes that completes line k - 1. */
  ghost predicate StopsAt(lines: seq<Line>, chunks: seq<seq<byte>>, k: nat, n: nat) {
    0 < k <= n <= |lines| && (n == k <==> k == |lines| || Boundary(chunks, |Unlines(lines[..k])|) < |Unlines(lines[..k + 1])|)
  }

  lemma StopArrives(w: World, s: Core, p: nat, lines: seq<Line>, rest: seq<byte>, chunks: seq<seq<byte>>, env: nat -> Env, k: nat)
    requires p < |s.conns.all| && !s.conns.all[p].closed && FirstStop(w, s, p, lines, k, env)
    requires Flat(chunks) == Unlines(lines) + rest
    ensures StopsAt(lines, chunks, k, Arrived(w, s, p, lines, 0, chunks, env))
  {
    hide HandleAll, Arrived, Boundary;
    ArrivedAtStop(w, s, p, lines, rest, chunks, env, k);
  }

  lemma FrontAll(w: World, lines: seq<Line>, n: nat)
    requires Readable(w, lines) && n <= |lines|
    ensures lines[..n][..Front(w, lines[..n])] == lines[..n]
  {
    assert forall i | 0 <= i < n :: lines[..n][i] == lines[i];
  }

  /** The two ends of a wire. q was written to under any write schedule, and the reader r, which reads every message
      sent as what it is, gets those bytes in any chunks. Then what it handles are the first n of the messages sent:
      all of them if it is not stopped, and else up to the one that stops it and those completed by the same chunk. */
  lemma SentIsHandled(w: World, es: seq<Event>, x: nat, lines: seq<Line>, rest: seq<byte>,
                      r: World, s: State, p: nat, chunks: seq<seq<byte>>, env: nat -> Env) returns (n: nat)
    requires NewlineFree(w) && Possible(w, START, es) && x < |Run(w, START, es).core.conns.all|
    requires var q := Run(w, START, es).core.conns.all[x];
      && q.wire == Flat(chunks) == Unlines(lines) + rest
      && forall i | 0 <= i < |q.sent| :: Accepted(r, w.encode(q.sent[i].msg)) == Some(q.sent[i].msg)
    requires Sendable(lines, rest) && Chunked(chunks) && Sized(s) && p < |s.inbox| && s.inbox[p] == []
    ensures var q := Run(w, START, es).core.conns.all[x];
      var (was, now) := (s.core.conns.all[p], ReadAll(r, s, p, chunks, env).core.conns.all[p]);
      && n <= |q.sent| == |lines|
      && |now.handled| == |was.handled| + n && was.handled <= now.handled
      && (forall i | 0 <= i < n :: Accepted(r, now.handled[|was.handled| + i]) == Some(q.sent[i].msg))
      && (!now.closed ==> n == |q.sent|)
    ensures forall k | !s.core.conns.all[p].closed && FirstStop(r, s.core, p, lines, k, env) :: StopsAt(lines, chunks, k, n)
  {
    hide Run, Possible, NewlineFree, Accepted, ReadAll, FirstStop, StopsAt, Sendable, Chunked, LinesOf, Readable;
    SendableFramed(lines, rest);
    WireIsWhatWasSent(w, es, x, lines, rest);
    var q := Run(w, START, es).core.conns.all[x];
    LinesRead(w, r, q.sent);
    n := LinesHandled(r, s, p, lines, rest, chunks, env);
    SameMessages(w, r, q.sent, s.core.conns.all[p].handled, n);
  }

  lemma SendableFramed(lines: seq<Line>, rest: seq<byte>)
    requires Sendable(lines, rest)
    ensures Framed(lines) && NEWLINE !in rest
  {}

  lemma LinesRead(w: World, r: World, sent: seq<Sent>)
    requires forall i | 0 <= i < |sent| :: Accepted(r, w.encode(sent[i].msg)) == Some(sent[i].msg)
    ensures |LinesOf(w, sent)| == |sent| && Readable(r, LinesOf(w, sent))
  {
    assert forall i | 0 <= i < |sent| :: LinesOf(w, sent)[i] == w.encode(sent[i].msg);
  }

  lemma SameMessages(w: World, r: World, sent: seq<Sent>, handled: seq<Line>, n: nat)
    requires forall i | 0 <= i < |sent| :: Accepted(r, w.encode(sent[i].msg)) == Some(sent[i].msg)
    requires |LinesOf(w, sent)| == |sent| && n <= |sent|
    ensures var now := handled + LinesOf(w, sent)[..n];
      |now| == |handled| + n && handled <= now && forall i | 0 <= i < n :: Accepted(r, now[|handled| + i]) == Some(sent[i].msg)
  {
    assert forall i | 0 <= i < |sent| :: LinesOf(w, sent)[i] == w.encode(sent[i].msg);
  }
}
