/** The broker's guarantees over whole runs, and where it falls short of what a reader would expect. */
module BrokerTheorems {
  import opened Lines
  import opened Options
  import opened BrokerModel
  import opened BrokerInvariants
  import opened BrokerQueues
  import opened BrokerNotes
  import opened BrokerRuns
  import opened BrokerHistory
  import opened BrokerWire

  // ---- conservation ----

  /** In every reachable state each delivered message has one fate. It waits exactly if it is in the queue of its
      namespace; it was flushed to a peer only if that peer got it; and a peer got it only directly or by that flush. */
  lemma Conservation(w: World, es: seq<Event>)
    requires NewlineFree(w) && Possible(w, START, es)
    ensures var (c, h) := (Run(w, START, es).core.conns, Run(w, START, es).core.hold);
      && |h.fates| == |h.log|
      && (forall k | 0 <= k < |h.log| ::
            h.log[k].namespace.Some? && (h.fates[k] == Waiting <==> Contains(Queue(h, h.log[k].namespace.value), k)))
      && (forall k | 0 <= k < |h.log| && h.fates[k].Flushed? :: h.fates[k].peer < |c.all| && Got(c.all[h.fates[k].peer], k))
      && (forall p, i | 0 <= p < |c.all| && 0 <= i < |c.all[p].sent| && c.all[p].sent[i].origin.Some? ::
            var k := c.all[p].sent[i].origin.value.0;
            k < |h.log| && h.log[k] == c.all[p].sent[i].msg && h.fates[k] in {Direct, Flushed(p)})
  {
    Reachable(w, es);
    var (c, h) := (Run(w, START, es).core.conns, Run(w, START, es).core.hold);
    forall k | 0 <= k < |h.log|
      ensures h.log[k].namespace.Some? && (h.fates[k] == Waiting <==> Contains(Queue(h, h.log[k].namespace.value), k))
    {
      assert Placed(h, k);
      if Contains(Queue(h, h.log[k].namespace.value), k) { Named(h, h.log[k].namespace.value, k); }
    }
    forall p, i | 0 <= p < |c.all| && 0 <= i < |c.all[p].sent| && c.all[p].sent[i].origin.Some?
      ensures var k := c.all[p].sent[i].origin.value.0;
        k < |h.log| && h.log[k] == c.all[p].sent[i].msg && h.fates[k] in {Direct, Flushed(p)}
    {
      assert ReceiptsOk(h, p, c.all[p]);
      assert SentOk(h, p, c.all[p].sent[i]);
    }
  }

  /** A message leaves its queue once: whatever fate it has when it no longer waits, it has for good. */
  lemma FateIsFinal(w: World, s: State, es: seq<Event>, k: nat)
    requires Sized(s) && CoreOk(w, s.core) && NewlineFree(w) && Possible(w, s, es)
    requires k < |s.core.hold.log| && s.core.hold.fates[k] != Waiting
    ensures var h := Run(w, s, es).core.hold; k < |h.log| == |h.fates| && h.fates[k] == s.core.hold.fates[k] && h.log[k] == s.core.hold.log[k]
  {
    RunFollows(w, s, es);
  }

  /** What a peer receives of one namespace is in the order of delivery, each message at most
      once, and each was delivered to that namespace. */
  lemma InDeliveryOrder(w: World, es: seq<Event>, p: nat, i: nat, j: nat)
    requires NewlineFree(w) && Possible(w, START, es)
    requires var c := Run(w, START, es).core.conns; p < |c.all| && i < j < |c.all[p].sent|
    requires var sent := Run(w, START, es).core.conns.all[p].sent;
      sent[i].origin.Some? && sent[j].origin.Some? && sent[i].origin.value.1 == sent[j].origin.value.1
    ensures var (sent, log) := (Run(w, START, es).core.conns.all[p].sent, Run(w, START, es).core.hold.log);
      var (a, b) := (sent[i].origin.value.0, sent[j].origin.value.0);
      && a < b < |log| && sent[i].msg == log[a] && sent[j].msg == log[b]
      && sent[i].msg.namespace == Some(sent[i].origin.value.1) && sent[j].msg.namespace == Some(sent[j].origin.value.1)
  {
    Reachable(w, es);
    var (c, h) := (Run(w, START, es).core.conns, Run(w, START, es).core.hold);
    assert ReceiptsOk(h, p, c.all[p]);
    assert SentOk(h, p, c.all[p].sent[i]) && SentOk(h, p, c.all[p].sent[j]) && InOrder(c.all[p].sent[i], c.all[p].sent[j]);
  }

  /** No connected peer's namespace has a queue; queues hold one to sixteen messages and are at most 64. */
  lemma QueueBounds(w: World, es: seq<Event>)
    requires NewlineFree(w) && Possible(w, START, es)
    ensures var (c, h) := (Run(w, START, es).core.conns, Run(w, START, es).core.hold);
      && |h.pending| <= MAX_QUEUES && (forall ns | ns in h.pending :: 0 < |h.pending[ns]| <= MAX_HELD)
      && (forall fd | fd in c.table :: c.table[fd] < |c.all|
            && (c.all[c.table[fd]].namespace.Some? ==> c.all[c.table[fd]].namespace.value !in h.pending))
  {
    Reachable(w, es);
    assert forall ns | ns in Run(w, START, es).core.hold.pending :: QueueOk(Run(w, START, es).core.hold, ns, Run(w, START, es).core.hold.pending[ns]);
  }

  /** Delivering to connected peers attempts the message once on each and touches nobody else. */
  lemma DeliverReaches(w: World, s: Core, m: Message, ns: string, order: seq<nat>, now: real, writes: nat -> Writes, connect: Connect, q: nat)
    requires CoreOk(w, s) && NewlineFree(w) && m.namespace == Some(ns) && Lists(order, s.conns, ns) && order != [] && q < |s.conns.all|
    ensures var r := Deliver(w, s, m, order, now, writes, connect);
      && r.hold == Logged(s.hold, m, Direct)
      && if Recipient(s.conns, ns, q)
         then r.conns.all[q].sent == (if r.conns.all[q].closed then s.conns.all[q].sent
                                      else s.conns.all[q].sent + [Sent(m, Some((|s.hold.log|, ns)))])
         else r.conns.all[q] == s.conns.all[q]
  {
    SendAllAttempts(w, s.conns, order, Sent(m, Some((|s.hold.log|, ns))), writes, 0);
    assert order[0..] == order;
    assert q in order <==> Recipient(s.conns, ns, q);
    assert q in order ==> Attempted(s.conns, SendAll(w, s.conns, order, Sent(m, Some((|s.hold.log|, ns))), writes, 0), q,
                                    Sent(m, Some((|s.hold.log|, ns))));
  }

  lemma {:induction false} DrainLogs(w: World, s: State, p: nat, env: nat -> Env)
    requires Sized(s) && p < |s.inbox|
    ensures Drain(w, s, p, env).core.hold.log == s.core.hold.log
    decreases |s.inbox[p]|
  {
    DrainUnfolds(w, s, p, env);
    var i := FindNewline(s.inbox[p]);
    if i != -1 && Accepted(w, s.inbox[p][..i]).Some? {
      var m := Accepted(w, s.inbox[p][..i]).value;
      HandleLogs(w, Note(s.core, p, s.inbox[p][..i]), p, m, env(|s.core.conns.all[p].handled|));
      hide Handle, Drain;
      DrainLogs(w, State(Take(w, s.core, p, s.inbox[p][..i], m, env), s.inbox[p := s.inbox[p][i + 1..]]), p, env);
    }
  }

  lemma HandleLogs(w: World, s: Core, p: nat, m: Message, env: Env)
    requires p < |s.conns.all|
    ensures Handle(w, s, p, m, env).hold.log == s.hold.log
  {
    hide Flush;
  }

  /** Only a delivery extends the log, by the message delivered. */
  lemma StepLogs(w: World, s: State, e: Event)
    requires Sized(s) && Enabled(s, e)
    ensures Step(w, s, e).core.hold.log ==
            s.core.hold.log + if e.DeliverEvent? && e.m.namespace.Some? then [e.m] else []
  {
    hide SendAll, Lists, Drain, Send, Settle;
    assert s.core.hold.log + [] == s.core.hold.log;
    if e.ReadEvent? && e.chunk != [] {
      DrainLogs(w, s.(inbox := s.inbox[e.p := s.inbox[e.p] + e.chunk]), e.p, e.env);
    }
  }

  /** Peer p has namespace ns before and after every event of the run. */
  ghost predicate Keeps(w: World, s: State, es: seq<Event>, p: nat, ns: string)
    requires Sized(s) && Possible(w, s, es)
    decreases es
  {
    && p < |s.core.conns.all| && s.core.conns.all[p].namespace == Some(ns)
    && (es == [] || Keeps(w, Step(w, s, es[0]), es[1..], p, ns))
  }

  lemma DeliveryReached(w: World, s: State, e: Event, p: nat, ns: string)
    requires Sized(s) && CoreOk(w, s.core) && NewlineFree(w) && Enabled(s, e)
    requires e.DeliverEvent? && e.m.namespace == Some(ns)
    requires p < |s.core.conns.all| && !s.core.conns.all[p].closed && s.core.conns.all[p].namespace == Some(ns)
    ensures var q := Step(w, s, e).core.conns.all[p];
      q.closed || Got(q, |s.core.hold.log|)
  {
    var c := s.core.conns;
    assert c.all[p].fd in c.table && c.table[c.all[p].fd] == p;
    assert Recipient(c, ns, p) && p in e.order;
    DeliverReaches(w, s.core, e.m, ns, e.order, e.now, e.sends, e.connect, p);
    hide Deliver, CoreOk;
    var q := Step(w, s, e).core.conns.all[p];
    assert !q.closed ==> q.sent[|c.all[p].sent|].origin == Some((|s.core.hold.log|, ns));
  }

  /** An open peer misses nothing: whatever is delivered to its namespace
      while it has that namespace, it has got if it is open afterwards. */
  lemma {:induction false} NothingMissed(w: World, s: State, es: seq<Event>, p: nat, ns: string, k: nat)
    requires Sized(s) && CoreOk(w, s.core) && NewlineFree(w) && Possible(w, s, es) && Keeps(w, s, es, p, ns)
    requires p < |Run(w, s, es).core.conns.all| && !Run(w, s, es).core.conns.all[p].closed
    requires |s.core.hold.log| <= k < |Run(w, s, es).core.hold.log| && Run(w, s, es).core.hold.log[k].namespace == Some(ns)
    ensures Got(Run(w, s, es).core.conns.all[p], k)
    decreases es
  {
    hide CoreOk;
    if es != [] {
      var s1 := Step(w, s, es[0]);
      StepKeeps(w, s, es[0]);
      RunFollows(w, s, es);
      RunFollows(w, s1, es[1..]);
      StepLogs(w, s, es[0]);
      hide Step, Enabled, PeerFollows;
      StaysGot(s1.core, Run(w, s, es).core, p, k);
      StaysGot(s.core, Run(w, s, es).core, p, k);
      if k < |s1.core.hold.log| {
        DeliveryReached(w, s, es[0], p, ns);
      } else {
        NothingMissed(w, s1, es[1..], p, ns, k);
      }
    }
  }

  /** What was open or got later was open before, and is got for good. */
  lemma StaysGot(s: Core, s': Core, p: nat, k: nat)
    requires Follows(s, s') && p < |s.conns.all|
    ensures !s'.conns.all[p].closed ==> !s.conns.all[p].closed
    ensures Got(s.conns.all[p], k) ==> Got(s'.conns.all[p], k)
    ensures s.hold.log <= s'.hold.log
  {
    assert PeerFollows(s.conns.all[p], s'.conns.all[p]);
    if Got(s.conns.all[p], k) {
      var i :| 0 <= i < |s.conns.all[p].sent| && s.conns.all[p].sent[i].origin.Some? && s.conns.all[p].sent[i].origin.value.0 == k;
      assert s'.conns.all[p].sent[i] == s.conns.all[p].sent[i];
    }
  }

  /** What delivering to an absent daemon does to every message, new and old. */
  ghost function FateAfterQueueing(w: World, s: Core, ns: string, connect: Connect, k: nat): Fate
    requires |s.hold.fates| == |s.hold.log| && k <= |s.hold.log|
  {
    var h := s.hold;
    var refused := WakeRefused(w, s.sockets, ns, connect);
    if k == |h.log| then (if refused then Refused else Waiting)
    else if h.fates[k] != Waiting then h.fates[k]
    else if |h.pending| >= MAX_QUEUES then Overflowed
    else if h.log[k].namespace != Some(ns) then Waiting
    else if |Queue(h, ns)| == MAX_HELD && Queue(h, ns)[0].serial == k then Evicted
    else if refused then Refused else Waiting
  }

  lemma QueueingFates(w: World, s: Core, m: Message, ns: string, now: real, writes: nat -> Writes, connect: Connect, k: nat)
    requires CoreOk(w, s) && m.namespace == Some(ns) && k <= |s.hold.log|
    ensures var h' := Deliver(w, s, m, [], now, writes, connect).hold;
      |h'.fates| == |s.hold.log| + 1 && h'.fates[k] == FateAfterQueueing(w, s, ns, connect, k)
  {
    RoomMade(s.hold);
    JoiningFates(w, MakeRoom(s.hold), s.sockets, m, ns, now, connect, k);
  }

  /** The same, once there is room. */
  lemma JoiningFates(w: World, h: Hold, sockets: map<string, string>, m: Message, ns: string, now: real, connect: Connect, k: nat)
    requires HoldOk(h) && m.namespace == Some(ns) && k <= |h.log|
    ensures var h' := Wake(w, Enqueue(Logged(h, m, Waiting), ns, Held(now, |h.log|, m)), sockets, ns, connect);
      var refused := WakeRefused(w, sockets, ns, connect);
      && |h'.fates| == |h.log| + 1
      && h'.fates[k] ==
           if k == |h.log| then (if refused then Refused else Waiting)
           else if h.fates[k] != Waiting then h.fates[k]
           else if h.log[k].namespace != Some(ns) then Waiting
           else if |Queue(h, ns)| == MAX_HELD && Queue(h, ns)[0].serial == k then Evicted
           else if refused then Refused else Waiting
  {
    var front, item := Queue(h, ns), Held(now, |h.log|, m);
    if Contains(front, |h.log|) { Named(h, ns, |h.log|); }
    if Contains(front, k) { Named(h, ns, k); }
    if k < |h.log| { assert Placed(h, k); }
    EvictedIs(front, item, k);
    RestIs(front, item, k);
  }

  /** Only the oldest of sixteen makes room for a seventeenth ... */
  lemma EvictedIs(front: seq<Held>, item: Held, k: nat)
    requires |front| <= MAX_HELD
    ensures var q := front + [item];
      Contains(q[..Excess(q)], k) <==> |front| == MAX_HELD && front[0].serial == k
  {}

  /** ... and the queue keeps the others and the newcomer. */
  lemma RestIs(front: seq<Held>, item: Held, k: nat)
    requires |front| <= MAX_HELD && Increasing(front)
    ensures var q := front + [item];
      Contains(q[Excess(q)..], k) <==>
        k == item.serial || (Contains(front, k) && !(|front| == MAX_HELD && front[0].serial == k))
  {
    var q := front + [item];
    if |front| < MAX_HELD {
      assert q[0..] == q && q[..|q| - 1] == front;
    } else {
      var tail := front[1..];
      assert q[1..] == tail + [item] && (tail + [item])[..|tail|] == tail;
      assert [front[0]] + tail == front && [front[0]][..0] == [];
      Joint([front[0]], tail, k);
      if Contains(tail, k) {
        var j := Where(tail, k);
        assert front[0].serial < front[1 + j].serial;
      }
    }
  }

  // ---- hello ----

  /** A hello settles its namespace's queue item by item and nothing else: an item older than thirty seconds expires, the
      others reach the peer in order until the writes of one fall short, and that one and those after it are lost. A
      stopped peer gets none. */
  lemma HelloSettles(w: World, s: Core, p: nat, m: Message, env: Env, ns: string)
    requires CoreOk(w, s) && NewlineFree(w) && p < |s.conns.all| && m.namespace == Some(ns) && IsNamespace(ns)
    ensures var r := Hello(w, s, p, m, env);
      var items := Queue(s.hold, ns);
      var cut := CutOf(w, s, p, items, env);
      && r.hold.pending == s.hold.pending - {ns} && |r.hold.fates| == |s.hold.fates|
      && (forall i | 0 <= i < |items| :: items[i].serial < |r.hold.fates|
            && r.hold.fates[items[i].serial] == FlushFate(items, env, p, cut, i))
      && (r.conns.all[p].closed <==> s.conns.all[p].closed || cut < |items|)
      && (forall k | 0 <= k < |s.hold.fates| && !Contains(items, k) :: r.hold.fates[k] == s.hold.fates[k])
      && r.conns.all[p].sent == s.conns.all[p].sent + Kept(items, ns, r.hold.fates, p, 0)
      && (forall q | 0 <= q < |s.conns.all| && q != p :: r.conns.all[q] == s.conns.all[q])
  {
    hide CutOf, FlushFate, Kept;
    HelloIs(w, s, p, m, env, ns);
    QueueIs(w, s, ns);
    hide CoreOk, Hello;
    FlushSettles(w, s.conns.(all := s.conns.all[p := s.conns.all[p].(namespace := Some(ns))]), s.hold.fates, p, Queue(s.hold, ns), ns, env,
                 CutOf(w, s, p, Queue(s.hold, ns), env));
  }

  /** The first item that does not reach the peer although it is recent. */
  function CutOf(w: World, s: Core, p: nat, items: seq<Held>, env: Env): (k: nat)
    requires p < |s.conns.all|
    ensures k <= |items| && (if s.conns.all[p].closed then k == 0 else k == FirstFall(w, items, env, 0))
  {
    if s.conns.all[p].closed then 0 else FirstFall(w, items, env, 0)
  }

  lemma HelloIs(w: World, s: Core, p: nat, m: Message, env: Env, ns: string)
    requires p < |s.conns.all| && m.namespace == Some(ns) && IsNamespace(ns)
    ensures var r := Hello(w, s, p, m, env);
      var c1 := s.conns.(all := s.conns.all[p := s.conns.all[p].(namespace := Some(ns))]);
      (r.conns, r.hold.fates) == Flush(w, c1, s.hold.fates, p, Queue(s.hold, ns), ns, env, 0)
      && r.hold.pending == s.hold.pending - {ns}
  {
    hide Flush;
  }

  lemma QueueIs(w: World, s: Core, ns: string)
    requires CoreOk(w, s)
    ensures Increasing(Queue(s.hold, ns)) && forall i | 0 <= i < |Queue(s.hold, ns)| :: Queue(s.hold, ns)[i].serial < |s.hold.fates|
    ensures forall p | 0 <= p < |s.conns.all| :: WireOk(w, s.conns.all[p])
  {}

  /** What the flush does, for the queue from its front. */
  lemma FlushSettles(w: World, c: Conns, fates: seq<Fate>, p: nat, items: seq<Held>, ns: string, env: Env, cut: nat)
    requires NewlineFree(w) && p < |c.all| && WireOk(w, c.all[p]) && Increasing(items)
    requires forall i | 0 <= i < |items| :: items[i].serial < |fates|
    requires if c.all[p].closed then cut == 0 else cut == FirstFall(w, items, env, 0)
    ensures var (c', f') := Flush(w, c, fates, p, items, ns, env, 0);
      && (forall i | 0 <= i < |items| :: f'[items[i].serial] == FlushFate(items, env, p, cut, i))
      && (c'.all[p].closed <==> c.all[p].closed || cut < |items|)
      && (forall k | 0 <= k < |fates| && !Contains(items, k) :: f'[k] == fates[k])
      && c'.all[p].sent == c.all[p].sent + Kept(items, ns, f', p, 0)
      && (forall q | 0 <= q < |c.all| && q != p :: c'.all[q] == c.all[q])
  {
    hide Flush, FlushFate, Kept, FateOf, WireOk;
    FlushFates(w, c, fates, p, items, ns, env, 0);
    FlushCut(w, c, fates, p, items, ns, env, 0, cut);
    FlushSends(w, c, fates, p, items, ns, env, 0);
    FlushTouches(w, c, fates, p, items, ns, env, 0);
    NotContained(items, fates, Flush(w, c, fates, p, items, ns, env, 0).1);
  }

  /** A fate unchanged for every serial not in the queue is unchanged wherever the queue does not contain it. */
  lemma NotContained(items: seq<Held>, was: seq<Fate>, now: seq<Fate>)
    requires |now| == |was|
    requires forall k | 0 <= k < |was| && (forall j | 0 <= j < |items| :: items[j].serial != k) :: now[k] == was[k]
    ensures forall k | 0 <= k < |was| && !Contains(items, k) :: now[k] == was[k]
  {}

  /** A connected peer that repeats its hello gets nothing and changes no queue. */
  lemma RepeatedHello(w: World, s: Core, p: nat, m: Message, env: Env, ns: string)
    requires CoreOk(w, s) && p < |s.conns.all| && !s.conns.all[p].closed
    requires s.conns.all[p].namespace == Some(ns) && m.namespace == Some(ns)
    ensures Hello(w, s, p, m, env).conns == s.conns && Hello(w, s, p, m, env).hold == s.hold
  {
    assert ns !in s.hold.pending;
    assert s.conns.all[p := s.conns.all[p].(namespace := Some(ns))] == s.conns.all;
    assert s.hold.pending - {ns} == s.hold.pending;
  }

  /** A hello that a stopped peer left in its buffer empties the queue of its namespace and sends nothing. */
  lemma StoppedHelloDrains(w: World, s: Core, p: nat, m: Message, env: Env, ns: string)
    requires CoreOk(w, s) && NewlineFree(w) && p < |s.conns.all| && s.conns.all[p].closed
    requires m.namespace == Some(ns) && IsNamespace(ns)
    ensures var r := Hello(w, s, p, m, env);
      && ns !in r.hold.pending && r.conns.table == s.conns.table
      && r.conns.all[p] == s.conns.all[p].(namespace := Some(ns))
      && forall k | 0 <= k < |s.hold.log| && Contains(Queue(s.hold, ns), k) :: r.hold.fates[k] in {Expired, Lost(p)}
  {
    var items := Queue(s.hold, ns);
    var c1 := s.conns.(all := s.conns.all[p := s.conns.all[p].(namespace := Some(ns))]);
    FlushClosed(w, c1, s.hold.fates, p, items, ns, env, 0);
    FlushFates(w, c1, s.hold.fates, p, items, ns, env, 0);
    forall k | 0 <= k < |s.hold.log| && Contains(items, k)
      ensures Hello(w, s, p, m, env).hold.fates[k] in {Expired, Lost(p)}
    {
      var i := Where(items, k);
      assert FateOf(c1, c1, p, items[i], env, i, Hello(w, s, p, m, env).hold.fates[k]);
    }
  }

  /** So the chunks can decide what becomes of a queue. A line that is rejected and a hello after it: read in one
      chunk, the hello is handled and the queue is emptied unsent; read in two, the hello is never handled. */
  lemma RejectThenHello(w: World, s: State, p: nat, bad: Line, hello: Line, ns: string, env: nat -> Env)
    requires Sized(s) && CoreOk(w, s.core) && NewlineFree(w) && p < |s.inbox|
    requires !s.core.conns.all[p].closed && s.inbox[p] == []
    requires NEWLINE !in bad && NEWLINE !in hello && |bad| + |hello| + 2 <= CHUNK
    requires Accepted(w, bad).Some? && Accepted(w, bad).value.kind !in {"hello", "status", "quit-if-idle", "authorize", "show", "close"}
    requires Accepted(w, hello).Some? && Accepted(w, hello).value.kind == "hello"
    requires Accepted(w, hello).value.namespace == Some(ns) && IsNamespace(ns) && ns in s.core.hold.pending
    ensures var one := ReadAll(w, s, p, [bad + [NEWLINE] + hello + [NEWLINE]], env).core;
      var two := ReadAll(w, s, p, [bad + [NEWLINE], hello + [NEWLINE]], env).core;
      && two.hold == s.core.hold && two.conns.all[p].closed
      && ns !in one.hold.pending && one.conns.all[p].wire == s.core.conns.all[p].wire
  {
    var b, m := Accepted(w, bad).value, Accepted(w, hello).value;
    var s1 := Take(w, s.core, p, bad, b, env);
    assert s1.conns == Stop(Note(s.core, p, bad).conns, p);
    NoteKeeps(w, s.core, p, bad);
    HandleKeeps(w, Note(s.core, p, bad), p, b, env(|s.core.conns.all[p].handled|));
    NoteKeeps(w, s1, p, hello);
    StoppedHelloDrains(w, Note(s1, p, hello), p, m, env(|s1.conns.all[p].handled|), ns);
    hide CoreOk;
    OneLineRead(w, s, p, bad, hello, env);
    TwoLinesRead(w, s, p, bad, hello, env);
  }

  lemma OneLineRead(w: World, s: State, p: nat, a: Line, b: Line, env: nat -> Env)
    requires Sized(s) && p < |s.inbox| && !s.core.conns.all[p].closed && s.inbox[p] == []
    requires NEWLINE !in a && |a| + 1 <= CHUNK && Accepted(w, a).Some?
    requires Take(w, s.core, p, a, Accepted(w, a).value, env).conns.all[p].closed
    ensures ReadAll(w, s, p, [a + [NEWLINE], b + [NEWLINE]], env).core == Take(w, s.core, p, a, Accepted(w, a).value, env)
  {
    hide Take, HandleAll, Drain, Unlines;
    var chunk := a + [NEWLINE];
    UnlinesOne(a);
    assert Unlines([a]) + [] == chunk;
    DrainLines(w, s.(inbox := s.inbox[p := chunk]), p, [a], [], env);
    HandlesOne(w, s.core, p, a, env);
    FirstRead(w, s, p, chunk, b + [NEWLINE], env);
  }

  /** A first chunk that stops the peer is the last one read. */
  lemma FirstRead(w: World, s: State, p: nat, chunk: seq<byte>, next: seq<byte>, env: nat -> Env)
    requires Sized(s) && p < |s.inbox| && !s.core.conns.all[p].closed && s.inbox[p] == [] && 0 < |chunk| <= CHUNK
    requires Drain(w, s.(inbox := s.inbox[p := chunk]), p, env).core.conns.all[p].closed
    ensures ReadAll(w, s, p, [chunk, next], env) == Drain(w, s.(inbox := s.inbox[p := chunk]), p, env)
  {
    hide Drain;
    assert [] + chunk == chunk && [chunk, next][1..] == [next];
  }

  lemma TwoLinesRead(w: World, s: State, p: nat, a: Line, b: Line, env: nat -> Env)
    requires Sized(s) && p < |s.inbox| && !s.core.conns.all[p].closed && s.inbox[p] == []
    requires NEWLINE !in a && NEWLINE !in b && |a| + |b| + 2 <= CHUNK && Accepted(w, a).Some? && Accepted(w, b).Some?
    ensures ReadAll(w, s, p, [a + [NEWLINE] + b + [NEWLINE]], env).core
         == Take(w, Take(w, s.core, p, a, Accepted(w, a).value, env), p, b, Accepted(w, b).value, env)
  {
    hide Take, ReadAll, HandleAll, Drain, Unlines;
    var chunk := a + [NEWLINE] + b + [NEWLINE];
    UnlinesOne(a);
    UnlinesSnoc([a], b);
    assert [a] + [b] == [a, b] && Unlines([a, b]) + [] == chunk;
    OneRead(w, s, p, chunk, env);
    DrainLines(w, s.(inbox := s.inbox[p := chunk]), p, [a, b], [], env);
    HandlesTwo(w, s.core, p, a, b, env);
  }

  lemma OneRead(w: World, s: State, p: nat, chunk: seq<byte>, env: nat -> Env)
    requires Sized(s) && p < |s.inbox| && !s.core.conns.all[p].closed && s.inbox[p] == [] && 0 < |chunk| <= CHUNK
    ensures ReadAll(w, s, p, [chunk], env) == Drain(w, s.(inbox := s.inbox[p := chunk]), p, env)
  {
    hide Drain;
    assert [] + chunk == chunk;
    var none: seq<seq<byte>> := [chunk][1..];
    assert |none| == 0;
  }

  lemma HandlesTwo(w: World, s: Core, p: nat, a: Line, b: Line, env: nat -> Env)
    requires p < |s.conns.all| && Accepted(w, a).Some? && Accepted(w, b).Some?
    ensures HandleAll(w, s, p, [a, b], env)
         == Take(w, Take(w, s, p, a, Accepted(w, a).value, env), p, b, Accepted(w, b).value, env)
  {
    hide Take;
    assert [a, b][1..] == [b];
    HandlesOne(w, Take(w, s, p, a, Accepted(w, a).value, env), p, b, env);
  }

  lemma HandlesOne(w: World, s: Core, p: nat, a: Line, env: nat -> Env)
    requires p < |s.conns.all| && Accepted(w, a).Some?
    ensures HandleAll(w, s, p, [a], env) == Take(w, s, p, a, Accepted(w, a).value, env)
  {}

  // ---- descriptors ----

  /** `peers[fd]` is the one open peer with that descriptor, every open peer is in the table, and the
      table has at most 64 entries, although the kernel hands descriptors out again. */
  lemma DescriptorSafety(w: World, es: seq<Event>, p: nat)
    requires NewlineFree(w) && Possible(w, START, es) && p < |Run(w, START, es).core.conns.all|
    ensures var c := Run(w, START, es).core.conns;
      && (!c.all[p].closed <==> c.all[p].fd in c.table && c.table[c.all[p].fd] == p)
      && (!c.all[p].closed ==> forall q | 0 <= q < |c.all| && q != p && c.all[q].open :: c.all[q].fd != c.all[p].fd)
      && |c.table| <= MAX_PEERS
  {
    Reachable(w, es);
  }

  /** A second `stop()`, however late, does nothing: the peer stays closed and
      whoever has its descriptor by then keeps its place in the table. */
  lemma LateStop(w: World, s: State, es: seq<Event>, p: nat)
    requires Sized(s) && CoreOk(w, s.core) && NewlineFree(w) && Possible(w, s, es)
    requires p < |s.core.conns.all| && s.core.conns.all[p].closed
    ensures var c := Run(w, s, es).core.conns;
      && p < |c.all| && c.all[p].closed && c.all[p].wire == s.core.conns.all[p].wire
      && Stop(c, p) == c && forall fd | fd in c.table :: c.table[fd] != p
  {
    RunFollows(w, s, es);
    RunKeeps(w, s, es);
    assert PeerFollows(s.core.conns.all[p], Run(w, s, es).core.conns.all[p]);
  }

  // ---- namespaces ----

  /** A message changes what is current for an identifier only if its peer holds the identifier's namespace. */
  lemma ActsOfItsNamespace(w: World, s: Core, p: nat, m: Message, env: Env)
    requires p < |s.conns.all|
    ensures var hist := Handle(w, s, p, m, env).notes.hist;
      hist == s.notes.hist || (exists a :: hist == s.notes.hist + [a] && Some(a.ns) == s.conns.all[p].namespace)
  {
    var ns := s.conns.all[p].namespace;
    if m.kind == "show" && ns.Some? && m.namespace == ns && m.notice.Some? {
      assert Handle(w, s, p, m, env).notes.hist == s.notes.hist + [Shown(ns.value, m.notice.value.id, |s.notes.shows|)];
    } else if m.kind == "close" && ns.Some? && m.namespace == ns && m.id.Some? {
      assert Handle(w, s, p, m, env).notes.hist == s.notes.hist + [Closed(ns.value, m.id.value)];
    }
  }

  /** The generation kept under the string `ns:id` is unchanged by any run in which
      nothing concerning that namespace and that id was handled. */
  lemma Isolation(w: World, s: State, es: seq<Event>, ns: string, id: string)
    requires Sized(s) && CoreOk(w, s.core) && NewlineFree(w) && Possible(w, s, es) && IsNamespace(ns)
    requires var (h, h') := (s.core.notes.hist, Run(w, s, es).core.notes.hist);
      forall i | |h| <= i < |h'| :: !Concerns(h'[i], ns, id)
    ensures Lookup(Run(w, s, es).core.notes.generations, Ident(ns, id)) == Lookup(s.core.notes.generations, Ident(ns, id))
  {
    RunFollows(w, s, es);
    RunKeeps(w, s, es);
    var (h, h') := (s.core.notes.hist, Run(w, s, es).core.notes.hist);
    LatestUnconcerned(h, h', ns, id);
    assert Latest(h, ns, id) == Latest(h', ns, id);
  }

  lemma {:induction false} LatestUnconcerned(h: seq<Act>, h': seq<Act>, ns: string, id: string)
    requires h <= h' && forall i | |h| <= i < |h'| :: !Concerns(h'[i], ns, id)
    ensures Latest(h', ns, id) == Latest(h, ns, id)
    decreases |h'|
  {
    if |h| < |h'| {
      LatestUnconcerned(h, h'[..|h'| - 1], ns, id);
    } else {
      assert h == h';
    }
  }

  // ---- one namespace at a time ----

  /** No peer that has namespace ns has a show or a close handled among these lines. */
  ghost predicate QuietDrain(w: World, s: State, p: nat, env: nat -> Env, ns: string)
    requires Sized(s) && p < |s.inbox|
    decreases |s.inbox[p]|
  {
    var i := FindNewline(s.inbox[p]);
    i != -1 && Accepted(w, s.inbox[p][..i]).Some? ==>
      var m := Accepted(w, s.inbox[p][..i]).value;
      && (s.core.conns.all[p].namespace == Some(ns) ==> m.kind != "show" && m.kind != "close")
      && QuietDrain(w, State(Take(w, s.core, p, s.inbox[p][..i], m, env), s.inbox[p := s.inbox[p][i + 1..]]), p, env, ns)
  }

  ghost predicate QuietStep(w: World, s: State, e: Event, ns: string)
    requires Sized(s) && Enabled(s, e)
  {
    e.ReadEvent? && e.chunk != [] && |s.inbox[e.p]| + |e.chunk| <= MAX_BUFFER ==>
      QuietDrain(w, s.(inbox := s.inbox[e.p := s.inbox[e.p] + e.chunk]), e.p, e.env, ns)
  }

  ghost predicate Quiet(w: World, s: State, es: seq<Event>, ns: string)
    requires Sized(s) && Possible(w, s, es)
    decreases es
  {
    es == [] || (QuietStep(w, s, es[0], ns) && Quiet(w, Step(w, s, es[0]), es[1..], ns))
  }

  /** The history grew by nothing that changes what is current in namespace ns. */
  ghost predicate Untouched(h: seq<Act>, h': seq<Act>, ns: string) {
    h <= h' && forall i | |h| <= i < |h'| :: (h'[i].Shown? || h'[i].Closed?) ==> h'[i].ns != ns
  }

  lemma UntouchedTwice(a: seq<Act>, b: seq<Act>, c: seq<Act>, ns: string)
    requires Untouched(a, b, ns) && Untouched(b, c, ns)
    ensures Untouched(a, c, ns)
  {}

  lemma TakeUntouched(w: World, s: Core, p: nat, line: Line, m: Message, env: nat -> Env, ns: string)
    requires p < |s.conns.all| && (s.conns.all[p].namespace == Some(ns) ==> m.kind != "show" && m.kind != "close")
    ensures Untouched(s.notes.hist, Take(w, s, p, line, m, env).notes.hist, ns)
  {
    hide Flush, Send;
  }

  lemma UntouchedSelf(hist: seq<Act>, ns: string)
    ensures Untouched(hist, hist, ns)
  {}

  lemma {:induction false} DrainUntouched(w: World, s: State, p: nat, env: nat -> Env, ns: string)
    requires Sized(s) && p < |s.inbox| && QuietDrain(w, s, p, env, ns)
    ensures Untouched(s.core.notes.hist, Drain(w, s, p, env).core.notes.hist, ns)
    decreases |s.inbox[p]|
  {
    hide Take, Drain, Untouched, Accepted;
    DrainUnfolds(w, s, p, env);
    UntouchedSelf(s.core.notes.hist, ns);
    var i := FindNewline(s.inbox[p]);
    if i != -1 && Accepted(w, s.inbox[p][..i]).Some? {
      var m := Accepted(w, s.inbox[p][..i]).value;
      var s1 := State(Take(w, s.core, p, s.inbox[p][..i], m, env), s.inbox[p := s.inbox[p][i + 1..]]);
      TakeUntouched(w, s.core, p, s.inbox[p][..i], m, env, ns);
      DrainUntouched(w, s1, p, env, ns);
      UntouchedTwice(s.core.notes.hist, s1.core.notes.hist, Drain(w, s1, p, env).core.notes.hist, ns);
    }
  }

  lemma StepUntouched(w: World, s: State, e: Event, ns: string)
    requires Sized(s) && Enabled(s, e) && QuietStep(w, s, e, ns)
    ensures Untouched(s.core.notes.hist, Step(w, s, e).core.notes.hist, ns)
  {
    hide SendAll, Lists, Drain, QuietDrain, Send;
    if e.ReadEvent? && e.chunk != [] && |s.inbox[e.p]| + |e.chunk| <= MAX_BUFFER {
      DrainUntouched(w, s.(inbox := s.inbox[e.p := s.inbox[e.p] + e.chunk]), e.p, e.env, ns);
    }
  }

  lemma {:induction false} RunUntouched(w: World, s: State, es: seq<Event>, ns: string)
    requires Sized(s) && Possible(w, s, es) && Quiet(w, s, es, ns)
    ensures Untouched(s.core.notes.hist, Run(w, s, es).core.notes.hist, ns)
    decreases es
  {
    if es != [] {
      StepUntouched(w, s, es[0], ns);
      hide Step, QuietStep, Enabled;
      RunUntouched(w, Step(w, s, es[0]), es[1..], ns);
      UntouchedTwice(s.core.notes.hist, Step(w, s, es[0]).core.notes.hist, Run(w, s, es).core.notes.hist, ns);
    }
  }

  /** Namespaces are isolated: a run in which no peer of namespace ns has a show or close
      handled leaves every generation under ns as it was, whatever other peers send. */
  lemma NamespaceIsolated(w: World, s: State, es: seq<Event>, ns: string, id: string)
    requires Sized(s) && CoreOk(w, s.core) && NewlineFree(w) && Possible(w, s, es) && IsNamespace(ns) && Quiet(w, s, es, ns)
    ensures Lookup(Run(w, s, es).core.notes.generations, Ident(ns, id)) == Lookup(s.core.notes.generations, Ident(ns, id))
  {
    hide CoreOk;
    RunUntouched(w, s, es, ns);
    Isolation(w, s, es, ns, id);
  }

  /** Every post of every run is of the latest show of its identifier. */
  lemma Supersession(w: World, es: seq<Event>, i: nat)
    requires NewlineFree(w) && Possible(w, START, es)
    requires var hist := Run(w, START, es).core.notes.hist; i < |hist| && hist[i].Posted?
    ensures var hist := Run(w, START, es).core.notes.hist;
      var (ns, id, t) := (hist[i].ns, hist[i].id, hist[i].token);
      && (exists j :: CurrentSince(hist[..i], j, ns, id, t))
      && (forall j | 0 <= j < i && hist[j].Posted? && hist[j].ns == ns && hist[j].id == id :: hist[j].token < t)
      && (forall j | 0 <= j < |hist| && j != i && hist[j].Posted? :: hist[j].token != t)
  {
    Reachable(w, es);
    PostsAreCurrent(Run(w, START, es).core.notes, i);
  }

  // ---- the wire ----

  /** Whatever was written to a peer, whole or in parts: splitting it at its newlines gives exactly the messages
      sent to it, and nothing more as long as the peer is open. */
  lemma WireIsWhatWasSent(w: World, es: seq<Event>, p: nat, lines: seq<Line>, rest: seq<byte>)
    requires NewlineFree(w) && Possible(w, START, es) && p < |Run(w, START, es).core.conns.all|
    requires Framed(lines) && NEWLINE !in rest && Run(w, START, es).core.conns.all[p].wire == Unlines(lines) + rest
    ensures var q := Run(w, START, es).core.conns.all[p];
      lines == LinesOf(w, q.sent) && (!q.closed ==> rest == [])
  {
    Reachable(w, es);
    var q := Run(w, START, es).core.conns.all[p];
    assert WireOk(w, q);
    var whole := LinesOf(w, q.sent);
    var tail := q.wire[|Unlines(whole)|..];
    assert q.wire == Unlines(whole) + tail;
    UnlinesInjective(lines, rest, whole, tail);
  }

  lemma HandledAreLines(w: World, es: seq<Event>, p: nat, i: nat)
    requires NewlineFree(w) && Possible(w, START, es) && p < |Run(w, START, es).core.conns.all|
    requires i < |Run(w, START, es).core.conns.all[p].handled|
    ensures |Run(w, START, es).core.conns.all[p].handled[i]| < MAX_BUFFER
  {
    Reachable(w, es);
  }

  // ---- quitting ----

  /** The broker ends itself exactly when no connected peer has a namespace, even for a stopped peer whose request was
      still in its buffer; the peer that asked is told which of the two it was, unless it is stopped. */
  lemma QuitsOnlyIdle(w: World, s: Core, p: nat, env: Env)
    requires CoreOk(w, s) && p < |s.conns.all|
    ensures var r := QuitIfIdle(w, s, p, env);
      var idle := forall q | 0 <= q < |s.conns.all| && !s.conns.all[q].closed :: s.conns.all[q].namespace.None?;
      && (r.terminating <==> s.terminating || idle)
      && (r.conns.all[p].closed || r.conns.all[p].sent == s.conns.all[p].sent + [Sent(Status(if idle then "stopping" else "busy"), None)])
  {
    BusyIs(w, s);
    hide CoreOk, Busy;
    SendTouches(w, s.conns, p, Sent(Status(if Busy(s.conns) then "busy" else "stopping"), None), env.writes(0));
    hide Send;
  }

  /** Someone in the table has a namespace. */
  lemma BusyIs(w: World, s: Core)
    requires CoreOk(w, s)
    ensures Busy(s.conns) <==> exists q :: 0 <= q < |s.conns.all| && !s.conns.all[q].closed && s.conns.all[q].namespace.Some?
  {
    var c := s.conns;
    if Busy(c) {
      var fd :| fd in c.table && c.table[fd] < |c.all| && c.all[c.table[fd]].namespace.Some?;
      assert !c.all[c.table[fd]].closed;
    }
    forall q | 0 <= q < |c.all| && !c.all[q].closed && c.all[q].namespace.Some? ensures Busy(c) {
      assert c.all[q].fd in c.table && c.table[c.all[q].fd] == q;
    }
  }

  // ---- waking ----

  /** A socket path taken from a hello always fits a socket address, so waking the daemon it names is always tried. */
  lemma WakeIsTried(w: World, es: seq<Event>, ns: string)
    requires NewlineFree(w) && Possible(w, START, es) && ns in Run(w, START, es).core.sockets
    ensures var sockets := Run(w, START, es).core.sockets;
      WakePath(w, sockets, ns) == Some(sockets[ns]) && sockets[ns] != [] && sockets[ns][0] == '/'
  {
    Reachable(w, es);
  }
}
