/** Held messages keep the time of their delivery, and expire by it. */
module BrokerTimes {
  import opened Lines
  import opened Options
  import opened BrokerModel
  import opened BrokerInvariants
  import opened BrokerQueues
  import opened BrokerRuns
  import opened BrokerHistory
  import opened BrokerTheorems

  // ---- the queue after a delivery ----

  /** With nobody to take it and no daemon known to be off, a message joins the end of its queue with the time of its
      delivery; in front of it stands what was there, without the oldest of sixteen. With 64 queues all are emptied first. */
  lemma DeliverHolds(w: World, s: Core, m: Message, ns: string, now: real, writes: nat -> Writes, connect: Connect, other: string)
    requires CoreOk(w, s) && m.namespace == Some(ns) && other != ns
    ensures var (h, r) := (s.hold, Deliver(w, s, m, [], now, writes, connect).hold);
      var full := |h.pending| >= 64;
      var was := if full then [] else Queue(h, ns);
      && Queue(r, ns) == (if WakeRefused(w, s.sockets, ns, connect) then []
                          else (if |was| == 16 then was[1..] else was) + [Held(now, |h.log|, m)])
      && Queue(r, other) == if full then [] else Queue(h, other)
  {
    hide CoreOk, MakeRoom, Enqueue, Wake, WakeRefused, Queue, Excess;
    QueueShort(w, s, ns);
    var h, item := s.hold, Held(now, |s.hold.log|, m);
    RoomQueue(h, m, ns);
    RoomQueue(h, m, other);
    var room := Logged(MakeRoom(h), m, Waiting);
    EnqueueQueue(room, ns, item, other);
    WakeQueue(w, Enqueue(room, ns, item), s.sockets, ns, connect, other);
  }

  lemma RoomQueue(h: Hold, m: Message, ns: string)
    ensures Queue(Logged(MakeRoom(h), m, Waiting), ns) == (if |h.pending| >= 64 then [] else Queue(h, ns))
    ensures MakeRoom(h).log == h.log
  {}

  lemma EnqueueQueue(h: Hold, ns: string, item: Held, other: string)
    requires |Queue(h, ns)| <= 16 && other != ns
    ensures var (was, r) := (Queue(h, ns), Enqueue(h, ns, item));
      Queue(r, ns) == (if |was| == 16 then was[1..] else was) + [item] && Queue(r, other) == Queue(h, other)
  {
    hide Settle;
    var q := Queue(h, ns) + [item];
    assert q[0..] == q;
    if |Queue(h, ns)| == 16 { assert q[1..] == Queue(h, ns)[1..] + [item]; }
  }

  lemma WakeQueue(w: World, h: Hold, sockets: map<string, string>, ns: string, connect: Connect, other: string)
    requires other != ns
    ensures Queue(Wake(w, h, sockets, ns, connect), ns) == if WakeRefused(w, sockets, ns, connect) then [] else Queue(h, ns)
    ensures Queue(Wake(w, h, sockets, ns, connect), other) == Queue(h, other)
  {
    hide Settle, WakeRefused;
  }

  lemma QueueShort(w: World, s: Core, ns: string)
    requires CoreOk(w, s)
    ensures |Queue(s.hold, ns)| <= 16 && |s.hold.fates| == |s.hold.log|
    ensures forall i | 0 <= i < |Queue(s.hold, ns)| :: Queue(s.hold, ns)[i].serial < |s.hold.log|
  {}

  // ---- items are never changed ----

  /** What is in a queue of h' and was delivered by h is the very item of h. */
  ghost predicate SameItems(h: Hold, h': Hold) {
    forall ns, x | x in Queue(h', ns) && x.serial < |h.log| :: x in Queue(h, ns)
  }

  lemma SameTwice(a: Hold, b: Hold, c: Hold)
    requires SameItems(a, b) && SameItems(b, c) && |a.log| <= |b.log|
    ensures SameItems(a, c)
  {}

  lemma DeliverSame(w: World, s: Core, m: Message, ns: string, now: real, writes: nat -> Writes, connect: Connect)
    requires CoreOk(w, s) && m.namespace == Some(ns)
    ensures SameItems(s.hold, Deliver(w, s, m, [], now, writes, connect).hold)
  {
    hide WakeRefused, Deliver, SendAll;
    var r := Deliver(w, s, m, [], now, writes, connect).hold;
    forall other, x | x in Queue(r, other) && x.serial < |s.hold.log| ensures x in Queue(s.hold, other) {
      if other == ns {
        DeliverHolds(w, s, m, ns, now, writes, connect, ns + "'");
      } else {
        DeliverHolds(w, s, m, ns, now, writes, connect, other);
      }
    }
  }

  lemma HandleSame(w: World, s: Core, p: nat, m: Message, env: Env)
    requires p < |s.conns.all|
    ensures SameItems(s.hold, Handle(w, s, p, m, env).hold) && Handle(w, s, p, m, env).hold.log == s.hold.log
  {
    hide Send, Stop, Flush, Busy, IsNamespace, WakeableSocket;
  }

  lemma {:induction false} DrainSame(w: World, s: State, p: nat, env: nat -> Env)
    requires Sized(s) && p < |s.inbox|
    ensures SameItems(s.core.hold, Drain(w, s, p, env).core.hold) && Drain(w, s, p, env).core.hold.log == s.core.hold.log
    decreases |s.inbox[p]|
  {
    hide Handle, Stop, Drain, Accepted, SameItems;
    DrainUnfolds(w, s, p, env);
    SameSelf(s.core.hold);
    var i := FindNewline(s.inbox[p]);
    if i != -1 && Accepted(w, s.inbox[p][..i]).Some? {
      var line, m := s.inbox[p][..i], Accepted(w, s.inbox[p][..i]).value;
      var next := State(Take(w, s.core, p, line, m, env), s.inbox[p := s.inbox[p][i + 1..]]);
      HandleSame(w, Note(s.core, p, line), p, m, env(|s.core.conns.all[p].handled|));
      DrainSame(w, next, p, env);
      SameTwice(s.core.hold, next.core.hold, Drain(w, next, p, env).core.hold);
    }
  }

  lemma SameSelf(h: Hold)
    ensures SameItems(h, h)
  {}

  lemma StepSame(w: World, s: State, e: Event)
    requires Sized(s) && CoreOk(w, s.core) && NewlineFree(w) && Enabled(s, e)
    ensures SameItems(s.core.hold, Step(w, s, e).core.hold)
  {
    hide CoreOk, Drain, Send, SendAll, Lists, SameItems, MakeRoom, Enqueue, Wake, Stop;
    SameSelf(s.core.hold);
    if e.ReadEvent? && |s.inbox[e.p] + e.chunk| <= MAX_BUFFER {
      DrainSame(w, s.(inbox := s.inbox[e.p := s.inbox[e.p] + e.chunk]), e.p, e.env);
    } else if e.DeliverEvent? && e.m.namespace.Some? {
      if e.order == [] {
        DeliverSame(w, s.core, e.m, e.m.namespace.value, e.now, e.sends, e.connect);
      } else {
        LoggedSame(s.core.hold, e.m);
      }
    }
  }

  lemma LoggedSame(h: Hold, m: Message)
    ensures SameItems(h, Logged(h, m, Direct))
  {}

  lemma {:induction false} RunSame(w: World, s: State, es: seq<Event>)
    requires Sized(s) && CoreOk(w, s.core) && NewlineFree(w) && Possible(w, s, es)
    ensures SameItems(s.core.hold, Run(w, s, es).core.hold)
    decreases es
  {
    hide CoreOk, SameItems, Step, Enabled;
    SameSelf(s.core.hold);
    if es != [] {
      StepSame(w, s, es[0]);
      StepKeeps(w, s, es[0]);
      LogGrows(w, s, es[0]);
      RunSame(w, Step(w, s, es[0]), es[1..]);
      SameTwice(s.core.hold, Step(w, s, es[0]).core.hold, Run(w, s, es).core.hold);
    }
  }

  lemma LogGrows(w: World, s: State, e: Event)
    requires Sized(s) && CoreOk(w, s.core) && NewlineFree(w) && Enabled(s, e)
    ensures |s.core.hold.log| <= |Step(w, s, e).core.hold.log|
  {
    StepFollows(w, s, e);
  }

  // ---- expiry ----

  /** A message still waiting is the item that its delivery put into the queue. */
  lemma WaitsAs(w: World, s: Core, was: Hold, ns: string, item: Held) returns (i: nat)
    requires CoreOk(w, s) && SameItems(was, s.hold) && item.serial < |was.log| <= |s.hold.log|
    requires s.hold.fates[item.serial] == Waiting && s.hold.log[item.serial].namespace == Some(ns)
    requires forall x | x in Queue(was, ns) && x.serial == item.serial :: x == item
    ensures i < |Queue(s.hold, ns)| && Queue(s.hold, ns)[i] == item
  {
    assert Placed(s.hold, item.serial);
    i := Where(Queue(s.hold, ns), item.serial);
    assert Queue(s.hold, ns)[i] in Queue(s.hold, ns);
  }

  lemma OnlyLast(w: World, s: Core, m: Message, ns: string, now: real, writes: nat -> Writes, connect: Connect)
    requires CoreOk(w, s) && m.namespace == Some(ns)
    ensures forall x | x in Queue(Deliver(w, s, m, [], now, writes, connect).hold, ns) && x.serial == |s.hold.log| ::
      x == Held(now, |s.hold.log|, m)
  {
    hide CoreOk, Deliver, WakeRefused, Queue;
    QueueShort(w, s, ns);
    DeliverHolds(w, s, m, ns, now, writes, connect, ns + "'");
    var was := if |s.hold.pending| >= 64 then [] else Queue(s.hold, ns);
    LastOnly(if |was| == 16 then was[1..] else was, Held(now, |s.hold.log|, m));
  }

  lemma LastOnly(q: seq<Held>, item: Held)
    requires forall i | 0 <= i < |q| :: q[i].serial < item.serial
    ensures forall x | x in q + [item] && x.serial == item.serial :: x == item
  {}

  /** A message delivered to nobody at `now`, after any run in which it still waits: a hello for its namespace that reads
      the clock at t when it comes to it lets it expire exactly if t - now is thirty seconds or more. */
  lemma ExpiresByDelivery(w: World, s: State, m: Message, ns: string, now: real, sends: nat -> Writes, connect: Connect,
                          es: seq<Event>, p: nat, hello: Message, env: Env) returns (i: nat)
    requires Sized(s) && CoreOk(w, s.core) && NewlineFree(w) && m.namespace == Some(ns)
    requires Enabled(s, DeliverEvent(m, [], now, sends, connect)) && Possible(w, Step(w, s, DeliverEvent(m, [], now, sends, connect)), es)
    requires var end := Run(w, Step(w, s, DeliverEvent(m, [], now, sends, connect)), es).core;
      |s.core.hold.log| < |end.hold.fates| && end.hold.fates[|s.core.hold.log|] == Waiting && p < |end.conns.all|
    requires hello.kind == "hello" && hello.namespace == Some(ns) && IsNamespace(ns)
    ensures var (end, k) := (Run(w, Step(w, s, DeliverEvent(m, [], now, sends, connect)), es).core, |s.core.hold.log|);
      var r := Handle(w, end, p, hello, env).hold;
      && i < |Queue(end.hold, ns)| && Queue(end.hold, ns)[i] == Held(now, k, m) && k < |r.fates|
      && (r.fates[k] == Expired <==> env.clock(i) - now >= 30.0)
  {
    var e := DeliverEvent(m, [], now, sends, connect);
    var s1 := Step(w, s, e);
    OnlyLast(w, s.core, m, ns, now, sends, connect);
    DeliveredCore(w, s, e);
    StepKeeps(w, s, e);
    hide Step, Enabled, CoreOk, Deliver;
    i := StillHeld(w, s1, es, ns, Held(now, |s.core.hold.log|, m));
    RunKeeps(w, s1, es);
    hide Run, Possible;
    ExpiresAt(w, Run(w, s1, es).core, p, hello, env, ns, i);
  }

  lemma DeliveredCore(w: World, s: State, e: Event)
    requires Sized(s) && Enabled(s, e) && e.DeliverEvent? && e.order == [] && e.m.namespace.Some?
    ensures Step(w, s, e).core == Deliver(w, s.core, e.m, [], e.now, e.sends, e.connect)
    ensures Step(w, s, e).core.hold.log == s.core.hold.log + [e.m]
  {}

  lemma StillHeld(w: World, s: State, es: seq<Event>, ns: string, item: Held) returns (i: nat)
    requires Sized(s) && CoreOk(w, s.core) && NewlineFree(w) && Possible(w, s, es)
    requires item.serial < |s.core.hold.log| && s.core.hold.log[item.serial].namespace == Some(ns)
    requires forall x | x in Queue(s.core.hold, ns) && x.serial == item.serial :: x == item
    requires var h := Run(w, s, es).core.hold; item.serial < |h.fates| && h.fates[item.serial] == Waiting
    ensures var h := Run(w, s, es).core.hold; i < |Queue(h, ns)| && Queue(h, ns)[i] == item
  {
    RunSame(w, s, es);
    RunKeeps(w, s, es);
    RunFollows(w, s, es);
    var end := Run(w, s, es).core;
    hide Run, Possible, CoreOk, SameItems;
    i := WaitsAs(w, end, s.core.hold, ns, item);
  }

  lemma ExpiresAt(w: World, s: Core, p: nat, m: Message, env: Env, ns: string, i: nat)
    requires CoreOk(w, s) && NewlineFree(w) && p < |s.conns.all| && m.kind == "hello" && m.namespace == Some(ns) && IsNamespace(ns)
    requires i < |Queue(s.hold, ns)|
    ensures var (item, r) := (Queue(s.hold, ns)[i], Handle(w, s, p, m, env).hold);
      item.serial < |r.fates| && (r.fates[item.serial] == Expired <==> env.clock(i) - item.at >= 30.0)
  {
    hide CoreOk, Hello, CutOf;
    HelloSettles(w, s, p, m, env, ns);
  }
}
