/** The broker's two classes. Each method changes the objects as the program does, and its
    contract says that the state they show moves by the step function of BrokerModel. */
module Broker {
  import opened Lines
  import opened Options
  import M = BrokerModel

  type Message = M.Message
  type Held = M.Held

  class Peer {
    const fd: int
    const server: Server
    ghost const id: nat
    var namespace: Option<string>
    var data: seq<byte>
    var closed: bool
    // numbers the lines handled, which picks the environment each one meets
    var lines: nat

    constructor (fd: int, server: Server, ghost id: nat)
      ensures this.fd == fd && this.server == server && this.id == id
      ensures namespace == None && data == [] && !closed && lines == 0
    {
      this.fd, this.server, this.id := fd, server, id;
      namespace, data, closed, lines := None, [], false, 0;
    }

    /** The peer is peer number `id` of its server. */
    ghost predicate Listed()
      reads this, server, server.roster
    {
      server.Valid() && id < |server.roster| && server.roster[id] == this
    }

    method Stop()
      requires Listed()
      modifies this, server
      ensures Listed() && server.roster == old(server.roster)
      ensures server.view == old(server.view).(core := old(server.view.core).(conns := M.Stop(old(server.view.core.conns), id)))
    {
      server.view := server.view.(core := server.view.core.(conns := M.Stop(server.view.core.conns, id)));
      if closed { return; }
      closed := true;
      server.peers := server.peers - {fd};
    }

    method Send(s: M.Sent, writes: M.Writes)
      requires Listed()
      modifies this, server
      ensures Listed() && server.roster == old(server.roster)
      ensures server.view == old(server.view).(core := old(server.view.core).(conns :=
                               M.Send(server.world, old(server.view.core.conns), id, s, writes)))
    {
      if closed { return; }
      var bytes := server.world.encode(s.msg) + [NEWLINE];
      var offset := Write(bytes, writes);
      ghost var conns := server.view.core.conns;
      ghost var q := conns.all[id].(wire := conns.all[id].wire + bytes[..offset]);
      hide M.Push;
      if offset < |bytes| {
        server.view := server.view.(core := server.view.core.(conns := conns.(all := conns.all[id := q])));
        Stop();
      } else {
        server.view := server.view.(core := server.view.core.(conns := conns.(all := conns.all[id := q.(sent := q.sent + [s])])));
      }
    }

    /** The write loop: how far it gets. */
    method Write(bytes: seq<byte>, writes: M.Writes) returns (offset: nat)
      ensures offset == M.Push(|bytes|, writes)
    {
      offset := 0;
      var i := 0;
      while offset < |bytes|
        invariant 0 <= offset <= |bytes| && 0 <= i <= |writes|
        invariant M.Push(|bytes|, writes) == offset + M.Push(|bytes| - offset, writes[i..])
        decreases |writes| - i
      {
        if i == |writes| { break; }
        var r := writes[i];
        i := i + 1;
        assert writes[i - 1..][1..] == writes[i..];
        if r.Interrupted? { continue; }
        if r.Failed? || r.n == 0 { break; }
        offset := offset + if r.n <= |bytes| - offset then r.n else |bytes| - offset;
      }
    }

    method Hello(m: Message, env: M.Env)
      requires Listed()
      modifies this, server
      ensures Listed() && server.roster == old(server.roster)
      ensures server.view == old(server.view).(core := M.Hello(server.world, old(server.view.core), id, m, env))
    {
      if m.namespace.None? || !M.IsNamespace(m.namespace.value) { Stop(); return; }
      var items := Enter(m.namespace.value, m.socket);
      Flush(items, m.namespace.value, env);
    }

    /** Take a namespace, remember its socket and take over its queue. */
    method Enter(ns: string, socket: Option<string>) returns (items: seq<Held>)
      requires Listed()
      modifies this, server
      ensures Listed() && server.roster == old(server.roster)
      ensures var was := old(server.view.core);
        && items == M.Queue(was.hold, ns)
        && server.view == old(server.view).(core := was.(
             conns := was.conns.(all := was.conns.all[id := was.conns.all[id].(namespace := Some(ns))]),
             sockets := if socket.Some? && M.WakeableSocket(socket.value) then was.sockets[ns := socket.value] else was.sockets,
             hold := was.hold.(pending := was.hold.pending - {ns})))
    {
      SetNamespace(ns);
      items := server.TakeQueue(ns, socket);
    }

    method SetNamespace(ns: string)
      requires Listed()
      modifies this, server`view
      ensures Listed()
      ensures var was := old(server.view.core);
        server.view == old(server.view).(core := was.(
          conns := was.conns.(all := was.conns.all[id := was.conns.all[id].(namespace := Some(ns))])))
    {
      namespace := Some(ns);
      ghost var was := server.view.core;
      server.view := server.view.(core := was.(
        conns := was.conns.(all := was.conns.all[id := was.conns.all[id].(namespace := Some(ns))])));
    }

    /** The loop of a hello over the queue it took. */
    method Flush(items: seq<Held>, ns: string, env: M.Env)
      requires Listed()
      modifies this, server
      ensures Listed() && server.roster == old(server.roster)
      ensures var was := old(server.view.core);
        var (conns, fates) := M.Flush(server.world, was.conns, was.hold.fates, id, items, ns, env, 0);
        server.view == old(server.view).(core := was.(conns := conns, hold := was.hold.(fates := fates)))
    {
      hide Server.Valid;
      ghost var was, conns, fates := server.view, server.view.core.conns, server.view.core.hold.fates;
      var i := 0;
      while i < |items|
        invariant 0 <= i <= |items| && Listed() && server.roster == old(server.roster) && id < |conns.all|
        invariant server.view == was.(core := was.core.(conns := conns, hold := was.core.hold.(fates := fates)))
        invariant M.Flush(server.world, conns, fates, id, items, ns, env, i)
               == M.Flush(server.world, was.core.conns, was.core.hold.fates, id, items, ns, env, 0)
      {
        FlushItem(items[i], ns, env, i);
        conns := M.FlushHead(server.world, conns, id, items[i], ns, env, i);
        fates := M.Mark(fates, items[i].serial, M.HeadFate(conns, id, items[i], env, i));
        i := i + 1;
      }
    }

    method FlushItem(item: Held, ns: string, env: M.Env, i: nat)
      requires Listed()
      modifies this, server
      ensures Listed() && server.roster == old(server.roster)
      ensures var was := old(server.view.core);
        var conns := M.FlushHead(server.world, was.conns, id, item, ns, env, i);
        server.view == old(server.view).(core := was.(conns := conns,
          hold := was.hold.(fates := M.Mark(was.hold.fates, item.serial, M.HeadFate(conns, id, item, env, i)))))
    {
      ghost var was := server.view.core;
      if env.clock(i) - item.at < M.HOLD_SECONDS {
        Send(M.Sent(item.msg, Some((item.serial, ns))), env.writes(i));
      }
      server.view := server.view.(core := server.view.core.(hold := was.hold.(
                       fates := M.Mark(was.hold.fates, item.serial, M.HeadFate(server.view.core.conns, id, item, env, i)))));
    }

    method IsBusy() returns (busy: bool)
      requires Listed()
      ensures busy == M.Busy(server.view.core.conns)
    {
      busy := exists fd | fd in server.peers :: server.peers[fd].namespace.Some?;
      if M.Busy(server.view.core.conns) {
        ghost var fd :| fd in server.view.core.conns.table && server.view.core.conns.table[fd] < |server.view.core.conns.all|
                        && server.view.core.conns.all[server.view.core.conns.table[fd]].namespace.Some?;
        assert fd in server.peers;
      }
    }

    method QuitIfIdle(env: M.Env)
      requires Listed()
      modifies this, server
      ensures Listed() && server.roster == old(server.roster)
      ensures server.view == old(server.view).(core := M.QuitIfIdle(server.world, old(server.view.core), id, env))
    {
      var busy := IsBusy();
      Send(M.Sent(M.Status(if busy then "busy" else "stopping"), None), env.writes(0));
      server.terminating := server.terminating || !busy;
      server.view := server.view.(core := server.view.core.(terminating := server.terminating));
    }

    method ShowNotice(m: Message)
      requires Listed()
      modifies this, server
      ensures Listed() && server.roster == old(server.roster)
      ensures server.view == old(server.view).(core := M.ShowNotice(old(server.view.core), id, m))
    {
      if namespace.None? || m.namespace != namespace || m.notice.None? { Stop(); return; }
      var identifier := M.Ident(namespace.value, m.notice.value.id);
      var generation := server.issued;
      server.issued := server.issued + 1;
      server.generations := server.generations[identifier := generation];
      server.view := server.view.(core := M.ShowNotice(server.view.core, id, m));
    }

    method CloseNotice(m: Message)
      requires Listed()
      modifies this, server
      ensures Listed() && server.roster == old(server.roster)
      ensures server.view == old(server.view).(core := M.CloseNotice(old(server.view.core), id, m))
    {
      if namespace.None? || m.namespace != namespace || m.id.None? { Stop(); return; }
      server.generations := server.generations - {M.Ident(namespace.value, m.id.value)};
      server.view := server.view.(core := M.CloseNotice(server.view.core, id, m));
    }

    method Handle(m: Message, env: M.Env)
      requires Listed()
      modifies this, server
      ensures Listed() && server.roster == old(server.roster)
      ensures server.view == old(server.view).(core := M.Handle(server.world, old(server.view.core), id, m, env))
    {
      if m.kind == "hello" {
        Hello(m, env);
      } else if m.kind == "status" || m.kind == "authorize" {
        // answered by the notification centre's callback
      } else if m.kind == "quit-if-idle" {
        QuitIfIdle(env);
      } else if m.kind == "show" {
        ShowNotice(m);
      } else if m.kind == "close" {
        CloseNotice(m);
      } else {
        Stop();
      }
    }

    method Read(chunk: seq<byte>, env: nat -> M.Env)
      requires Listed()
      modifies this, server
      ensures Listed() && server.roster == old(server.roster)
      ensures server.view == M.Read(server.world, old(server.view), id, chunk, env)
    {
      if chunk == [] { Stop(); return; }
      data := data + chunk;
      server.view := server.view.(inbox := server.view.inbox[id := data]);
      if |data| > M.MAX_BUFFER { Stop(); return; }
      ReadLines(env);
    }

    /** The line loop of a read event. */
    method ReadLines(env: nat -> M.Env)
      requires Listed()
      modifies this, server
      ensures Listed() && server.roster == old(server.roster)
      ensures server.view == M.Drain(server.world, old(server.view), id, env)
    {
      ghost var world, was := server.world, server.view;
      var newline := FindNewline(data);
      assert data == server.view.inbox[id];
      hide Server.Valid, M.Drain;
      M.DrainUnfolds(world, was, id, env);
      while newline != -1
        invariant Listed() && server.roster == old(server.roster)
        invariant data == server.view.inbox[id] && newline == FindNewline(data)
        invariant M.Drain(world, server.view, id, env) == M.Drain(world, was, id, env)
        decreases |data|
      {
        var taken := ReadLine(newline, env);
        if !taken { return; }
        newline := FindNewline(data);
      }
      M.DrainUnfolds(world, server.view, id, env);
    }

    /** One turn of the loop; it ends early at an unreadable line. */
    method ReadLine(newline: nat, env: nat -> M.Env) returns (taken: bool)
      requires Listed() && data == server.view.inbox[id] && newline == FindNewline(data)
      modifies this, server
      ensures Listed() && server.roster == old(server.roster)
      ensures taken ==> data == server.view.inbox[id] && |data| < |old(data)|
      ensures M.Drain(server.world, old(server.view), id, env)
           == if taken then M.Drain(server.world, server.view, id, env) else server.view
    {
      hide Server.Valid, M.Take, M.Stop, M.Drain;
      M.DrainUnfolds(server.world, server.view, id, env);
      var line := CutLine(newline);
      var message := server.world.decode(line);
      taken := message.Some? && message.value.version == M.VERSION;
      if taken { TakeLine(line, message.value, env); } else { Stop(); }
    }

    method CutLine(newline: nat) returns (line: Line)
      requires Listed() && newline < |data|
      modifies this, server`view
      ensures Listed() && line == old(data)[..newline] && data == old(data)[newline + 1..]
      ensures server.view == old(server.view).(inbox := old(server.view.inbox)[id := data])
    {
      line := data[..newline];
      data := data[newline + 1..];
      server.view := server.view.(inbox := server.view.inbox[id := data]);
    }

    method TakeLine(line: Line, m: Message, env: nat -> M.Env)
      requires Listed()
      modifies this, server
      ensures Listed() && server.roster == old(server.roster) && data == old(data)
      ensures server.view == old(server.view).(core := M.Take(server.world, old(server.view.core), id, line, m, env))
    {
      lines := lines + 1;
      server.view := server.view.(core := M.Note(server.view.core, id, line));
      Handle(m, env(lines - 1));
    }
  }

  class Server {
    const world: M.World
    var peers: map<int, Peer>
    var generations: map<string, nat>
    var pending: map<string, seq<Held>>
    var sockets: map<string, string>
    var terminating: bool
    // stands for UUID(): the number of tokens given out
    var issued: nat
    // the number of messages delivered, which numbers them
    var delivered: nat

    ghost var roster: seq<Peer>
    ghost var view: M.State

    /** The objects show the view: peer i of the roster is peer i of the view. */
    ghost predicate Valid()
      reads this, roster
      ensures Valid() ==> |roster| == |view.core.conns.all| == |view.inbox| && delivered == |view.core.hold.log|
    {
      var c := view.core.conns;
      && |roster| == |c.all| == |view.inbox|
      && (forall i | 0 <= i < |roster| ::
            && roster[i].id == i && roster[i].server == this && roster[i].fd == c.all[i].fd
            && roster[i].namespace == c.all[i].namespace && roster[i].closed == c.all[i].closed
            && roster[i].data == view.inbox[i] && roster[i].lines == |c.all[i].handled|)
      && peers.Keys == c.table.Keys
      && (forall fd | fd in peers :: c.table[fd] < |roster| && peers[fd] == roster[c.table[fd]] && peers[fd].fd == fd)
      && generations == view.core.notes.generations && issued == |view.core.notes.shows|
      && pending == view.core.hold.pending && delivered == |view.core.hold.log|
      && sockets == view.core.sockets && terminating == view.core.terminating
    }

    constructor (world: M.World)
      ensures Valid() && this.world == world && view == M.START && roster == []
    {
      this.world := world;
      peers, generations, pending, sockets := map[], map[], map[], map[];
      terminating, issued, delivered := false, 0, 0;
      roster, view := [], M.START;
    }

    method TakeQueue(ns: string, socket: Option<string>) returns (items: seq<Held>)
      requires Valid()
      modifies this
      ensures Valid() && roster == old(roster)
      ensures var was := old(view.core);
        && items == M.Queue(was.hold, ns)
        && view == old(view).(core := was.(
             sockets := if socket.Some? && M.WakeableSocket(socket.value) then was.sockets[ns := socket.value] else was.sockets,
             hold := was.hold.(pending := was.hold.pending - {ns})))
    {
      if socket.Some? && M.WakeableSocket(socket.value) {
        sockets := sockets[ns := socket.value];
      }
      items := if ns in pending then pending[ns] else [];
      pending := pending - {ns};
      view := view.(core := view.core.(sockets := sockets, hold := view.core.hold.(pending := pending)));
    }

    /** Accept what is waiting on the listener: descriptors, and whether the other end is the same user's. */
    method AcceptPeers(arrivals: seq<(int, bool)>)
      requires Valid()
      modifies this
      ensures Valid() && old(roster) <= roster && fresh(set p | p in roster[|old(roster)|..])
      ensures view == AcceptAll(old(view), arrivals)
    {
      hide Valid;
      var i := 0;
      while i < |arrivals|
        invariant 0 <= i <= |arrivals| && Valid() && old(roster) <= roster
        invariant fresh(set p | p in roster[|old(roster)|..])
        invariant AcceptAll(view, arrivals[i..]) == AcceptAll(old(view), arrivals)
      {
        assert arrivals[i..][1..] == arrivals[i + 1..];
        AcceptPeer(arrivals[i].0, arrivals[i].1);
        i := i + 1;
      }
    }

    /** One of them. */
    method AcceptPeer(fd: int, trusted: bool)
      requires Valid()
      modifies this
      ensures Valid() && old(roster) <= roster && fresh(set p | p in roster[|old(roster)|..])
      ensures view == M.Accept(old(view), fd, trusted)
    {
      assert |peers| == |peers.Keys| == |view.core.conns.table.Keys| == |view.core.conns.table|;
      if !trusted || |peers| >= M.MAX_PEERS { return; }
      var peer := new Peer(fd, this, |roster|);
      view := M.Accept(view, fd, trusted);
      roster := roster + [peer];
      peers := peers[fd := peer];
    }

    /** Deliver a message to the connected peers of its namespace, or queue it and wake the daemon.
        `order` is the order in which the dictionary listed the peers. */
    method Deliver(m: Message, now: real, writes: nat -> M.Writes, connect: M.Connect) returns (ghost order: seq<nat>)
      requires Valid()
      modifies this, roster
      ensures Valid() && roster == old(roster)
      ensures forall p | p in order :: p < |old(view.core.conns.all)|
      ensures m.namespace.Some? ==> M.Lists(order, old(view.core.conns), m.namespace.value)
      ensures view == old(view).(core := M.Deliver(world, old(view.core), m, order, now, writes, connect))
    {
      order := [];
      if m.namespace.None? { return; }
      var recipients := Recipients(m.namespace.value);
      order := IdsOf(recipients);
      if recipients != [] {
        SendDirect(recipients, m, m.namespace.value, writes);
      } else {
        hide Valid, M.Enqueue, M.MakeRoom, M.Wake;
        Hold(m, m.namespace.value, now);
        Wake(m.namespace.value, connect);
      }
    }

    method SendDirect(list: seq<Peer>, m: Message, ns: string, writes: nat -> M.Writes)
      requires Valid() && forall i | 0 <= i < |list| :: list[i].id < |roster| && roster[list[i].id] == list[i] && list[i].server == this
      modifies this, roster
      ensures Valid() && roster == old(roster)
      ensures forall x | x in IdsOf(list) :: x < |old(view.core.conns.all)|
      ensures view == old(view).(core := old(view.core).(
                conns := M.SendAll(world, old(view.core.conns), IdsOf(list), M.Sent(m, Some((|old(view.core.hold.log)|, ns))), writes, 0),
                hold := M.Logged(old(view.core.hold), m, M.Direct)))
    {
      SendEach(list, m, ns, writes);
      hide M.SendAll;
      delivered := delivered + 1;
      view := view.(core := view.core.(hold := M.Logged(view.core.hold, m, M.Direct)));
    }

    /** The connected peers of a namespace, in any order. */
    method Recipients(ns: string) returns (list: seq<Peer>)
      requires Valid()
      ensures forall i | 0 <= i < |list| :: list[i].id < |roster| && roster[list[i].id] == list[i] && list[i].server == this
      ensures M.Lists(IdsOf(list), view.core.conns, ns)
    {
      list := [];
      var todo: set<int> := peers.Keys;
      while todo != {}
        invariant todo <= peers.Keys
        invariant forall i | 0 <= i < |list| ::
                    && list[i].fd in peers && peers[list[i].fd] == list[i] && list[i].fd !in todo && list[i].namespace == Some(ns)
        invariant forall fd | fd in peers && fd !in todo && peers[fd].namespace == Some(ns) :: peers[fd] in list
        invariant forall i, j | 0 <= i < j < |list| :: list[i].fd != list[j].fd
        decreases todo
      {
        Inhabited(todo);
        var fd: int :| fd in todo;
        todo := todo - {fd};
        if peers[fd].namespace == Some(ns) { list := list + [peers[fd]]; }
      }
      ListsThem(list, ns);
    }

    lemma ListsThem(list: seq<Peer>, ns: string)
      requires Valid()
      requires forall i | 0 <= i < |list| :: list[i].fd in peers && peers[list[i].fd] == list[i] && list[i].namespace == Some(ns)
      requires forall fd | fd in peers && peers[fd].namespace == Some(ns) :: peers[fd] in list
      requires forall i, j | 0 <= i < j < |list| :: list[i].fd != list[j].fd
      ensures M.Lists(IdsOf(list), view.core.conns, ns)
    {}

    /** Send to each peer of the list, which was taken before the first send. */
    method SendEach(list: seq<Peer>, m: Message, ns: string, writes: nat -> M.Writes)
      requires Valid() && forall i | 0 <= i < |list| :: list[i].id < |roster| && roster[list[i].id] == list[i] && list[i].server == this
      modifies this, roster
      ensures Valid() && roster == old(roster)
      ensures view == old(view).(core := old(view.core).(conns :=
                        M.SendAll(world, old(view.core.conns), IdsOf(list), M.Sent(m, Some((|old(view.core.hold.log)|, ns))), writes, 0)))
    {
      hide Valid, M.Send;
      ghost var was, note := view, M.Sent(m, Some((|view.core.hold.log|, ns)));
      ghost var conns := view.core.conns;
      var i := 0;
      while i < |list|
        invariant 0 <= i <= |list| && Valid() && roster == old(roster)
        invariant |conns.all| == |roster| && view == was.(core := was.core.(conns := conns))
        invariant forall x | x in IdsOf(list) :: x < |conns.all|
        invariant M.SendAll(world, conns, IdsOf(list), note, writes, i) == M.SendAll(world, was.core.conns, IdsOf(list), note, writes, 0)
      {
        list[i].Send(M.Sent(m, Some((delivered, ns))), writes(i));
        conns := M.Send(world, conns, list[i].id, note, writes(i));
        i := i + 1;
      }
    }

    /** Queue a message for the hello of its namespace. */
    method Hold(m: Message, ns: string, now: real)
      requires Valid()
      modifies this
      ensures Valid() && roster == old(roster) && sockets == old(sockets)
      ensures view == old(view).(core := old(view.core).(hold :=
                M.Enqueue(M.Logged(M.MakeRoom(old(view.core.hold)), m, M.Waiting), ns, M.Held(now, |old(view.core.hold.log)|, m))))
    {
      ghost var h := view.core.hold;
      if |pending| >= M.MAX_QUEUES { pending := map[]; }
      var q := (if ns in pending then pending[ns] else []) + [M.Held(now, delivered, m)];
      pending := pending[ns := q[M.Excess(q)..]];
      delivered := delivered + 1;
      view := view.(core := view.core.(hold :=
                M.Enqueue(M.Logged(M.MakeRoom(h), m, M.Waiting), ns, M.Held(now, |h.log|, m))));
    }

    method Wake(ns: string, connect: M.Connect)
      requires Valid()
      modifies this
      ensures Valid() && roster == old(roster)
      ensures view == old(view).(core := old(view.core).(hold := M.Wake(world, old(view.core.hold), sockets, ns, connect)))
      ensures sockets == old(sockets)
    {
      view := view.(core := view.core.(hold := M.Wake(world, view.core.hold, sockets, ns, connect)));
      var path := if ns in sockets then Some(sockets[ns]) else None;
      if path.None? && world.defaultSocket.Some? && world.digest(world.defaultSocket.value) == ns {
        path := world.defaultSocket;
      }
      if path.None? || M.Utf8Count(path.value) + 1 > M.SUN_PATH { return; }
      if connect == M.NoEntry || connect == M.ConnectionRefused {
        pending := pending - {ns};
      }
    }

    /** The block that a settings callback queued for show t. */
    method PostShow(t: nat, show: M.Show, alive: bool) returns (posted: bool)
      requires Valid() && t in view.core.notes.ready && t < |view.core.notes.shows| && view.core.notes.shows[t] == show
      modifies this`view
      ensures Valid()
      ensures view == old(view).(core := old(view.core).(notes := M.Check(old(view.core.notes), t, alive)))
      ensures posted <==> view.core.notes.hist != old(view.core.notes.hist)
    {
      var identifier := M.Ident(show.ns, show.id);
      posted := alive && identifier in generations && generations[identifier] == t;
      view := view.(core := view.core.(notes := M.Check(view.core.notes, t, alive)));
    }
  }

  ghost function AcceptAll(s: M.State, arrivals: seq<(int, bool)>): M.State
    decreases |arrivals|
  {
    if arrivals == [] then s else AcceptAll(M.Accept(s, arrivals[0].0, arrivals[0].1), arrivals[1..])
  }

  lemma Inhabited(s: set<int>)
    ensures s == {} || exists x: int :: x in s
  {
    assert (forall x: int :: x !in s) ==> s == {};
  }

  ghost function IdsOf(list: seq<Peer>): (ids: seq<nat>)
    ensures |ids| == |list| && forall i | 0 <= i < |list| :: ids[i] == list[i].id
  {
    seq(|list|, i requires 0 <= i < |list| => list[i].id)
  }
}
