/** Every step keeps every invariant, so every reachable state has them. */
module BrokerRuns {
  import opened Lines
  import opened Options
  import opened BrokerModel
  import opened BrokerInvariants
  import opened BrokerQueues
  import opened BrokerNotes

  ghost predicate NamesOk(c: Conns) {
    forall p | 0 <= p < |c.all| && c.all[p].namespace.Some? :: IsNamespace(c.all[p].namespace.value)
  }

  ghost predicate ConnsOk(w: World, c: Conns) { TableOk(c) && LinesOk(c) && WiresOk(w, c) && NamesOk(c) }

  ghost predicate SocketsOk(sockets: map<string, string>) {
    forall ns | ns in sockets :: IsNamespace(ns) && WakeableSocket(sockets[ns])
  }

  ghost predicate CoreOk(w: World, s: Core) {
    ConnsOk(w, s.conns) && HoldOk(s.hold) && CrossOk(s.conns, s.hold) && NotesOk(s.notes) && SocketsOk(s.sockets)
  }

  // ---- connections alone ----

  lemma TouchedConns(w: World, c: Conns, c': Conns, p: nat)
    requires ConnsOk(w, c) && Touched(c, c', p) && WireOk(w, c'.all[p])
    ensures ConnsOk(w, c')
  {
    TouchedTable(c, c', p);
    forall q | 0 <= q < |c'.all| ensures WireOk(w, c'.all[q]) { assert WireOk(w, c.all[q]); }
    forall q, i | 0 <= q < |c'.all| && 0 <= i < |c'.all[q].handled| ensures |c'.all[q].handled[i]| < MAX_BUFFER {
      assert |c.all[q].handled[i]| < MAX_BUFFER;
    }
  }

  /** A peer was stopped or sent messages of its own, none of them a delivered one. */
  lemma TouchedQuietly(c: Conns, c': Conns, p: nat, h: Hold)
    requires CrossOk(c, h) && Touched(c, c', p)
    requires c.all[p].sent <= c'.all[p].sent
    requires forall i | |c.all[p].sent| <= i < |c'.all[p].sent| :: c'.all[p].sent[i].origin.None?
    ensures CrossOk(c', h)
  {}

  lemma GotStays(c: Conns, c': Conns, h: Hold)
    requires |c.all| <= |c'.all| && forall q | 0 <= q < |c.all| :: c.all[q].sent <= c'.all[q].sent
    requires forall k | 0 <= k < |h.fates| && h.fates[k].Flushed? :: h.fates[k].peer < |c.all| && Got(c.all[h.fates[k].peer], k)
    ensures forall k | 0 <= k < |h.fates| && h.fates[k].Flushed? :: h.fates[k].peer < |c'.all| && Got(c'.all[h.fates[k].peer], k)
  {}

  lemma StopKeeps(w: World, s: Core, p: nat)
    requires CoreOk(w, s) && p < |s.conns.all|
    ensures CoreOk(w, s.(conns := Stop(s.conns, p)))
  {
    StopTouches(s.conns, p);
    assert WireOk(w, s.conns.all[p]);
    assert WireOk(w, Stop(s.conns, p).all[p]);
    TouchedConns(w, s.conns, Stop(s.conns, p), p);
    TouchedQuietly(s.conns, Stop(s.conns, p), p, s.hold);
  }

  lemma StatusKeeps(w: World, s: Core, p: nat, m: Message, writes: Writes)
    requires CoreOk(w, s) && p < |s.conns.all| && NewlineFree(w)
    ensures CoreOk(w, s.(conns := Send(w, s.conns, p, Sent(m, None), writes)))
  {
    SendTouches(w, s.conns, p, Sent(m, None), writes);
    SendWire(w, s.conns, p, Sent(m, None), writes);
    TouchedConns(w, s.conns, Send(w, s.conns, p, Sent(m, None), writes), p);
    TouchedQuietly(s.conns, Send(w, s.conns, p, Sent(m, None), writes), p, s.hold);
  }

  // ---- hello ----

  /** After the flush: the queue is gone, its items are settled, and peer p has the flushed ones. */
  lemma HelloHold(w: World, h: Hold, c: Conns, p: nat, ns: string, env: Env)
    requires HoldOk(h) && p < |c.all|
    ensures var (c', fates) := Flush(w, c, h.fates, p, Queue(h, ns), ns, env, 0);
      var h' := h.(pending := h.pending - {ns}, fates := fates);
      && HoldOk(h') && Later(h, h')
      && forall k | 0 <= k < |fates| && fates[k] != h.fates[k] ::
           h.fates[k] == Waiting && h.log[k].namespace == Some(ns) && fates[k] in {Expired, Lost(p), Flushed(p)}
  {
    var items := Queue(h, ns);
    var (c', fates) := Flush(w, c, h.fates, p, items, ns, env, 0);
    var h' := h.(pending := h.pending - {ns}, fates := fates);
    FlushFates(w, c, h.fates, p, items, ns, env, 0);
    forall k | 0 <= k < |h.log|
      ensures if Contains(items, k) then fates[k] in {Expired, Lost(p), Flushed(p)} && h.fates[k] == Waiting && h.log[k].namespace == Some(ns)
              else fates[k] == h.fates[k]
    {
      if Contains(items, k) {
        Named(h, ns, k);
        var i := Where(items, k);
        assert FateOf(c, c', p, items[i], env, i, fates[k]);
      } else {
        forall j | 0 <= j < |items| ensures items[j].serial != k { Has(items, j); }
      }
    }
    Emptied(h, h', ns);
  }

  lemma FlushedReceipt(h: Hold, h': Hold, p: nat, ns: string, items: seq<Held>, x: nat)
    requires HoldOk(h) && HoldOk(h') && h'.log == h.log && items == Queue(h, ns) && ns !in h'.pending
    requires x < |Kept(items, ns, h'.fates, p, 0)|
    ensures SentOk(h', p, Kept(items, ns, h'.fates, p, 0)[x])
  {
    var j := KeptAt(items, ns, h'.fates, p, 0, x);
    forall k | 0 <= k < |h'.log| && h'.fates[k] == Waiting ensures h'.log[k].namespace != Some(ns) {
      assert Placed(h', k);
    }
  }

  /** The receipts of the peer that said hello: what it had, then the flushed items. */
  lemma HelloReceipts(h: Hold, h': Hold, p: nat, ns: string, q: Conn, q': Conn)
    requires HoldOk(h) && HoldOk(h') && Later(h, h') && h'.log == h.log && ns !in h'.pending
    requires ReceiptsOk(h, p, q) && q'.sent == q.sent + Kept(Queue(h, ns), ns, h'.fates, p, 0)
    ensures ReceiptsOk(h', p, q')
  {
    var items := Queue(h, ns);
    var kept := Kept(items, ns, h'.fates, p, 0);
    ReceiptsLater(h, h', p, q);
    forall i | 0 <= i < |q'.sent| ensures SentOk(h', p, q'.sent[i]) {
      if i < |q.sent| { assert SentOk(h', p, q.sent[i]); } else { FlushedReceipt(h, h', p, ns, items, i - |q.sent|); }
    }
    forall i, j | 0 <= i < j < |q'.sent| ensures InOrder(q'.sent[i], q'.sent[j]) {
      HelloOrder(h, h', p, ns, q, q', i, j);
    }
  }

  lemma HelloOrder(h: Hold, h': Hold, p: nat, ns: string, q: Conn, q': Conn, i: nat, j: nat)
    requires HoldOk(h) && ReceiptsOk(h, p, q) && q'.sent == q.sent + Kept(Queue(h, ns), ns, h'.fates, p, 0)
    requires i < j < |q'.sent|
    ensures InOrder(q'.sent[i], q'.sent[j])
  {
    hide Kept;
    if j < |q.sent| {
      assert InOrder(q.sent[i], q.sent[j]);
    } else {
      var y := KeptAt(Queue(h, ns), ns, h'.fates, p, 0, j - |q.sent|);
      if i < |q.sent| {
        assert SentOk(h, p, q.sent[i]);
      } else {
        KeptOrdered(Queue(h, ns), ns, h'.fates, p, 0, i - |q.sent|, j - |q.sent|);
      }
    }
  }

  lemma HelloCross(w: World, h: Hold, c: Conns, p: nat, ns: string, env: Env)
    requires HoldOk(h) && CrossOk(c, h) && p < |c.all| && NewlineFree(w) && WireOk(w, c.all[p])
    ensures var c1 := c.(all := c.all[p := c.all[p].(namespace := Some(ns))]);
      var (c', fates) := Flush(w, c1, h.fates, p, Queue(h, ns), ns, env, 0);
      CrossOk(c', h.(pending := h.pending - {ns}, fates := fates))
  {
    var items := Queue(h, ns);
    var c1 := c.(all := c.all[p := c.all[p].(namespace := Some(ns))]);
    var (c', fates) := Flush(w, c1, h.fates, p, items, ns, env, 0);
    var h' := h.(pending := h.pending - {ns}, fates := fates);
    HelloHold(w, h, c1, p, ns, env);
    FlushTouches(w, c1, h.fates, p, items, ns, env, 0);
    FlushSends(w, c1, h.fates, p, items, ns, env, 0);
    forall q | 0 <= q < |c'.all| ensures ReceiptsOk(h', q, c'.all[q]) {
      assert ReceiptsOk(h, q, c.all[q]);
      if q == p { HelloReceipts(h, h', p, ns, c.all[p], c'.all[p]); } else { ReceiptsLater(h, h', q, c.all[q]); }
    }
    forall k | 0 <= k < |fates| && fates[k].Flushed? ensures fates[k].peer < |c'.all| && Got(c'.all[fates[k].peer], k) {
      HelloGot(h, h', c, c', p, ns, k);
    }
  }

  lemma HelloGot(h: Hold, h': Hold, c: Conns, c': Conns, p: nat, ns: string, k: nat)
    requires HoldOk(h) && CrossOk(c, h) && p < |c.all| && |c'.all| == |c.all| && |h'.fates| == |h.fates|
    requires k < |h.fates| && h'.fates[k].Flushed?
    requires h'.fates[k] == h.fates[k] || (h.fates[k] == Waiting && h.log[k].namespace == Some(ns) && h'.fates[k] == Flushed(p))
    requires forall q | 0 <= q < |c.all| && q != p :: c'.all[q].sent == c.all[q].sent
    requires c'.all[p].sent == c.all[p].sent + Kept(Queue(h, ns), ns, h'.fates, p, 0)
    ensures h'.fates[k].peer < |c'.all| && Got(c'.all[h'.fates[k].peer], k)
  {
    var q := h'.fates[k].peer;
    if h'.fates[k] == h.fates[k] {
      assert Got(c.all[q], k);
      var i :| 0 <= i < |c.all[q].sent| && c.all[q].sent[i].origin.Some? && c.all[q].sent[i].origin.value.0 == k;
      assert c'.all[q].sent[i] == c.all[q].sent[i];
    } else {
      assert Placed(h, k);
      var j := Where(Queue(h, ns), k);
      var x := KeptHas(Queue(h, ns), ns, h'.fates, p, 0, j);
      assert c'.all[p].sent[|c.all[p].sent| + x].origin == Some((k, ns));
    }
  }

  lemma HelloKeeps(w: World, s: Core, p: nat, m: Message, env: Env)
    requires CoreOk(w, s) && p < |s.conns.all| && NewlineFree(w)
    ensures CoreOk(w, Hello(w, s, p, m, env))
  {
    if m.namespace.None? || !IsNamespace(m.namespace.value) {
      StopKeeps(w, s, p);
    } else {
      var ns := m.namespace.value;
      var c1 := s.conns.(all := s.conns.all[p := s.conns.all[p].(namespace := Some(ns))]);
      assert WireOk(w, s.conns.all[p]);
      NamedConns(w, s.conns, p, ns);
      hide ConnsOk, HoldOk, CrossOk, NotesOk, WireOk;
      HelloHold(w, s.hold, c1, p, ns, env);
      HelloCross(w, s.hold, s.conns, p, ns, env);
      FlushTouches(w, c1, s.hold.fates, p, Queue(s.hold, ns), ns, env, 0);
      hide Flush;
      TouchedConns(w, c1, Flush(w, c1, s.hold.fates, p, Queue(s.hold, ns), ns, env, 0).0, p);
    }
  }

  lemma NamedConns(w: World, c: Conns, p: nat, ns: string)
    requires ConnsOk(w, c) && p < |c.all| && IsNamespace(ns)
    ensures ConnsOk(w, c.(all := c.all[p := c.all[p].(namespace := Some(ns))]))
  {
    var c1 := c.(all := c.all[p := c.all[p].(namespace := Some(ns))]);
    NamedTable(c, p, ns);
    hide TableOk;
    forall q | 0 <= q < |c1.all| ensures WireOk(w, c1.all[q]) { assert WireOk(w, c.all[q]); }
    forall q, i | 0 <= q < |c1.all| && 0 <= i < |c1.all[q].handled| ensures |c1.all[q].handled[i]| < MAX_BUFFER {
      assert |c.all[q].handled[i]| < MAX_BUFFER;
    }
  }

  lemma NamedTable(c: Conns, p: nat, ns: string)
    requires TableOk(c) && p < |c.all|
    ensures TableOk(c.(all := c.all[p := c.all[p].(namespace := Some(ns))]))
  {}

  // ---- the other messages ----

  lemma ShowNoticeKeeps(w: World, s: Core, p: nat, m: Message)
    requires CoreOk(w, s) && p < |s.conns.all|
    ensures CoreOk(w, ShowNotice(s, p, m))
  {
    var ns := s.conns.all[p].namespace;
    if ns.None? || m.namespace != ns || m.notice.None? { StopKeeps(w, s, p); }
    else { ShowKeeps(s.notes, ns.value, m.notice.value.id, p); }
  }

  lemma CloseNoticeKeeps(w: World, s: Core, p: nat, m: Message)
    requires CoreOk(w, s) && p < |s.conns.all|
    ensures CoreOk(w, CloseNotice(s, p, m))
  {
    var ns := s.conns.all[p].namespace;
    if ns.None? || m.namespace != ns || m.id.None? { StopKeeps(w, s, p); }
    else { CloseKeeps(s.notes, ns.value, m.id.value); }
  }

  lemma QuitKeeps(w: World, s: Core, p: nat, env: Env)
    requires CoreOk(w, s) && p < |s.conns.all| && NewlineFree(w)
    ensures CoreOk(w, QuitIfIdle(w, s, p, env))
  {
    StatusKeeps(w, s, p, Status(if Busy(s.conns) then "busy" else "stopping"), env.writes(0));
  }

  lemma HandleKeeps(w: World, s: Core, p: nat, m: Message, env: Env)
    requires CoreOk(w, s) && p < |s.conns.all| && NewlineFree(w)
    ensures CoreOk(w, Handle(w, s, p, m, env))
  {
    hide CoreOk;
    HelloKeeps(w, s, p, m, env);
    QuitKeeps(w, s, p, env);
    ShowNoticeKeeps(w, s, p, m);
    CloseNoticeKeeps(w, s, p, m);
    StopKeeps(w, s, p);
  }

  /** Peers changed only in what concerns neither the wire nor the queues. */
  ghost predicate SameTalk(c: Conns, c': Conns) {
    |c.all| == |c'.all| && c'.table == c.table
    && forall q | 0 <= q < |c.all| ::
         && c'.all[q].fd == c.all[q].fd && c'.all[q].closed == c.all[q].closed && c'.all[q].namespace == c.all[q].namespace
         && c'.all[q].sent == c.all[q].sent && c'.all[q].wire == c.all[q].wire
  }

  lemma SameTalkCross(w: World, c: Conns, c': Conns, h: Hold)
    requires CrossOk(c, h) && WiresOk(w, c) && NamesOk(c) && SameTalk(c, c')
    ensures CrossOk(c', h) && WiresOk(w, c') && NamesOk(c')
  {}

  lemma SameTalkTable(c: Conns, c': Conns)
    requires TableOk(c) && SameTalk(c, c') && forall q | 0 <= q < |c.all| && c'.all[q].open :: c.all[q].open
    requires forall q | 0 <= q < |c.all| && !c.all[q].closed :: c'.all[q].open
    ensures TableOk(c')
  {}

  lemma NoteKeeps(w: World, s: Core, p: nat, line: Line)
    requires CoreOk(w, s) && p < |s.conns.all| && |line| < MAX_BUFFER
    ensures CoreOk(w, Note(s, p, line))
  {
    var c, c' := s.conns, Note(s, p, line).conns;
    NotedLines(s, p, line);
    hide TableOk, LinesOk, WiresOk, NamesOk, HoldOk, CrossOk, NotesOk, SocketsOk;
    assert SameTalk(c, c');
    SameTalkCross(w, c, c', s.hold);
    OpenStays(c);
    SameTalkTable(c, c');
  }

  lemma OpenStays(c: Conns)
    requires TableOk(c)
    ensures forall q | 0 <= q < |c.all| && !c.all[q].closed :: c.all[q].open
  {}

  lemma NotedLines(s: Core, p: nat, line: Line)
    requires LinesOk(s.conns) && p < |s.conns.all| && |line| < MAX_BUFFER
    ensures LinesOk(Note(s, p, line).conns)
  {
    var c, c' := s.conns, Note(s, p, line).conns;
    forall q, i | 0 <= q < |c'.all| && 0 <= i < |c'.all[q].handled| ensures |c'.all[q].handled[i]| < MAX_BUFFER {
      if i < |c.all[q].handled| { assert |c.all[q].handled[i]| < MAX_BUFFER; }
    }
  }

  lemma TakeKeeps(w: World, s: Core, p: nat, line: Line, m: Message, env: nat -> Env)
    requires CoreOk(w, s) && p < |s.conns.all| && NewlineFree(w) && |line| < MAX_BUFFER
    ensures CoreOk(w, Take(w, s, p, line, m, env))
  {
    NoteKeeps(w, s, p, line);
    HandleKeeps(w, Note(s, p, line), p, m, env(|s.conns.all[p].handled|));
  }

  lemma {:induction false} DrainKeeps(w: World, s: State, p: nat, env: nat -> Env)
    requires Sized(s) && p < |s.inbox| && CoreOk(w, s.core) && NewlineFree(w) && |s.inbox[p]| <= MAX_BUFFER
    ensures CoreOk(w, Drain(w, s, p, env).core)
    decreases |s.inbox[p]|
  {
    hide CoreOk, Take, Stop, Drain, Accepted;
    DrainUnfolds(w, s, p, env);
    var i := FindNewline(s.inbox[p]);
    if i != -1 {
      var line := s.inbox[p][..i];
      var inbox := s.inbox[p := s.inbox[p][i + 1..]];
      var m := Accepted(w, line);
      if m.None? {
        StopKeeps(w, s.core, p);
      } else {
        TakeKeeps(w, s.core, p, line, m.value, env);
        DrainKeeps(w, State(Take(w, s.core, p, line, m.value, env), inbox), p, env);
      }
    }
  }

  lemma ReadKeeps(w: World, s: State, p: nat, chunk: seq<byte>, env: nat -> Env)
    requires Sized(s) && p < |s.inbox| && CoreOk(w, s.core) && NewlineFree(w)
    ensures CoreOk(w, Read(w, s, p, chunk, env).core)
  {
    var data := s.inbox[p] + chunk;
    if chunk == [] || |data| > MAX_BUFFER {
      StopKeeps(w, s.core, p);
    } else {
      DrainKeeps(w, s.(inbox := s.inbox[p := data]), p, env);
    }
  }

  // ---- descriptors ----

  lemma AcceptKeeps(w: World, s: State, fd: int, trusted: bool)
    requires Sized(s) && CoreOk(w, s.core) && Enabled(s, AcceptEvent(fd, trusted))
    ensures CoreOk(w, Accept(s, fd, trusted).core)
  {
    var c := s.core.conns;
    var q := Conn(fd, true, None, false, [], [], []);
    if trusted && |c.table| < MAX_PEERS {
      AddedConns(w, c, fd, q);
      AddedCross(c, Conns(c.all + [q], c.table[fd := |c.all|]), q, s.core.hold);
    }
  }

  lemma AddedConns(w: World, c: Conns, fd: int, q: Conn)
    requires ConnsOk(w, c) && |c.table| < MAX_PEERS && q == Conn(fd, true, None, false, [], [], [])
    requires forall p | 0 <= p < |c.all| :: c.all[p].open ==> c.all[p].fd != fd
    ensures ConnsOk(w, Conns(c.all + [q], c.table[fd := |c.all|]))
  {}

  lemma AddedCross(c: Conns, c': Conns, q: Conn, h: Hold)
    requires CrossOk(c, h) && c'.all == c.all + [q] && q.namespace.None? && q.sent == []
    ensures CrossOk(c', h)
  {}

  lemma CancelKeeps(w: World, s: Core, p: nat)
    requires CoreOk(w, s) && p < |s.conns.all| && s.conns.all[p].closed
    ensures CoreOk(w, s.(conns := Cancelled(s.conns, p)))
  {
    var c, c' := s.conns, Cancelled(s.conns, p);
    CancelledLines(c, p);
    hide TableOk, LinesOk, WiresOk, NamesOk, HoldOk, CrossOk, NotesOk, SocketsOk;
    assert SameTalk(c, c');
    SameTalkCross(w, c, c', s.hold);
    OpenStays(c);
    SameTalkTable(c, c');
  }

  lemma CancelledLines(c: Conns, p: nat)
    requires LinesOk(c) && p < |c.all|
    ensures LinesOk(Cancelled(c, p))
  {
    var c' := Cancelled(c, p);
    forall q, i | 0 <= q < |c'.all| && 0 <= i < |c'.all[q].handled| ensures |c'.all[q].handled[i]| < MAX_BUFFER {
      assert |c.all[q].handled[i]| < MAX_BUFFER;
    }
  }

  // ---- delivering ----

  /** Peer q as `c'` has it, after one attempt to send it s. */
  ghost predicate Attempted(c: Conns, c': Conns, q: nat, s: Sent)
    requires q < |c.all| == |c'.all|
  {
    && c'.all[q].fd == c.all[q].fd && c'.all[q].open == c.all[q].open
    && c'.all[q].namespace == c.all[q].namespace && c'.all[q].handled == c.all[q].handled
    && (c.all[q].closed ==> c'.all[q] == c.all[q])
    && c'.all[q].sent == (if c'.all[q].closed then c.all[q].sent else c.all[q].sent + [s])
  }

  ghost predicate Distinct(order: seq<nat>) { forall i, j | 0 <= i < j < |order| :: order[i] != order[j] }

  /** Each listed peer is attempted once and no other peer changes. */
  lemma {:induction false} SendAllAttempts(w: World, c: Conns, order: seq<nat>, s: Sent, writes: nat -> Writes, i: nat)
    requires (forall p | p in order :: p < |c.all|) && Distinct(order) && i <= |order|
    requires ConnsOk(w, c) && NewlineFree(w)
    ensures var c' := SendAll(w, c, order, s, writes, i);
      && ConnsOk(w, c')
      && (forall q | 0 <= q < |c.all| && q in order[i..] :: Attempted(c, c', q, s))
      && (forall q | 0 <= q < |c.all| && q !in order[i..] :: c'.all[q] == c.all[q])
    decreases |order| - i
  {
    hide ConnsOk, Attempted, Distinct, Send;
    if i < |order| {
      var p := order[i];
      assert p in order;
      var c1, c' := Send(w, c, p, s, writes(i)), SendAll(w, c, order, s, writes, i);
      OneAttempt(w, c, p, s, writes(i));
      SendAllAttempts(w, c1, order, s, writes, i + 1);
      assert c' == SendAll(w, c1, order, s, writes, i + 1);
      hide SendAll;
      NotAgain(order, i);
      forall q | 0 <= q < |c.all| && q in order[i..] ensures Attempted(c, c', q, s) {
        AttemptedOnce(c, c1, c', p, q, s);
      }
    }
  }

  lemma NotAgain(order: seq<nat>, i: nat)
    requires Distinct(order) && i < |order|
    ensures order[i] !in order[i + 1..] && forall q :: q in order[i..] <==> q == order[i] || q in order[i + 1..]
  {
    assert order[i..] == [order[i]] + order[i + 1..];
  }

  lemma OneAttempt(w: World, c: Conns, p: nat, s: Sent, writes: Writes)
    requires ConnsOk(w, c) && NewlineFree(w) && p < |c.all|
    ensures var c1 := Send(w, c, p, s, writes);
      ConnsOk(w, c1) && Attempted(c, c1, p, s) && forall q | 0 <= q < |c.all| && q != p :: c1.all[q] == c.all[q]
  {
    assert WireOk(w, c.all[p]);
    SendTouches(w, c, p, s, writes);
    SendWire(w, c, p, s, writes);
    hide Send, ConnsOk, WireOk;
    TouchedConns(w, c, Send(w, c, p, s, writes), p);
  }

  /** One attempt, before or after others are attempted. */
  lemma AttemptedOnce(c: Conns, c1: Conns, c': Conns, p: nat, q: nat, s: Sent)
    requires q < |c.all| == |c1.all| == |c'.all| && p < |c.all|
    requires if q == p then Attempted(c, c1, q, s) && c'.all[q] == c1.all[q] else c1.all[q] == c.all[q] && Attempted(c1, c', q, s)
    ensures Attempted(c, c', q, s)
  {}

  lemma DirectReceipts(h: Hold, h': Hold, p: nat, q: Conn, q': Conn, m: Message, ns: string)
    requires HoldOk(h) && HoldOk(h') && ReceiptsOk(h, p, q) && m.namespace == Some(ns)
    requires h' == Logged(h, m, Direct) && ns !in h.pending
    requires q'.sent == q.sent || q'.sent == q.sent + [Sent(m, Some((|h.log|, ns)))]
    ensures ReceiptsOk(h', p, q')
  {
    ReceiptsLater(h, h', p, q);
    var s := Sent(m, Some((|h.log|, ns)));
    assert SentOk(h', p, s) by {
      forall k | 0 <= k < |h'.log| && h'.fates[k] == Waiting ensures h'.log[k].namespace != Some(ns) { assert Placed(h', k); }
    }
    forall i | 0 <= i < |q'.sent| ensures SentOk(h', p, q'.sent[i]) {
      if i < |q.sent| { assert SentOk(h', p, q.sent[i]); }
    }
    forall i, j | 0 <= i < j < |q'.sent| ensures InOrder(q'.sent[i], q'.sent[j]) {
      if j < |q.sent| { assert InOrder(q.sent[i], q.sent[j]); } else { assert SentOk(h, p, q.sent[i]); }
    }
  }

  lemma DirectCross(w: World, c: Conns, c': Conns, h: Hold, m: Message, ns: string)
    requires HoldOk(h) && CrossOk(c, h) && HoldOk(Logged(h, m, Direct)) && m.namespace == Some(ns) && ns !in h.pending
    requires |c'.all| == |c.all|
    requires forall q | 0 <= q < |c.all| :: c'.all[q] == c.all[q] || Attempted(c, c', q, Sent(m, Some((|h.log|, ns))))
    ensures CrossOk(c', Logged(h, m, Direct))
  {
    var h' := Logged(h, m, Direct);
    forall q | 0 <= q < |c'.all| ensures ReceiptsOk(h', q, c'.all[q]) {
      assert ReceiptsOk(h, q, c.all[q]);
      DirectReceipts(h, h', q, c.all[q], c'.all[q], m, ns);
    }
    assert forall k | 0 <= k < |h'.fates| && h'.fates[k].Flushed? :: k < |h.fates| && h'.fates[k] == h.fates[k];
    GotStays(c, c', h);
  }

  lemma DirectKeeps(w: World, s: Core, m: Message, ns: string, order: seq<nat>, writes: nat -> Writes)
    requires CoreOk(w, s) && NewlineFree(w) && m.namespace == Some(ns) && Lists(order, s.conns, ns) && order != []
    ensures var s' := s.(conns := SendAll(w, s.conns, order, Sent(m, Some((|s.hold.log|, ns))), writes, 0),
                         hold := Logged(s.hold, m, Direct));
      CoreOk(w, s')
  {
    var note := Sent(m, Some((|s.hold.log|, ns)));
    assert Recipient(s.conns, ns, order[0]);
    assert ns !in s.hold.pending;
    SendAllAttempts(w, s.conns, order, note, writes, 0);
    LoggedDirect(s.hold, m);
    assert order[0..] == order;
    DirectCross(w, s.conns, SendAll(w, s.conns, order, note, writes, 0), s.hold, m, ns);
  }

  /** The queues moved on and the connections did not. */
  lemma HoldMoves(c: Conns, h: Hold, h': Hold)
    requires CrossOk(c, h) && Later(h, h') && NoFlush(h, h') && Exclusive(c, h')
    ensures CrossOk(c, h')
  {
    forall q | 0 <= q < |c.all| ensures ReceiptsOk(h', q, c.all[q]) { ReceiptsLater(h, h', q, c.all[q]); }
  }

  lemma QueuedKeeps(w: World, s: Core, m: Message, ns: string, now: real, connect: Connect)
    requires CoreOk(w, s) && m.namespace == Some(ns) && forall p :: !Recipient(s.conns, ns, p)
    ensures var k := |s.hold.log|;
      var h' := Wake(w, Enqueue(Logged(MakeRoom(s.hold), m, Waiting), ns, Held(now, k, m)), s.sockets, ns, connect);
      CoreOk(w, s.(hold := h'))
  {
    var h := s.hold;
    var h1 := MakeRoom(h);
    var h2 := Logged(h1, m, Waiting);
    var h3 := Enqueue(h2, ns, Held(now, |h.log|, m));
    var h4 := Wake(w, h3, s.sockets, ns, connect);
    assert h4.pending.Keys <= h.pending.Keys + {ns};
    OthersExclude(s.conns, h, h4, ns);
    hide ConnsOk, HoldOk, CrossOk, NotesOk, Exclusive;
    RoomMade(h);
    LoggedUnplaced(h1, m);
    Enqueued(h2, ns, Held(now, |h.log|, m));
    Woken(w, h3, s.sockets, ns, connect);
    HoldMoves(s.conns, h, h4);
  }

  /** No connected peer has the namespace of the new queue. */
  lemma OthersExclude(c: Conns, h: Hold, h': Hold, ns: string)
    requires TableOk(c) && Exclusive(c, h) && h'.pending.Keys <= h.pending.Keys + {ns} && forall p :: !Recipient(c, ns, p)
    ensures Exclusive(c, h')
  {
    forall p | 0 <= p < |c.all| && !c.all[p].closed && c.all[p].namespace.Some?
      ensures c.all[p].namespace.value !in h'.pending
    {
      assert !Recipient(c, ns, p);
      assert c.table[c.all[p].fd] == p;
    }
  }

  // ---- steps and runs ----

  lemma StepKeeps(w: World, s: State, e: Event)
    requires Sized(s) && CoreOk(w, s.core) && NewlineFree(w) && Enabled(s, e)
    ensures CoreOk(w, Step(w, s, e).core)
  {
    match e
    case AcceptEvent(fd, trusted) => AcceptKeeps(w, s, fd, trusted);
    case ReadEvent(p, chunk, env) => ReadKeeps(w, s, p, chunk, env);
    case ReplyEvent(p, status, writes) => StatusKeeps(w, s.core, p, Status(status), writes);
    case CancelEvent(p) => CancelKeeps(w, s.core, p);
    case DeliverEvent(m, order, now, sends, connect) =>
      if m.namespace.Some? {
        if order != [] { DirectKeeps(w, s.core, m, m.namespace.value, order, sends); }
        else { QueuedKeeps(w, s.core, m, m.namespace.value, now, connect); }
      }
    case SettingsEvent(t, allowed, copy) => SettledKeeps(s.core.notes, t, allowed, copy);
    case CheckEvent(t, alive) => CheckKeeps(s.core.notes, t, alive);
    case AddFailedEvent(t) => RetryKeeps(s.core.notes, t);
  }

  lemma {:induction false} RunKeeps(w: World, s: State, es: seq<Event>)
    requires Sized(s) && CoreOk(w, s.core) && NewlineFree(w) && Possible(w, s, es)
    ensures CoreOk(w, Run(w, s, es).core)
    decreases es
  {
    if es != [] {
      StepKeeps(w, s, es[0]);
      RunKeeps(w, Step(w, s, es[0]), es[1..]);
    }
  }

  /** Every state the broker can reach. */
  lemma Reachable(w: World, es: seq<Event>)
    requires NewlineFree(w) && Possible(w, START, es)
    ensures CoreOk(w, Run(w, START, es).core)
  {
    RunKeeps(w, START, es);
  }
}
