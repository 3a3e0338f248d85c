/** What every reachable state of the broker satisfies. */
module BrokerInvariants {
  import opened Lines
  import opened Options
  import opened BrokerModel

  // ---- the connection table ----

  /** `table[fd]` is the one peer on fd that has not been stopped, and every such peer is there;
      a stopped peer keeps its descriptor to itself until the cancel handler closes it. */
  ghost predicate TableOk(c: Conns) {
    && (forall fd | fd in c.table :: c.table[fd] < |c.all| && c.all[c.table[fd]].fd == fd && !c.all[c.table[fd]].closed)
    && (forall p | 0 <= p < |c.all| && !c.all[p].closed :: c.all[p].open && c.all[p].fd in c.table && c.table[c.all[p].fd] == p)
    && (forall p, q | 0 <= p < q < |c.all| && c.all[p].open && c.all[q].open :: c.all[p].fd != c.all[q].fd)
    && |c.table| <= MAX_PEERS
  }

  /** Lines handled are shorter than the buffer limit. */
  ghost predicate LinesOk(c: Conns) {
    forall p, i | 0 <= p < |c.all| && 0 <= i < |c.all[p].handled| :: |c.all[p].handled[i]| < MAX_BUFFER
  }

  ghost function LinesOf(w: World, sent: seq<Sent>): seq<Line> {
    seq(|sent|, i requires 0 <= i < |sent| => w.encode(sent[i].msg))
  }

  ghost predicate NewlineFree(w: World) { forall m :: NEWLINE !in w.encode(m) }

  /** What a peer was written: whole messages, then nothing unless it was stopped,
      and then at most an unfinished line. */
  ghost predicate WireOk(w: World, q: Conn) {
    && Unlines(LinesOf(w, q.sent)) <= q.wire
    && (if q.closed then NEWLINE !in q.wire[|Unlines(LinesOf(w, q.sent))|..] else q.wire == Unlines(LinesOf(w, q.sent)))
  }

  ghost predicate WiresOk(w: World, c: Conns) {
    forall p | 0 <= p < |c.all| :: WireOk(w, c.all[p])
  }

  // ---- the queues ----

  /** A queue holds messages of its namespace that wait, oldest first. */
  ghost predicate QueueOk(h: Hold, ns: string, q: seq<Held>)
    requires |h.fates| == |h.log|
  {
    && 0 < |q| <= MAX_HELD
    && (forall i | 0 <= i < |q| ::
          && q[i].serial < |h.log| && h.log[q[i].serial] == q[i].msg && q[i].msg.namespace == Some(ns)
          && h.fates[q[i].serial] == Waiting)
    && Increasing(q)
  }

  ghost predicate Increasing(items: seq<Held>) {
    forall i, j | 0 <= i < j < |items| :: items[i].serial < items[j].serial
  }

  /** Message k has a namespace, and if it waits it is in the queue of that namespace. */
  ghost predicate Placed(h: Hold, k: nat)
    requires |h.fates| == |h.log| && k < |h.log|
  {
    && h.log[k].namespace.Some?
    && (h.fates[k] == Waiting ==> Contains(Queue(h, h.log[k].namespace.value), k))
  }

  ghost predicate HoldOk(h: Hold) {
    && |h.fates| == |h.log|
    && (forall ns | ns in h.pending :: QueueOk(h, ns, h.pending[ns]))
    && (forall k | 0 <= k < |h.log| :: Placed(h, k))
    && |h.pending| <= MAX_QUEUES
  }

  // ---- peers and queues together ----

  /** No queue is kept for a namespace that a connected peer holds. */
  ghost predicate Exclusive(c: Conns, h: Hold) {
    forall p | 0 <= p < |c.all| && !c.all[p].closed && c.all[p].namespace.Some? :: c.all[p].namespace.value !in h.pending
  }

  /** A delivered message written to a peer: it is the one with its serial number, the peer held its
      namespace, it was not queued or left its queue to this peer, and all that waits there is younger. */
  ghost predicate SentOk(h: Hold, p: nat, s: Sent) {
    s.origin.Some? ==>
      var (k, ns) := s.origin.value;
      && k < |h.log| && h.log[k] == s.msg && h.log[k].namespace == Some(ns)
      && k < |h.fates| && h.fates[k] in {Direct, Flushed(p)}
      && (forall j | 0 <= j < |h.log| && j < |h.fates| && h.fates[j] == Waiting && h.log[j].namespace == Some(ns) :: k < j)
  }

  ghost predicate InOrder(a: Sent, b: Sent) {
    a.origin.Some? && b.origin.Some? && a.origin.value.1 == b.origin.value.1 ==> a.origin.value.0 < b.origin.value.0
  }

  ghost predicate ReceiptsOk(h: Hold, p: nat, q: Conn) {
    && (forall i | 0 <= i < |q.sent| :: SentOk(h, p, q.sent[i]))
    && (forall i, j | 0 <= i < j < |q.sent| :: InOrder(q.sent[i], q.sent[j]))
  }

  ghost predicate Got(q: Conn, k: nat) {
    exists i :: 0 <= i < |q.sent| && q.sent[i].origin.Some? && q.sent[i].origin.value.0 == k
  }

  ghost predicate CrossOk(c: Conns, h: Hold) {
    && Exclusive(c, h)
    && (forall p | 0 <= p < |c.all| :: ReceiptsOk(h, p, c.all[p]))
    && (forall k | 0 <= k < |h.fates| && h.fates[k].Flushed? :: h.fates[k].peer < |c.all| && Got(c.all[h.fates[k].peer], k))
  }

  // ---- one peer at a time: how Send and Stop change the connections ----

  /** From c to c' only peer p changed, by sends, a stop or both. */
  ghost predicate Touched(c: Conns, c': Conns, p: nat) {
    && |c'.all| == |c.all| && p < |c.all|
    && (forall q | 0 <= q < |c.all| && q != p :: c'.all[q] == c.all[q])
    && c'.all[p].fd == c.all[p].fd && c'.all[p].open == c.all[p].open
    && c'.all[p].namespace == c.all[p].namespace && c'.all[p].handled == c.all[p].handled
    && c.all[p].wire <= c'.all[p].wire && c.all[p].sent <= c'.all[p].sent
    && (c.all[p].closed ==> c' == c)
    && c'.table == (if !c.all[p].closed && c'.all[p].closed then c.table - {c.all[p].fd} else c.table)
  }

  lemma StopTouches(c: Conns, p: nat)
    requires p < |c.all|
    ensures Touched(c, Stop(c, p), p) && Stop(c, p).all[p].closed
    ensures Stop(c, p).all[p].sent == c.all[p].sent && Stop(c, p).all[p].wire == c.all[p].wire
  {}

  lemma SendTouches(w: World, c: Conns, p: nat, s: Sent, writes: Writes)
    requires p < |c.all|
    ensures var c' := Send(w, c, p, s, writes);
      && Touched(c, c', p)
      && c'.all[p].sent == (if c'.all[p].closed then c.all[p].sent else c.all[p].sent + [s])
  {}

  lemma TouchedTwice(a: Conns, b: Conns, c: Conns, p: nat)
    requires Touched(a, b, p) && Touched(b, c, p)
    ensures Touched(a, c, p)
  {}

  lemma TouchedTable(c: Conns, c': Conns, p: nat)
    requires Touched(c, c', p) && TableOk(c)
    ensures TableOk(c')
  {
    assert c'.table.Keys <= c.table.Keys;
    CardinalityMonotone(c'.table.Keys, c.table.Keys);
  }

  lemma {:induction false} CardinalityMonotone<T>(a: set<T>, b: set<T>)
    requires a <= b
    ensures |a| <= |b|
  {
    assert b == a + (b - a);
  }

  /** What a full write leaves: the line is framed and everything before it was whole. */
  lemma SendWire(w: World, c: Conns, p: nat, s: Sent, writes: Writes)
    requires p < |c.all| && WireOk(w, c.all[p]) && NewlineFree(w)
    ensures WireOk(w, Send(w, c, p, s, writes).all[p])
  {
    var q := c.all[p];
    var line := w.encode(s.msg);
    var n := Push(|line| + 1, writes);
    var whole := Unlines(LinesOf(w, q.sent));
    if !q.closed {
      if n == |line| + 1 {
        assert LinesOf(w, q.sent + [s]) == LinesOf(w, q.sent) + [line];
        UnlinesSnoc(LinesOf(w, q.sent), line);
        assert (line + [NEWLINE])[..n] == line + [NEWLINE];
        assert whole + line + [NEWLINE] == whole + (line + [NEWLINE]);
      } else {
        assert (line + [NEWLINE])[..n] == line[..n];
        assert (q.wire + line[..n])[|whole|..] == line[..n];
      }
    }
  }

  // ---- flushing a queue ----

  /** The queued messages from index i on that were written out, in order. */
  ghost function Kept(items: seq<Held>, ns: string, fates: seq<Fate>, p: nat, i: nat): seq<Sent>
    requires i <= |items|
    decreases |items| - i
  {
    if i == |items| then []
    else
      KeptHead(items[i], ns, fates, p) + Kept(items, ns, fates, p, i + 1)
  }

  ghost predicate FlushedTo(fates: seq<Fate>, k: nat, p: nat) { k < |fates| && fates[k] == Flushed(p) }

  ghost function KeptHead(item: Held, ns: string, fates: seq<Fate>, p: nat): seq<Sent> {
    if FlushedTo(fates, item.serial, p) then [Sent(item.msg, Some((item.serial, ns)))] else []
  }

  /** The x-th message written is the item of some index j, flushed to p ... */
  lemma {:induction false} KeptAt(items: seq<Held>, ns: string, fates: seq<Fate>, p: nat, i: nat, x: nat) returns (j: nat)
    requires i <= |items| && x < |Kept(items, ns, fates, p, i)|
    ensures i <= j < |items| && FlushedTo(fates, items[j].serial, p)
    ensures Kept(items, ns, fates, p, i)[x] == Sent(items[j].msg, Some((items[j].serial, ns)))
    decreases |items| - i
  {
    var here := KeptHead(items[i], ns, fates, p);
    assert Kept(items, ns, fates, p, i) == here + Kept(items, ns, fates, p, i + 1);
    if x < |here| { j := i; } else { j := KeptAt(items, ns, fates, p, i + 1, x - |here|); }
  }

  /** ... every item flushed to p is written ... */
  lemma {:induction false} KeptHas(items: seq<Held>, ns: string, fates: seq<Fate>, p: nat, i: nat, j: nat) returns (x: nat)
    requires i <= j < |items| && FlushedTo(fates, items[j].serial, p)
    ensures x < |Kept(items, ns, fates, p, i)|
    ensures Kept(items, ns, fates, p, i)[x].origin == Some((items[j].serial, ns))
    decreases |items| - i
  {
    var here := KeptHead(items[i], ns, fates, p);
    assert Kept(items, ns, fates, p, i) == here + Kept(items, ns, fates, p, i + 1);
    if i == j { x := 0; } else {
      x := KeptHas(items, ns, fates, p, i + 1, j);
      x := x + |here|;
    }
  }

  /** ... and the order is the queue's. */
  lemma {:induction false} KeptOrdered(items: seq<Held>, ns: string, fates: seq<Fate>, p: nat, i: nat, x: nat, y: nat)
    requires i <= |items| && Increasing(items) && x < y < |Kept(items, ns, fates, p, i)|
    ensures Kept(items, ns, fates, p, i)[x].origin.Some? && Kept(items, ns, fates, p, i)[y].origin.Some?
    ensures Kept(items, ns, fates, p, i)[x].origin.value.0 < Kept(items, ns, fates, p, i)[y].origin.value.0
    decreases |items| - i
  {
    var here := KeptHead(items[i], ns, fates, p);
    assert Kept(items, ns, fates, p, i) == here + Kept(items, ns, fates, p, i + 1);
    if x < |here| {
      var j := KeptAt(items, ns, fates, p, i + 1, y - |here|);
    } else {
      KeptOrdered(items, ns, fates, p, i + 1, x - |here|, y - |here|);
    }
  }

  lemma {:induction false} FlushTouches(w: World, c: Conns, fates: seq<Fate>, p: nat, items: seq<Held>, ns: string, env: Env, i: nat)
    requires p < |c.all| && i <= |items|
    requires NewlineFree(w) && WireOk(w, c.all[p])
    ensures var c' := Flush(w, c, fates, p, items, ns, env, i).0; Touched(c, c', p) && WireOk(w, c'.all[p])
    decreases |items| - i
  {
    if i < |items| {
      var c1 := FlushHead(w, c, p, items[i], ns, env, i);
      var f1 := Mark(fates, items[i].serial, HeadFate(c1, p, items[i], env, i));
      if c1 != c {
        SendTouches(w, c, p, Sent(items[i].msg, Some((items[i].serial, ns))), env.writes(i));
        SendWire(w, c, p, Sent(items[i].msg, Some((items[i].serial, ns))), env.writes(i));
      }
      FlushTouches(w, c1, f1, p, items, ns, env, i + 1);
      TouchedTwice(c, c1, Flush(w, c1, f1, p, items, ns, env, i + 1).0, p);
    }
  }

  /** What a flush may make of the item it meets at clock reading i: it expires exactly if it is too old,
      is not flushed to a stopped peer, and is not lost by a peer that stays connected. */
  ghost predicate FateOf(c: Conns, c': Conns, p: nat, item: Held, env: Env, i: nat, f: Fate)
    requires p < |c.all| && p < |c'.all|
  {
    && (f == Expired <==> env.clock(i) - item.at >= HOLD_SECONDS)
    && f in {Expired, Lost(p), Flushed(p)}
    && (c.all[p].closed ==> f != Flushed(p))
    && (!c'.all[p].closed ==> f != Lost(p))
  }

  /** A flush settles every item of the queue and touches no other message. */
  lemma {:induction false} FlushFates(w: World, c: Conns, fates: seq<Fate>, p: nat, items: seq<Held>, ns: string, env: Env, i: nat)
    requires p < |c.all| && i <= |items| && Increasing(items)
    requires forall j | i <= j < |items| :: items[j].serial < |fates|
    ensures var (c', f') := Flush(w, c, fates, p, items, ns, env, i);
      && (forall j | i <= j < |items| :: FateOf(c, c', p, items[j], env, j, f'[items[j].serial]))
      && (forall k | 0 <= k < |fates| && (forall j | i <= j < |items| :: items[j].serial != k) :: f'[k] == fates[k])
      && (c.all[p].closed ==> c'.all[p].closed)
    decreases |items| - i
  {
    if i < |items| {
      var c1 := FlushHead(w, c, p, items[i], ns, env, i);
      var f1 := Mark(fates, items[i].serial, HeadFate(c1, p, items[i], env, i));
      var (c', f') := Flush(w, c1, f1, p, items, ns, env, i + 1);
      assert Flush(w, c, fates, p, items, ns, env, i) == (c', f');
      FlushFates(w, c1, f1, p, items, ns, env, i + 1);
      assert f'[items[i].serial] == f1[items[i].serial];
    }
  }

  predicate Recent(item: Held, env: Env, i: nat) { env.clock(i) - item.at < HOLD_SECONDS }

  /** The writes for item i do not reach the end of its line. */
  predicate Falls(w: World, item: Held, env: Env, i: nat) {
    Push(|w.encode(item.msg)| + 1, env.writes(i)) <= |w.encode(item.msg)|
  }

  /** The first item from i on that is recent and whose writes fall short. */
  function FirstFall(w: World, items: seq<Held>, env: Env, i: nat): (k: nat)
    requires i <= |items|
    ensures i <= k <= |items|
    ensures k < |items| ==> Recent(items[k], env, k) && Falls(w, items[k], env, k)
    ensures forall j | i <= j < k :: Recent(items[j], env, j) ==> !Falls(w, items[j], env, j)
    decreases |items| - i
  {
    if i == |items| || (Recent(items[i], env, i) && Falls(w, items[i], env, i)) then i else FirstFall(w, items, env, i + 1)
  }

  /** What a flush to p makes of item j, if the writes fail at item `cut`. */
  function FlushFate(items: seq<Held>, env: Env, p: nat, cut: nat, j: nat): Fate
    requires j < |items|
  {
    if !Recent(items[j], env, j) then Expired else if j < cut then Flushed(p) else Lost(p)
  }

  /** An open peer gets the recent items up to the first whose writes fall short, which
      stops it; a stopped peer gets none. */
  lemma {:induction false} FlushCut(w: World, c: Conns, fates: seq<Fate>, p: nat, items: seq<Held>, ns: string, env: Env, i: nat, cut: nat)
    requires p < |c.all| && i <= |items| && Increasing(items)
    requires forall j | i <= j < |items| :: items[j].serial < |fates|
    requires if c.all[p].closed then cut <= i else cut == FirstFall(w, items, env, i)
    ensures var (c', f') := Flush(w, c, fates, p, items, ns, env, i);
      && (forall j | i <= j < |items| :: f'[items[j].serial] == FlushFate(items, env, p, cut, j))
      && (c'.all[p].closed <==> c.all[p].closed || cut < |items|)
    decreases |items| - i
  {
    if i < |items| {
      var c1 := FlushHead(w, c, p, items[i], ns, env, i);
      var f1 := Mark(fates, items[i].serial, HeadFate(c1, p, items[i], env, i));
      var (c', f') := Flush(w, c1, f1, p, items, ns, env, i + 1);
      assert Flush(w, c, fates, p, items, ns, env, i) == (c', f');
      HeadCut(w, c, p, items, ns, env, i, cut);
      FlushFates(w, c1, f1, p, items, ns, env, i + 1);
      assert f'[items[i].serial] == f1[items[i].serial];
      hide FlushHead, HeadFate, Flush, FlushFate, FateOf;
      FlushCut(w, c1, f1, p, items, ns, env, i + 1, cut);
    }
  }

  /** The first of these items. */
  lemma HeadCut(w: World, c: Conns, p: nat, items: seq<Held>, ns: string, env: Env, i: nat, cut: nat)
    requires p < |c.all| && i < |items|
    requires if c.all[p].closed then cut <= i else cut == FirstFall(w, items, env, i)
    ensures var c1 := FlushHead(w, c, p, items[i], ns, env, i);
      && HeadFate(c1, p, items[i], env, i) == FlushFate(items, env, p, cut, i)
      && (if c1.all[p].closed then cut <= i else cut == FirstFall(w, items, env, i + 1))
      && (c1.all[p].closed <==> c.all[p].closed || cut == i)
  {
  }

  /** The peer receives exactly the items recorded as flushed, in queue order. */
  lemma {:induction false} FlushSends(w: World, c: Conns, fates: seq<Fate>, p: nat, items: seq<Held>, ns: string, env: Env, i: nat)
    requires p < |c.all| && i <= |items| && Increasing(items)
    requires forall j | i <= j < |items| :: items[j].serial < |fates|
    ensures var (c', f') := Flush(w, c, fates, p, items, ns, env, i);
      c'.all[p].sent == c.all[p].sent + Kept(items, ns, f', p, i)
    decreases |items| - i
  {
    if i < |items| {
      var c1 := FlushHead(w, c, p, items[i], ns, env, i);
      var f1 := Mark(fates, items[i].serial, HeadFate(c1, p, items[i], env, i));
      var (c', f') := Flush(w, c1, f1, p, items, ns, env, i + 1);
      assert Flush(w, c, fates, p, items, ns, env, i) == (c', f');
      FlushFates(w, c1, f1, p, items, ns, env, i + 1);
      assert f'[items[i].serial] == f1[items[i].serial];
      var here := KeptHead(items[i], ns, f', p);
      assert c1.all[p].sent == c.all[p].sent + here;
      FlushSends(w, c1, f1, p, items, ns, env, i + 1);
      SentTwice(c.all[p].sent, here, Kept(items, ns, f', p, i + 1));
    }
  }

  lemma SentTwice<T>(a: seq<T>, b: seq<T>, c: seq<T>)
    ensures a + b + c == a + (b + c)
  {}
}
