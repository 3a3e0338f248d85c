/** The edges of the broker: what write, read, accept and connect decide, without the functions that act on it. */
module BrokerEdges {
  import opened Lines
  import opened Options
  import opened BrokerModel
  import opened BrokerInvariants
  import opened BrokerRuns
  import opened BrokerTheorems
  import opened BrokerWire

  // ---- write ----

  /** What ends the write loop early: an error other than an interruption, or no progress. */
  predicate Ends(r: WriteResult) { r == Failed || r == Wrote(0) }

  function Count(r: WriteResult): nat { if r.Wrote? then r.n else 0 }

  /** The bytes that the first k writes take. */
  function Written(w: Writes, k: nat): nat
    requires k <= |w|
  {
    if k == 0 then 0 else Written(w, k - 1) + Count(w[k - 1])
  }

  lemma {:induction false} WrittenFrom(w: Writes, k: nat)
    requires 0 < k <= |w|
    ensures Written(w, k) == Count(w[0]) + Written(w[1..], k - 1)
  {
    if k > 1 { WrittenFrom(w, k - 1); }
  }

  /** The bytes that reach the socket are those of all writes before the first that ends the loop, or
      all there are. An interrupted write takes none and ends nothing. */
  lemma {:induction false} PushIs(total: nat, w: Writes, k: nat)
    requires k <= |w| && (forall i | 0 <= i < k :: !Ends(w[i])) && (k < |w| ==> Ends(w[k]))
    ensures Push(total, w) == if Written(w, k) < total then Written(w, k) else total
    decreases k
  {
    if total > 0 && k > 0 {
      WrittenFrom(w, k);
      if Count(w[0]) < total { PushIs(total - Count(w[0]), w[1..], k - 1); }
    }
  }

  // ---- read ----

  /** The end of the stream, and a line that outgrows a megabyte, stop the peer. Nothing is handled for it, and no
      other peer, queue or notification is touched. */
  lemma ReadStops(w: World, s: State, p: nat, chunk: seq<byte>, env: nat -> Env)
    requires Sized(s) && CoreOk(w, s.core) && p < |s.inbox| && (chunk == [] || |s.inbox[p]| + |chunk| > 0x10_0000)
    ensures var (c, r) := (s.core.conns, Read(w, s, p, chunk, env).core);
      && r == s.core.(conns := r.conns) && |r.conns.all| == |c.all|
      && r.conns.all[p] == c.all[p].(closed := true)
      && (forall q | 0 <= q < |c.all| && q != p :: r.conns.all[q] == c.all[q])
      && forall fd :: fd in r.conns.table ==> fd in c.table && r.conns.table[fd] == c.table[fd] != p
  {
    TableNot(w, s.core, p);
    hide CoreOk, Drain;
  }

  /** Anything else that is read, up to exactly a megabyte with what was waiting, is handled line by line. */
  lemma ReadHandles(w: World, s: State, p: nat, chunk: seq<byte>, env: nat -> Env, lines: seq<Line>, rest: seq<byte>)
    requires Sized(s) && p < |s.inbox| && chunk != [] && |s.inbox[p]| + |chunk| <= 0x10_0000
    requires Framed(lines) && NEWLINE !in rest && s.inbox[p] + chunk == Unlines(lines) + rest
    ensures var r := Read(w, s, p, chunk, env);
      r.core == HandleAll(w, s.core, p, lines, env) && (Readable(w, lines) ==> r.inbox == s.inbox[p := rest])
  {
    hide Drain, HandleAll, Readable;
    DrainLines(w, s.(inbox := s.inbox[p := s.inbox[p] + chunk]), p, lines, rest, env);
    assert s.inbox[p := s.inbox[p] + chunk][p := rest] == s.inbox[p := rest];
  }

  /** An answer to a question about the status reaches its peer, if that is open, or stops it, and touches nobody else. */
  lemma ReplySends(w: World, s: State, p: nat, status: string, writes: Writes)
    requires Sized(s) && p < |s.inbox|
    ensures var (a, r) := (s.core.conns.all, Step(w, s, ReplyEvent(p, status, writes)));
      var q := r.core.conns.all[p];
      && (if q.closed then q.sent == a[p].sent
          else |q.sent| == |a[p].sent| + 1 && a[p].sent <= q.sent
               && (var m := q.sent[|a[p].sent|].msg; m.version == 2 && m.kind == "status" && m.status == Some(status)))
      && (forall x | 0 <= x < |a| && x != p :: r.core.conns.all[x] == a[x])
      && r.core == s.core.(conns := r.core.conns) && r.inbox == s.inbox
  {
    hide Send;
    SendTouches(w, s.core.conns, p, Sent(Status(status), None), writes);
  }

  lemma TableNot(w: World, s: Core, p: nat)
    requires CoreOk(w, s) && p < |s.conns.all|
    ensures forall fd | fd in s.conns.table && s.conns.table[fd] == p :: fd == s.conns.all[p].fd && !s.conns.all[p].closed
  {}

  /** A line is a message exactly if it decodes to one of version 2. */
  lemma AcceptedIs(w: World, line: Line, m: Message)
    ensures Accepted(w, line) == Some(m) <==> w.decode(line) == Some(m) && m.version == 2
  {}

  // ---- accept ----

  /** A connection of another user, or one too many, is closed and nothing remembers it; any other is a
      new open peer without a namespace, found by its descriptor, with an empty buffer. */
  lemma AcceptIs(s: State, fd: int, trusted: bool)
    requires Sized(s)
    ensures var (c, r, n) := (s.core.conns, Accept(s, fd, trusted), |s.core.conns.all|);
      if trusted && |c.table| < 64 then
        && Sized(r) && |r.inbox| == n + 1 && r.inbox[n] == [] && (forall q | 0 <= q < n :: r.inbox[q] == s.inbox[q])
        && (forall q | 0 <= q < n :: r.core.conns.all[q] == c.all[q])
        && (var q := r.core.conns.all[n]; q.fd == fd && q.open && !q.closed && q.namespace == None && q.wire == [] && q.sent == [] && q.handled == [])
        && fd in r.core.conns.table && r.core.conns.table[fd] == n
        && (forall f | f != fd :: f in r.core.conns.table <==> f in c.table)
        && (forall f | f in c.table && f != fd :: r.core.conns.table[f] == c.table[f])
        && r.core == s.core.(conns := r.core.conns)
      else r == s
  {}

  /** Once a stopped peer's descriptor is closed, the kernel may give it to a new connection. Until then it may not,
      and nothing but that changes. */
  lemma CancelFrees(w: World, s: State, p: nat, trusted: bool)
    requires Sized(s) && Enabled(s, CancelEvent(p))
    requires forall q | 0 <= q < |s.core.conns.all| && q != p && s.core.conns.all[q].open :: s.core.conns.all[q].fd != s.core.conns.all[p].fd
    ensures var (a, r, fd) := (s.core.conns.all, Step(w, s, CancelEvent(p)), s.core.conns.all[p].fd);
      && !Enabled(s, AcceptEvent(fd, trusted)) && Enabled(r, AcceptEvent(fd, trusted))
      && r.core.conns.table == s.core.conns.table && |r.core.conns.all| == |a|
      && (forall q | 0 <= q < |a| :: r.core.conns.all[q] == if q == p then a[q].(open := false) else a[q])
      && r.core == s.core.(conns := r.core.conns) && r.inbox == s.inbox
  {}

  // ---- connect ----

  /** UTF-8 of one character, as in section 3 of RFC 3629. */
  function Utf8Char(c: char): seq<int> {
    var n := c as int;
    if n < 0x80 then [n]
    else if n < 0x800 then [0xC0 + n / 64, 0x80 + n % 64]
    else if n < 0x1_0000 then [0xE0 + n / 4096, 0x80 + n / 64 % 64, 0x80 + n % 64]
    else [0xF0 + n / 262144, 0x80 + n / 4096 % 64, 0x80 + n / 64 % 64, 0x80 + n % 64]
  }

  function Utf8(s: string): seq<int> { if s == "" then [] else Utf8Char(s[0]) + Utf8(s[1..]) }

  lemma {:induction false} CountIs(s: string)
    ensures Utf8Count(s) == |Utf8(s)|
  {
    if s != "" { CountIs(s[1..]); }
  }

  /** The socket that wakes a namespace's daemon: the one from its hello, or else the default
      one if it is its; and the path fits an address of 104 bytes with its terminator. */
  ghost predicate Wakes(w: World, sockets: map<string, string>, ns: string, path: string) {
    && (if ns in sockets then path == sockets[ns] else w.defaultSocket == Some(path) && w.digest(path) == ns)
    && |Utf8(path)| < 104
  }

  /** What waits for a daemon is dropped exactly if there is such a socket and nothing is behind it or nobody listens. */
  lemma WakeRefusedIs(w: World, sockets: map<string, string>, ns: string, connect: Connect)
    ensures WakeRefused(w, sockets, ns, connect) <==>
      (exists path :: Wakes(w, sockets, ns, path)) && connect in {NoEntry, ConnectionRefused}
  {
    var path := if ns in sockets then Some(sockets[ns])
                else if w.defaultSocket.Some? && w.digest(w.defaultSocket.value) == ns then w.defaultSocket else None;
    if path.Some? {
      CountIs(path.value);
      assert Utf8Count(path.value) < 104 ==> Wakes(w, sockets, ns, path.value);
    }
    forall p | Wakes(w, sockets, ns, p) ensures path == Some(p) {}
  }

  /** With nobody connected, a new message is refused exactly then, and waits otherwise. */
  lemma RefusedExactly(w: World, s: Core, m: Message, ns: string, now: real, writes: nat -> Writes, connect: Connect)
    requires CoreOk(w, s) && m.namespace == Some(ns)
    ensures var r := Deliver(w, s, m, [], now, writes, connect).hold;
      && |r.fates| == |s.hold.log| + 1
      && r.fates[|s.hold.log|] ==
           if (exists path :: Wakes(w, s.sockets, ns, path)) && connect in {NoEntry, ConnectionRefused} then Refused else Waiting
  {
    hide CoreOk, Wakes, WakeRefused, Deliver;
    WakeRefusedIs(w, s.sockets, ns, connect);
    QueueingFates(w, s, m, ns, now, writes, connect, |s.hold.log|);
  }
}
