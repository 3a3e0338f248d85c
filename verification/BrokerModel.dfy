/** The macOS notification broker as a transition system: the state of its peers,
    queues and notifications, and one function for each thing its serial queue runs.
    What the kernel, the clock and the notification centre decide arrives as arguments. */
module BrokerModel {
  import opened Lines
  import opened Options

  datatype Notice = Notice(id: string, chat: string, title: string, body: string,
                           sender: string, avatar: string, sound: bool)

  datatype Message = Message(version: int, kind: string, namespace: Option<string>, id: Option<string>,
                             chat: Option<string>, status: Option<string>, notice: Option<Notice>,
                             socket: Option<string>, url: Option<string>)

  /** What never changes while the broker runs: the JSON codec, the digest that
      turns a socket path into a namespace, and the login service's socket. */
  datatype World = World(encode: Message -> Line, decode: Line -> Option<Message>,
                         digest: string -> string, defaultSocket: Option<string>)

  const VERSION := 2
  const MAX_BUFFER := 0x10_0000
  const CHUNK := 8192
  const MAX_PEERS := 64
  const MAX_QUEUES := 64
  const MAX_HELD := 16
  const HOLD_SECONDS := 30.0
  const SUN_PATH := 104

  /** One result of write(2). */
  datatype WriteResult = Interrupted | Failed | Wrote(n: nat)
  type Writes = seq<WriteResult>

  /** What one handled message meets outside: a clock reading and a write schedule per item sent. */
  datatype Env = Env(clock: nat -> real, writes: nat -> Writes)

  datatype Connect = NoSocket | Connected | NoEntry | ConnectionRefused | OtherError

  // ---- state ----

  /** A message written out in full; `origin` is set when it came from `Deliver`:
      its serial number and the peer's namespace when it was sent. */
  datatype Sent = Sent(msg: Message, origin: Option<(nat, string)>)

  /** A peer. `open` says that the kernel still holds its descriptor, `wire` is every byte
      written to it, `sent` the messages among them, `handled` the lines given to `Handle`. */
  datatype Conn = Conn(fd: int, open: bool, namespace: Option<string>, closed: bool,
                       wire: seq<byte>, sent: seq<Sent>, handled: seq<Line>)

  /** Every peer ever accepted, in order, and the server's table from descriptor to peer. */
  datatype Conns = Conns(all: seq<Conn>, table: map<int, nat>)

  datatype Held = Held(at: real, serial: nat, msg: Message)
  /** What became of a delivered message: it had recipients at once, it waits in its queue, or
      it left the queue: written to a peer, lost with a peer, or dropped for one of four reasons. */
  datatype Fate = Direct | Waiting | Flushed(peer: nat) | Lost(peer: nat) | Expired | Evicted | Overflowed | Refused

  /** The queues for absent daemons. `log` is every message delivered, by serial number,
      and `fates` what became of each. */
  datatype Hold = Hold(pending: map<string, seq<Held>>, log: seq<Message>, fates: seq<Fate>)

  datatype Show = Show(ns: string, id: string, peer: nat)
  datatype Act =
    | Shown(ns: string, id: string, token: nat)
    | Closed(ns: string, id: string)
    | Posted(ns: string, id: string, token: nat)
    | Reposted(ns: string, id: string, token: nat)

  /** Notification state. A token (the program's fresh UUID) is an index into `shows`; `asked` are
      the ones waiting for the settings callback, `ready` the ones whose block is queued (with
      whether an attachment was made), `retry` the ones posted with an attachment. */
  datatype Notes = Notes(generations: map<string, nat>, shows: seq<Show>, asked: set<nat>,
                         ready: map<nat, bool>, retry: set<nat>, hist: seq<Act>)

  datatype Core = Core(conns: Conns, hold: Hold, notes: Notes, sockets: map<string, string>, terminating: bool)

  /** `inbox[p]` is the read buffer of peer p. */
  datatype State = State(core: Core, inbox: seq<seq<byte>>)

  const START: State :=
    State(Core(Conns([], map[]), Hold(map[], [], []), Notes(map[], [], {}, map[], {}, []), map[], false), [])

  // ---- sending ----

  /** Bytes of `total` that reach the socket under a schedule of write results. A schedule
      that runs out is the five-second send timeout, which write reports as a failure. */
  function Push(total: nat, w: Writes): (sent: nat)
    ensures sent <= total
    decreases |w|
  {
    if total == 0 || w == [] then 0
    else match w[0]
      case Interrupted => Push(total, w[1..])
      case Failed => 0
      case Wrote(n) =>
        if n == 0 then 0 else if n >= total then total else n + Push(total - n, w[1..])
  }

  function Stop(c: Conns, p: nat): (r: Conns)
    requires p < |c.all|
    ensures |r.all| == |c.all|
  {
    if c.all[p].closed then c
    else Conns(c.all[p := c.all[p].(closed := true)], c.table - {c.all[p].fd})
  }

  function Send(w: World, c: Conns, p: nat, s: Sent, writes: Writes): (r: Conns)
    requires p < |c.all|
    ensures |r.all| == |c.all|
  {
    if c.all[p].closed then c
    else
      var bytes := w.encode(s.msg) + [NEWLINE];
      var n := Push(|bytes|, writes);
      var q := c.all[p].(wire := c.all[p].wire + bytes[..n]);
      if n == |bytes| then c.(all := c.all[p := q.(sent := q.sent + [s])])
      else Stop(c.(all := c.all[p := q]), p)
  }

  function Status(text: string): Message {
    Message(VERSION, "status", None, None, None, Some(text), None, None, None)
  }

  // ---- hello ----

  predicate HexDigit(c: char) {
    || '0' <= c <= '9' || 'a' <= c <= 'f' || 'A' <= c <= 'F'
    // Swift's isHexDigit also accepts the fullwidth forms
    || '\U{FF10}' <= c <= '\U{FF19}' || '\U{FF21}' <= c <= '\U{FF26}' || '\U{FF41}' <= c <= '\U{FF46}'
  }

  predicate IsNamespace(ns: string) {
    |ns| == 32 && forall i | 0 <= i < |ns| :: HexDigit(ns[i])
  }

  function Utf8Count(s: string): nat {
    if s == [] then 0
    else (if s[0] < '\U{80}' then 1 else if s[0] < '\U{800}' then 2 else if s[0] < '\U{10000}' then 3 else 4)
         + Utf8Count(s[1..])
  }

  predicate WakeableSocket(path: string) {
    path != [] && path[0] == '/' && Utf8Count(path) < SUN_PATH
  }

  function Mark(fates: seq<Fate>, k: nat, f: Fate): (r: seq<Fate>)
    ensures |r| == |fates|
  {
    if k < |fates| then fates[k := f] else fates
  }

  /** The connections after one queued item: it is sent if it is recent enough. */
  function FlushHead(w: World, c: Conns, p: nat, item: Held, ns: string, env: Env, i: nat): (c': Conns)
    requires p < |c.all|
    ensures |c'.all| == |c.all|
  {
    if env.clock(i) - item.at < HOLD_SECONDS
    then Send(w, c, p, Sent(item.msg, Some((item.serial, ns))), env.writes(i)) else c
  }

  function HeadFate(c': Conns, p: nat, item: Held, env: Env, i: nat): Fate
    requires p < |c'.all|
  {
    if env.clock(i) - item.at >= HOLD_SECONDS then Expired else if c'.all[p].closed then Lost(p) else Flushed(p)
  }

  /** Send the queued items from index i on to peer p, leaving out the ones too old. */
  function Flush(w: World, c: Conns, fates: seq<Fate>, p: nat, items: seq<Held>, ns: string, env: Env, i: nat): (r: (Conns, seq<Fate>))
    requires p < |c.all| && i <= |items|
    ensures |r.0.all| == |c.all| && |r.1| == |fates|
    decreases |items| - i
  {
    if i == |items| then (c, fates)
    else
      var c' := FlushHead(w, c, p, items[i], ns, env, i);
      Flush(w, c', Mark(fates, items[i].serial, HeadFate(c', p, items[i], env, i)), p, items, ns, env, i + 1)
  }

  function Queue(h: Hold, ns: string): seq<Held> {
    if ns in h.pending then h.pending[ns] else []
  }

  function Hello(w: World, s: Core, p: nat, m: Message, env: Env): (r: Core)
    requires p < |s.conns.all|
    ensures |r.conns.all| == |s.conns.all|
  {
    if m.namespace.None? || !IsNamespace(m.namespace.value) then s.(conns := Stop(s.conns, p))
    else
      var ns := m.namespace.value;
      var c := s.conns.(all := s.conns.all[p := s.conns.all[p].(namespace := Some(ns))]);
      var sockets := if m.socket.Some? && WakeableSocket(m.socket.value)
                     then s.sockets[ns := m.socket.value] else s.sockets;
      var (c', fates) := Flush(w, c, s.hold.fates, p, Queue(s.hold, ns), ns, env, 0);
      s.(conns := c', sockets := sockets, hold := s.hold.(pending := s.hold.pending - {ns}, fates := fates))
  }

  // ---- the other messages ----

  function Ident(ns: string, id: string): string { ns + ":" + id }

  predicate Busy(c: Conns) {
    exists fd | fd in c.table :: c.table[fd] < |c.all| && c.all[c.table[fd]].namespace.Some?
  }

  function QuitIfIdle(w: World, s: Core, p: nat, env: Env): (r: Core)
    requires p < |s.conns.all|
    ensures |r.conns.all| == |s.conns.all|
  {
    var busy := Busy(s.conns);
    var reply := Sent(Status(if busy then "busy" else "stopping"), None);
    s.(conns := Send(w, s.conns, p, reply, env.writes(0)), terminating := s.terminating || !busy)
  }

  function ShowNotes(n: Notes, ns: string, id: string, p: nat): Notes {
    n.(generations := n.generations[Ident(ns, id) := |n.shows|], shows := n.shows + [Show(ns, id, p)],
       asked := n.asked + {|n.shows|}, hist := n.hist + [Shown(ns, id, |n.shows|)])
  }

  function CloseNotes(n: Notes, ns: string, id: string): Notes {
    n.(generations := n.generations - {Ident(ns, id)}, hist := n.hist + [Closed(ns, id)])
  }

  function ShowNotice(s: Core, p: nat, m: Message): (r: Core)
    requires p < |s.conns.all|
    ensures |r.conns.all| == |s.conns.all|
  {
    var ns := s.conns.all[p].namespace;
    if ns.None? || m.namespace != ns || m.notice.None? then s.(conns := Stop(s.conns, p))
    else
      s.(notes := ShowNotes(s.notes, ns.value, m.notice.value.id, p))
  }

  function CloseNotice(s: Core, p: nat, m: Message): (r: Core)
    requires p < |s.conns.all|
    ensures |r.conns.all| == |s.conns.all|
  {
    var ns := s.conns.all[p].namespace;
    if ns.None? || m.namespace != ns || m.id.None? then s.(conns := Stop(s.conns, p))
    else
      s.(notes := CloseNotes(s.notes, ns.value, m.id.value))
  }

  function Handle(w: World, s: Core, p: nat, m: Message, env: Env): (r: Core)
    requires p < |s.conns.all|
    ensures |r.conns.all| == |s.conns.all|
  {
    if m.kind == "hello" then Hello(w, s, p, m, env)
    else if m.kind == "status" || m.kind == "authorize" then s  // answered later, by a Reply
    else if m.kind == "quit-if-idle" then QuitIfIdle(w, s, p, env)
    else if m.kind == "show" then ShowNotice(s, p, m)
    else if m.kind == "close" then CloseNotice(s, p, m)
    else s.(conns := Stop(s.conns, p))
  }

  // ---- reading ----

  function Note(s: Core, p: nat, line: Line): (r: Core)
    requires p < |s.conns.all|
    ensures |r.conns.all| == |s.conns.all|
  {
    s.(conns := s.conns.(all := s.conns.all[p := s.conns.all[p].(handled := s.conns.all[p].handled + [line])]))
  }

  /** Handle one decoded line: the n-th line of a peer meets env(n). */
  function Take(w: World, s: Core, p: nat, line: Line, m: Message, env: nat -> Env): (r: Core)
    requires p < |s.conns.all|
    ensures |r.conns.all| == |s.conns.all|
  {
    Handle(w, Note(s, p, line), p, m, env(|s.conns.all[p].handled|))
  }

  ghost predicate Sized(s: State) { |s.inbox| == |s.core.conns.all| }

  function Accepted(w: World, line: Line): (m: Option<Message>)
    ensures m.Some? ==> m.value.version == VERSION
  {
    var m := w.decode(line);
    if m.Some? && m.value.version == VERSION then m else None
  }

  /** The line loop. It does not look at `closed` between lines. */
  function Drain(w: World, s: State, p: nat, env: nat -> Env): (r: State)
    requires Sized(s) && p < |s.inbox|
    ensures Sized(r) && |r.inbox| == |s.inbox|
    decreases |s.inbox[p]|
  {
    var i := FindNewline(s.inbox[p]);
    if i == -1 then s
    else
      var line := s.inbox[p][..i];
      var inbox := s.inbox[p := s.inbox[p][i + 1..]];
      var m := Accepted(w, line);
      if m.None? then State(s.core.(conns := Stop(s.core.conns, p)), inbox)
      else Drain(w, State(Take(w, s.core, p, line, m.value, env), inbox), p, env)
  }

  lemma DrainUnfolds(w: World, s: State, p: nat, env: nat -> Env)
    requires Sized(s) && p < |s.inbox|
    ensures var i := FindNewline(s.inbox[p]);
      if i == -1 then Drain(w, s, p, env) == s
      else
        var m := Accepted(w, s.inbox[p][..i]);
        var inbox := s.inbox[p := s.inbox[p][i + 1..]];
        Drain(w, s, p, env) == if m.None? then State(s.core.(conns := Stop(s.core.conns, p)), inbox)
                               else Drain(w, State(Take(w, s.core, p, s.inbox[p][..i], m.value, env), inbox), p, env)
  {
    hide Take, Stop;
  }

  /** One read event; an empty chunk stands for end of file or an error. */
  function Read(w: World, s: State, p: nat, chunk: seq<byte>, env: nat -> Env): (r: State)
    requires Sized(s) && p < |s.inbox|
    ensures Sized(r) && |r.inbox| == |s.inbox|
  {
    if chunk == [] then s.(core := s.core.(conns := Stop(s.core.conns, p)))
    else
      var data := s.inbox[p] + chunk;
      var s' := s.(inbox := s.inbox[p := data]);
      if |data| > MAX_BUFFER then s'.(core := s.core.(conns := Stop(s.core.conns, p)))
      else Drain(w, s', p, env)
  }

  // ---- accepting ----

  function Accept(s: State, fd: int, trusted: bool): State {
    var c := s.core.conns;
    if !trusted || |c.table| >= MAX_PEERS then s
    else State(s.core.(conns := Conns(c.all + [Conn(fd, true, None, false, [], [], [])], c.table[fd := |c.all|])),
               s.inbox + [[]])
  }

  /** The cancel handler of a stopped peer closes its descriptor. */
  function Cancelled(c: Conns, p: nat): Conns
    requires p < |c.all|
  {
    c.(all := c.all[p := c.all[p].(open := false)])
  }

  // ---- delivering ----

  ghost predicate Recipient(c: Conns, ns: string, p: nat) {
    p < |c.all| && exists fd :: fd in c.table && c.table[fd] == p && c.all[p].namespace == Some(ns)
  }

  /** `order` lists the peers of namespace ns in the table, each once, in the dictionary's order. */
  ghost predicate Lists(order: seq<nat>, c: Conns, ns: string) {
    && (forall p :: p in order <==> Recipient(c, ns, p))
    && (forall i, j | 0 <= i < j < |order| :: order[i] != order[j])
  }

  function SendAll(w: World, c: Conns, order: seq<nat>, s: Sent, writes: nat -> Writes, i: nat): (r: Conns)
    requires forall p | p in order :: p < |c.all|
    requires i <= |order|
    ensures |r.all| == |c.all|
    decreases |order| - i
  {
    if i == |order| then c
    else
      assert order[i] in order;
      SendAll(w, Send(w, c, order[i], s, writes(i)), order, s, writes, i + 1)
  }

  ghost predicate Contains(q: seq<Held>, k: nat) {
    q != [] && (q[|q| - 1].serial == k || Contains(q[..|q| - 1], k))
  }

  ghost function Settle(fates: seq<Fate>, q: seq<Held>, why: Fate): (r: seq<Fate>)
    ensures |r| == |fates|
  {
    seq(|fates|, k requires 0 <= k < |fates| => if Contains(q, k) then why else fates[k])
  }

  /** How many of the oldest items `suffix(16)` leaves out. */
  function Excess(q: seq<Held>): (n: nat)
    ensures n <= |q| && |q| - n <= MAX_HELD && (q != [] ==> n < |q|)
  {
    if |q| <= MAX_HELD then 0 else |q| - MAX_HELD
  }

  /** A full set of queues is emptied before the message joins the queue of its namespace. */
  ghost function MakeRoom(h: Hold): Hold {
    if |h.pending| < MAX_QUEUES then h
    else h.(pending := map[],
            fates := seq(|h.fates|, k requires 0 <= k < |h.fates| => if h.fates[k] == Waiting then Overflowed else h.fates[k]))
  }

  ghost function Enqueue(h: Hold, ns: string, item: Held): Hold {
    var q := Queue(h, ns) + [item];
    var n := Excess(q);
    h.(pending := h.pending[ns := q[n..]], fates := Settle(h.fates, q[..n], Evicted))
  }

  /** The socket `wake` connects to, if it has one that fits an address. */
  function WakePath(w: World, sockets: map<string, string>, ns: string): (path: Option<string>) {
    var path := if ns in sockets then Some(sockets[ns])
                else if w.defaultSocket.Some? && w.digest(w.defaultSocket.value) == ns then w.defaultSocket
                else None;
    if path.Some? && Utf8Count(path.value) + 1 <= SUN_PATH then path else None
  }

  /** Nothing is listening: the daemon's service is off, so what it was owed is dropped. */
  predicate WakeRefused(w: World, sockets: map<string, string>, ns: string, connect: Connect) {
    WakePath(w, sockets, ns).Some? && (connect == NoEntry || connect == ConnectionRefused)
  }

  ghost function Wake(w: World, h: Hold, sockets: map<string, string>, ns: string, connect: Connect): Hold {
    if !WakeRefused(w, sockets, ns, connect) then h
    else h.(pending := h.pending - {ns}, fates := Settle(h.fates, Queue(h, ns), Refused))
  }

  function Logged(h: Hold, m: Message, fate: Fate): Hold {
    h.(log := h.log + [m], fates := h.fates + [fate])
  }

  ghost function Deliver(w: World, s: Core, m: Message, order: seq<nat>, now: real,
                         writes: nat -> Writes, connect: Connect): (r: Core)
    requires forall p | p in order :: p < |s.conns.all|
    ensures |r.conns.all| == |s.conns.all|
  {
    if m.namespace.None? then s
    else
      var ns, k, h := m.namespace.value, |s.hold.log|, s.hold;
      if order != [] then
        s.(conns := SendAll(w, s.conns, order, Sent(m, Some((k, ns))), writes, 0), hold := Logged(h, m, Direct))
      else
        s.(hold := Wake(w, Enqueue(Logged(MakeRoom(h), m, Waiting), ns, Held(now, k, m)), s.sockets, ns, connect))
  }

  // ---- notification callbacks ----

  function Settled(n: Notes, t: nat, allowed: bool, copy: bool): Notes {
    if allowed then n.(asked := n.asked - {t}, ready := n.ready[t := copy]) else n.(asked := n.asked - {t})
  }

  /** The block that posts, unless the show was superseded or its peer is gone. */
  function Check(n: Notes, t: nat, alive: bool): Notes
    requires t in n.ready && t < |n.shows|
  {
    var show := n.shows[t];
    var ident := Ident(show.ns, show.id);
    var n' := n.(ready := n.ready - {t});
    if alive && ident in n.generations && n.generations[ident] == t then
      n'.(hist := n.hist + [Posted(show.ns, show.id, t)], retry := if n.ready[t] then n.retry + {t} else n.retry)
    else n'
  }

  /** A rejected attachment: the same request again, bare, whatever the generation is by now. */
  function Retry(n: Notes, t: nat): Notes
    requires t < |n.shows|
  {
    n.(retry := n.retry - {t}, hist := n.hist + [Reposted(n.shows[t].ns, n.shows[t].id, t)])
  }

  // ---- runs ----

  datatype Event =
    | AcceptEvent(fd: int, trusted: bool)
    | ReadEvent(p: nat, chunk: seq<byte>, env: nat -> Env)
    | ReplyEvent(p: nat, status: string, writes: Writes)
    | CancelEvent(p: nat)
    | DeliverEvent(m: Message, order: seq<nat>, now: real, sends: nat -> Writes, connect: Connect)
    | SettingsEvent(t: nat, allowed: bool, copy: bool)
    | CheckEvent(t: nat, alive: bool)
    | AddFailedEvent(t: nat)

  /** What the kernel, the dispatch queue and the notification centre may do next. */
  ghost predicate Enabled(s: State, e: Event) {
    var c, n := s.core.conns, s.core.notes;
    match e
    case AcceptEvent(fd, _) => forall p | 0 <= p < |c.all| :: c.all[p].open ==> c.all[p].fd != fd
    case ReadEvent(p, chunk, _) => p < |c.all| && !c.all[p].closed && |chunk| <= CHUNK
    case ReplyEvent(p, _, _) => p < |c.all|
    case CancelEvent(p) => p < |c.all| && c.all[p].closed && c.all[p].open
    case DeliverEvent(m, order, _, _, _) => m.namespace.Some? ==> Lists(order, c, m.namespace.value)
    case SettingsEvent(t, _, _) => t in n.asked
    // a peer in the table is alive; a stopped one may be gone
    case CheckEvent(t, alive) =>
      && t in n.ready && t < |n.shows|
      && (alive || n.shows[t].peer >= |c.all| || c.all[n.shows[t].peer].closed)
    case AddFailedEvent(t) => t in n.retry && t < |n.shows|
  }

  ghost function Step(w: World, s: State, e: Event): (r: State)
    requires Sized(s) && Enabled(s, e)
    ensures Sized(r)
  {
    var c := s.core;
    match e
    case AcceptEvent(fd, trusted) => Accept(s, fd, trusted)
    case ReadEvent(p, chunk, env) => Read(w, s, p, chunk, env)
    case ReplyEvent(p, status, writes) =>
      s.(core := c.(conns := Send(w, c.conns, p, Sent(Status(status), None), writes)))
    case CancelEvent(p) => s.(core := c.(conns := Cancelled(c.conns, p)))
    case DeliverEvent(m, order, now, sends, connect) =>
      if m.namespace.None? then s else s.(core := Deliver(w, c, m, order, now, sends, connect))
    case SettingsEvent(t, allowed, copy) => s.(core := c.(notes := Settled(c.notes, t, allowed, copy)))
    case CheckEvent(t, alive) => s.(core := c.(notes := Check(c.notes, t, alive)))
    case AddFailedEvent(t) => s.(core := c.(notes := Retry(c.notes, t)))
  }

  ghost predicate Possible(w: World, s: State, es: seq<Event>)
    requires Sized(s)
    decreases es
  {
    es == [] || (Enabled(s, es[0]) && Possible(w, Step(w, s, es[0]), es[1..]))
  }

  ghost function Run(w: World, s: State, es: seq<Event>): (r: State)
    requires Sized(s) && Possible(w, s, es)
    ensures Sized(r)
    decreases es
  {
    if es == [] then s else Run(w, Step(w, s, es[0]), es[1..])
  }
}
