/** The queues keep their invariant, and nothing that was sent or settled is undone. */
module BrokerQueues {
  import opened Options
  import opened BrokerModel
  import opened BrokerInvariants

  // ---- single queues ----

  lemma {:induction false} Has(q: seq<Held>, i: nat)
    requires i < |q|
    ensures Contains(q, q[i].serial)
  {
    if i < |q| - 1 { Has(q[..|q| - 1], i); }
  }

  lemma {:induction false} Where(q: seq<Held>, k: nat) returns (i: nat)
    requires Contains(q, k)
    ensures i < |q| && q[i].serial == k
  {
    if q[|q| - 1].serial == k { i := |q| - 1; } else { i := Where(q[..|q| - 1], k); }
  }

  lemma {:induction false} Joint(a: seq<Held>, b: seq<Held>, k: nat)
    ensures Contains(a + b, k) <==> Contains(a, k) || Contains(b, k)
  {
    if b == [] {
      assert a + b == a;
    } else {
      assert (a + b)[..|a + b| - 1] == a + b[..|b| - 1];
      Joint(a, b[..|b| - 1], k);
    }
  }

  lemma Named(h: Hold, ns: string, k: nat)
    requires |h.fates| == |h.log| && (ns in h.pending ==> QueueOk(h, ns, h.pending[ns]))
    requires Contains(Queue(h, ns), k)
    ensures k < |h.log| && h.log[k].namespace == Some(ns) && h.fates[k] == Waiting
  {
    var i := Where(Queue(h, ns), k);
  }

  // ---- moving on ----

  /** Messages are only added, and a message that no longer waits keeps its fate. */
  ghost predicate Later(h: Hold, h': Hold) {
    && |h.fates| == |h.log| && |h'.fates| == |h'.log| && h.log <= h'.log
    && (forall k | 0 <= k < |h.log| && h.fates[k] != Waiting :: h'.fates[k] == h.fates[k])
  }

  /** No message is flushed on the way from h to h'. */
  ghost predicate NoFlush(h: Hold, h': Hold) {
    forall k | 0 <= k < |h'.fates| && h'.fates[k].Flushed? :: k < |h.fates| && h'.fates[k] == h.fates[k]
  }

  lemma ReceiptsLater(h: Hold, h': Hold, p: nat, q: Conn)
    requires Later(h, h') && ReceiptsOk(h, p, q)
    ensures ReceiptsOk(h', p, q)
  {
    forall i | 0 <= i < |q.sent| ensures SentOk(h', p, q.sent[i]) {
      assert SentOk(h, p, q.sent[i]);
      if q.sent[i].origin.Some? {
        var k := q.sent[i].origin.value.0;
        assert h'.log[k] == h.log[k] && h'.fates[k] == h.fates[k];
      }
    }
  }

  // ---- joining a queue ----

  /** As HoldOk, but the newest message waits without being in its queue yet. */
  ghost predicate Unplaced(h: Hold, ns: string) {
    && |h.fates| == |h.log| && 0 < |h.log|
    && (forall m | m in h.pending :: QueueOk(h, m, h.pending[m]))
    && (forall k | 0 <= k < |h.log| - 1 :: Placed(h, k))
    && h.log[|h.log| - 1].namespace == Some(ns) && h.fates[|h.log| - 1] == Waiting
    && (ns in h.pending ==> forall i | 0 <= i < |h.pending[ns]| :: h.pending[ns][i].serial < |h.log| - 1)
  }

  lemma LoggedUnplaced(h: Hold, m: Message)
    requires HoldOk(h) && m.namespace.Some?
    ensures Unplaced(Logged(h, m, Waiting), m.namespace.value)
    ensures Later(h, Logged(h, m, Waiting)) && NoFlush(h, Logged(h, m, Waiting))
  {
    var h' := Logged(h, m, Waiting);
    forall ns | ns in h.pending ensures QueueOk(h', ns, h.pending[ns]) { assert QueueOk(h, ns, h.pending[ns]); }
    forall k | 0 <= k < |h.log| ensures Placed(h', k) { assert Placed(h, k); }
  }

  lemma LoggedDirect(h: Hold, m: Message)
    requires HoldOk(h) && m.namespace.Some?
    ensures HoldOk(Logged(h, m, Direct))
    ensures Later(h, Logged(h, m, Direct)) && NoFlush(h, Logged(h, m, Direct))
  {
    var h' := Logged(h, m, Direct);
    forall ns | ns in h.pending ensures QueueOk(h', ns, h.pending[ns]) { assert QueueOk(h, ns, h.pending[ns]); }
    forall k | 0 <= k < |h.log| ensures Placed(h', k) { assert Placed(h, k); }
  }

  lemma RoomMade(h: Hold)
    requires HoldOk(h)
    ensures HoldOk(MakeRoom(h)) && |MakeRoom(h).pending| < MAX_QUEUES
    ensures Later(h, MakeRoom(h)) && NoFlush(h, MakeRoom(h)) && MakeRoom(h).pending.Keys <= h.pending.Keys
  {
    forall k | 0 <= k < |h.log| ensures Placed(MakeRoom(h), k) { assert Placed(h, k); }
  }

  /** h' is h after the messages in `gone` were settled. */
  ghost predicate SettledAs(h: Hold, h': Hold, gone: seq<Held>, why: Fate) {
    h'.log == h.log && |h.fates| == |h.log| && h'.fates == Settle(h.fates, gone, why)
  }

  /** A queue is as good after messages that are not in it were settled. */
  lemma QueueStays(h: Hold, h': Hold, ns: string, q: seq<Held>, gone: seq<Held>, why: Fate)
    requires SettledAs(h, h', gone, why) && QueueOk(h, ns, q)
    requires forall k: nat | Contains(gone, k) && k < |h.log| :: h.log[k].namespace != Some(ns)
    ensures QueueOk(h', ns, q)
  {}

  /** The newest part of a queue is as good after the oldest part was settled. */
  lemma RestOk(h: Hold, h': Hold, ns: string, gone: seq<Held>, kept: seq<Held>)
    requires SettledAs(h, h', gone, Evicted) && 0 < |kept| <= MAX_HELD && Increasing(gone + kept)
    requires forall i | 0 <= i < |kept| ::
               kept[i].serial < |h.log| && h.log[kept[i].serial] == kept[i].msg && kept[i].msg.namespace == Some(ns)
               && h.fates[kept[i].serial] == Waiting
    ensures QueueOk(h', ns, kept)
  {
    var q := gone + kept;
    assert forall i | 0 <= i < |kept| :: kept[i] == q[|gone| + i];
    assert forall j | 0 <= j < |gone| :: gone[j] == q[j];
    forall i | 0 <= i < |kept| ensures !Contains(gone, kept[i].serial) {
      if Contains(gone, kept[i].serial) { var j := Where(gone, q[|gone| + i].serial); }
    }
  }

  lemma PartsOf(front: seq<Held>, item: Held, gone: seq<Held>, kept: seq<Held>)
    requires gone + kept == front + [item]
    ensures forall k: nat {:trigger Contains(gone, k)} {:trigger Contains(kept, k)} ::
              Contains(gone, k) || Contains(kept, k) <==> Contains(front, k) || k == item.serial
  {
    assert (front + [item])[..|front|] == front;
    forall k: nat ensures Contains(gone, k) || Contains(kept, k) <==> Contains(front + [item], k) { Joint(gone, kept, k); }
  }

  /** The newest message joined the queue of ns; of that queue, `gone` was settled and `kept` stays. */
  ghost predicate Joins(h: Hold, h': Hold, ns: string, gone: seq<Held>, kept: seq<Held>) {
    && SettledAs(h, h', gone, Evicted) && h'.pending == h.pending[ns := kept] && 0 < |h.log|
    && (forall k: nat {:trigger Contains(gone, k)} {:trigger Contains(kept, k)} ::
          Contains(gone, k) || Contains(kept, k) <==> Contains(Queue(h, ns), k) || k == |h.log| - 1)
  }

  lemma GoneNamed(h: Hold, h': Hold, ns: string, gone: seq<Held>, kept: seq<Held>, k: nat)
    requires Unplaced(h, ns) && Joins(h, h', ns, gone, kept) && Contains(gone, k)
    ensures k < |h.log| && h.log[k].namespace == Some(ns) && h.fates[k] == Waiting
  {
    if k != |h.log| - 1 { Named(h, ns, k); }
  }

  lemma JoinedAccount(h: Hold, h': Hold, ns: string, gone: seq<Held>, kept: seq<Held>)
    requires Unplaced(h, ns) && Joins(h, h', ns, gone, kept)
    ensures forall k | 0 <= k < |h'.log| :: Placed(h', k)
  {
    forall k | 0 <= k < |h'.log| ensures Placed(h', k) {
      if k < |h.log| - 1 { assert Placed(h, k); }
    }
  }

  lemma JoinedOk(h: Hold, h': Hold, ns: string, gone: seq<Held>, kept: seq<Held>)
    requires Unplaced(h, ns) && |h.pending| < MAX_QUEUES && Joins(h, h', ns, gone, kept) && QueueOk(h', ns, kept)
    ensures HoldOk(h') && Later(h, h') && NoFlush(h, h')
  {
    forall k: nat | Contains(gone, k) ensures k < |h.log| && h.log[k].namespace == Some(ns) && h.fates[k] == Waiting {
      GoneNamed(h, h', ns, gone, kept, k);
    }
    forall m | m in h'.pending ensures QueueOk(h', m, h'.pending[m]) {
      if m != ns { QueueStays(h, h', m, h.pending[m], gone, Evicted); }
    }
    JoinedAccount(h, h', ns, gone, kept);
    assert h'.pending.Keys == h.pending.Keys + {ns};
  }

  lemma EnqueuedParts(h: Hold, h': Hold, ns: string, item: Held, gone: seq<Held>, kept: seq<Held>)
    requires Unplaced(h, ns) && |h.pending| < MAX_QUEUES && gone + kept == Queue(h, ns) + [item] && 0 < |kept| <= MAX_HELD
    requires item.serial == |h.log| - 1 && item.msg == h.log[item.serial]
    requires SettledAs(h, h', gone, Evicted) && h'.pending == h.pending[ns := kept]
    ensures HoldOk(h') && Later(h, h') && NoFlush(h, h')
  {
    var q := gone + kept;
    assert forall i | 0 <= i < |kept| :: kept[i] == q[|gone| + i];
    RestOk(h, h', ns, gone, kept);
    PartsOf(Queue(h, ns), item, gone, kept);
    JoinedOk(h, h', ns, gone, kept);
  }

  lemma Enqueued(h: Hold, ns: string, item: Held)
    requires Unplaced(h, ns) && |h.pending| < MAX_QUEUES
    requires item.serial == |h.log| - 1 && item.msg == h.log[item.serial]
    ensures var h' := Enqueue(h, ns, item);
      && HoldOk(h') && Later(h, h') && NoFlush(h, h') && h'.pending.Keys == h.pending.Keys + {ns}
  {
    var q := Queue(h, ns) + [item];
    var n := Excess(q);
    assert q[..n] + q[n..] == q;
    EnqueuedParts(h, Enqueue(h, ns, item), ns, item, q[..n], q[n..]);
  }

  // ---- dropping a queue ----

  /** h' is h without the queue of ns, whose messages no longer wait. */
  ghost predicate Empties(h: Hold, h': Hold, ns: string) {
    && h'.pending == h.pending - {ns} && h'.log == h.log && |h'.fates| == |h.fates| == |h.log|
    && (forall k | 0 <= k < |h.log| :: if Contains(Queue(h, ns), k) then h'.fates[k] != Waiting else h'.fates[k] == h.fates[k])
  }

  lemma EmptiedQueue(h: Hold, h': Hold, ns: string, m: string)
    requires HoldOk(h) && Empties(h, h', ns) && m in h'.pending
    ensures QueueOk(h', m, h'.pending[m])
  {
    var q := h.pending[m];
    assert QueueOk(h, m, q);
    forall i | 0 <= i < |q| ensures h'.fates[q[i].serial] == Waiting {
      if Contains(Queue(h, ns), q[i].serial) { Named(h, ns, q[i].serial); }
    }
  }

  /** Dropping a queue and settling its items keeps the account. */
  lemma Emptied(h: Hold, h': Hold, ns: string)
    requires HoldOk(h) && Empties(h, h', ns)
    ensures HoldOk(h') && Later(h, h')
  {
    forall k | 0 <= k < |h.log| && Contains(Queue(h, ns), k) ensures h.fates[k] == Waiting { Named(h, ns, k); }
    forall m | m in h'.pending ensures QueueOk(h', m, h'.pending[m]) { EmptiedQueue(h, h', ns, m); }
    forall k | 0 <= k < |h'.log| ensures Placed(h', k) { assert Placed(h, k); }
    CardinalityMonotone(h'.pending.Keys, h.pending.Keys);
  }

  lemma Woken(w: World, h: Hold, sockets: map<string, string>, ns: string, connect: Connect)
    requires HoldOk(h)
    ensures var h' := Wake(w, h, sockets, ns, connect);
      HoldOk(h') && Later(h, h') && NoFlush(h, h') && h'.pending.Keys <= h.pending.Keys
  {
    if WakeRefused(w, sockets, ns, connect) {
      Emptied(h, Wake(w, h, sockets, ns, connect), ns);
    }
  }
}
