/** Reading a stream of lines in chunks: what is handled, and where the chunking shows. */
module BrokerWire {
  import opened Lines
  import opened Options
  import opened BrokerModel

  /** The lines themselves, handled one after another; the first one that is not a message of this
      version stops the peer and ends it. Nothing here knows about chunks. */
  function HandleAll(w: World, s: Core, p: nat, lines: seq<Line>, env: nat -> Env): (r: Core)
    requires p < |s.conns.all|
    ensures |r.conns.all| == |s.conns.all|
    decreases |lines|
  {
    if lines == [] then s
    else
      var m := Accepted(w, lines[0]);
      if m.None? then s.(conns := Stop(s.conns, p))
      else HandleAll(w, Take(w, s, p, lines[0], m.value, env), p, lines[1..], env)
  }

  predicate Readable(w: World, lines: seq<Line>) {
    forall i | 0 <= i < |lines| :: Accepted(w, lines[i]).Some?
  }

  /** The read events of one peer; a stopped peer gets no more. */
  function ReadAll(w: World, s: State, p: nat, chunks: seq<seq<byte>>, env: nat -> Env): (r: State)
    requires Sized(s) && p < |s.inbox|
    ensures Sized(r) && |r.inbox| == |s.inbox|
    decreases |chunks|
  {
    if chunks == [] || s.core.conns.all[p].closed then s
    else ReadAll(w, Read(w, s, p, chunks[0], env), p, chunks[1..], env)
  }

  function Flat(chunks: seq<seq<byte>>): seq<byte> {
    if chunks == [] then [] else chunks[0] + Flat(chunks[1..])
  }

  // ---- one buffer ----

  /** The line loop handles the complete lines of the buffer and leaves the rest. */
  lemma {:induction false} DrainLines(w: World, s: State, p: nat, lines: seq<Line>, rest: seq<byte>, env: nat -> Env)
    requires Sized(s) && p < |s.inbox| && Framed(lines) && NEWLINE !in rest
    requires s.inbox[p] == Unlines(lines) + rest
    ensures var r := Drain(w, s, p, env);
      && r.core == HandleAll(w, s.core, p, lines, env)
      && (Readable(w, lines) ==> r.inbox == s.inbox[p := rest])
    decreases |lines|
  {
    if lines == [] {
      assert s.inbox[p] == rest;
    } else {
      var line, tail := lines[0], Unlines(lines[1..]) + rest;
      assert s.inbox[p] == line + [NEWLINE] + tail;
      FoundAt(line, tail);
      var i := FindNewline(s.inbox[p]);
      assert s.inbox[p][..i] == line && s.inbox[p][i + 1..] == tail;
      var m := Accepted(w, line);
      if m.Some? {
        var s' := State(Take(w, s.core, p, line, m.value, env), s.inbox[p := tail]);
        DrainLines(w, s', p, lines[1..], rest, env);
        assert s.inbox[p := tail][p := rest] == s.inbox[p := rest];
      }
    }
  }

  // ---- closed peers ----

  lemma FlushClosed(w: World, c: Conns, fates: seq<Fate>, p: nat, items: seq<Held>, ns: string, env: Env, i: nat)
    requires p < |c.all| && i <= |items| && c.all[p].closed
    ensures Flush(w, c, fates, p, items, ns, env, i).0 == c
    decreases |items| - i
  {}

  lemma {:induction false} FlushStays(w: World, c: Conns, fates: seq<Fate>, p: nat, items: seq<Held>, ns: string, env: Env, i: nat, q: nat)
    requires p < |c.all| && q < |c.all| && i <= |items| && c.all[q].closed
    ensures Flush(w, c, fates, p, items, ns, env, i).0.all[q].closed
    decreases |items| - i
  {
    if i < |items| {
      var c1 := FlushHead(w, c, p, items[i], ns, env, i);
      FlushStays(w, c1, Mark(fates, items[i].serial, HeadFate(c1, p, items[i], env, i)), p, items, ns, env, i + 1, q);
    }
  }

  lemma TakeStays(w: World, s: Core, p: nat, line: Line, m: Message, env: nat -> Env, q: nat)
    requires p < |s.conns.all| && q < |s.conns.all| && s.conns.all[q].closed
    ensures Take(w, s, p, line, m, env).conns.all[q].closed
  {
    if m.kind == "hello" && m.namespace.Some? && IsNamespace(m.namespace.value) {
      var ns := m.namespace.value;
      var s1 := Note(s, p, line);
      FlushStays(w, s1.conns.(all := s1.conns.all[p := s1.conns.all[p].(namespace := Some(ns))]), s1.hold.fates, p,
                 Queue(s1.hold, ns), ns, env(|s.conns.all[p].handled|), 0, q);
    }
  }

  lemma {:induction false} HandleAllStays(w: World, s: Core, p: nat, lines: seq<Line>, env: nat -> Env)
    requires p < |s.conns.all| && s.conns.all[p].closed
    ensures HandleAll(w, s, p, lines, env).conns.all[p].closed
    decreases |lines|
  {
    if lines != [] && Accepted(w, lines[0]).Some? {
      var m := Accepted(w, lines[0]).value;
      TakeStays(w, s, p, lines[0], m, env, p);
      HandleAllStays(w, Take(w, s, p, lines[0], m, env), p, lines[1..], env);
    }
  }

  lemma {:induction false} HandleAllAppend(w: World, s: Core, p: nat, a: seq<Line>, b: seq<Line>, env: nat -> Env)
    requires p < |s.conns.all| && Readable(w, a)
    ensures HandleAll(w, s, p, a + b, env) == HandleAll(w, HandleAll(w, s, p, a, env), p, b, env)
    decreases |a|
  {
    if a == [] {
      assert a + b == b;
    } else {
      assert (a + b)[1..] == a[1..] + b;
      HandleAllAppend(w, Take(w, s, p, a[0], Accepted(w, a[0]).value, env), p, a[1..], b, env);
    }
  }

  /** An unreadable line leaves the peer closed, so what follows it does not count. */
  lemma {:induction false} HandleAllUnreadable(w: World, s: Core, p: nat, a: seq<Line>, b: seq<Line>, env: nat -> Env)
    requires p < |s.conns.all| && !Readable(w, a)
    ensures HandleAll(w, s, p, a + b, env) == HandleAll(w, s, p, a, env)
    ensures HandleAll(w, s, p, a, env).conns.all[p].closed
    decreases |a|
  {
    assert (a + b)[0] == a[0] && (a + b)[1..] == a[1..] + b;
    if Accepted(w, a[0]).Some? {
      assert !Readable(w, a[1..]) by {
        var i :| 0 <= i < |a| && Accepted(w, a[i]).None?;
        assert a[1..][i - 1] == a[i];
      }
      HandleAllUnreadable(w, Take(w, s, p, a[0], Accepted(w, a[0]).value, env), p, a[1..], b, env);
    }
  }

  // ---- counting lines ----

  /** How many of the lines are complete within the first `len` bytes of the stream. */
  function Done(lines: seq<Line>, len: nat): (n: nat)
    ensures n <= |lines|
  {
    if lines == [] || |lines[0]| + 1 > len then 0 else 1 + Done(lines[1..], len - |lines[0]| - 1)
  }

  /** The first `len` bytes of a stream are its first Done lines and part of the next. */
  lemma {:induction false} DoneSplits(lines: seq<Line>, rest: seq<byte>, data: seq<byte>) returns (part: seq<byte>)
    requires Framed(lines) && NEWLINE !in rest && data <= Unlines(lines) + rest
    ensures var n := Done(lines, |data|);
      && data == Unlines(lines[..n]) + part && NEWLINE !in part
      && (if n < |lines| then part <= lines[n] else part <= rest)
    decreases |lines|
  {
    if lines == [] {
      part := data;
      assert Unlines(lines) + rest == rest;
    } else if |lines[0]| + 1 > |data| {
      part := data;
      PartOfFirst(lines, rest, data);
    } else {
      var data' := data[|lines[0]| + 1..];
      PastFirst(lines, rest, data);
      part := DoneSplits(lines[1..], rest, data');
      PutBack(lines, data, part, Done(lines[1..], |data'|));
      hide Unlines;
    }
  }

  lemma PartOfFirst(lines: seq<Line>, rest: seq<byte>, data: seq<byte>)
    requires Framed(lines) && lines != [] && data <= Unlines(lines) + rest && |data| <= |lines[0]|
    ensures data <= lines[0] && NEWLINE !in data && data == Unlines(lines[..0]) + data
  {
    var stream := Unlines(lines) + rest;
    assert stream == lines[0] + ([NEWLINE] + (Unlines(lines[1..]) + rest));
    assert data == stream[..|data|] == lines[0][..|data|];
    assert lines[..0] == [];
  }

  lemma PastFirst(lines: seq<Line>, rest: seq<byte>, data: seq<byte>)
    requires lines != [] && data <= Unlines(lines) + rest && |data| > |lines[0]|
    ensures data == lines[0] + [NEWLINE] + data[|lines[0]| + 1..] && data[|lines[0]| + 1..] <= Unlines(lines[1..]) + rest
  {
    var head, tail := lines[0] + [NEWLINE], Unlines(lines[1..]) + rest;
    assert Unlines(lines) + rest == head + tail;
    hide Unlines;
    Behind(head, tail, data);
  }

  lemma Behind<T>(head: seq<T>, tail: seq<T>, data: seq<T>)
    requires data <= head + tail && |data| >= |head|
    ensures data == head + data[|head|..] && data[|head|..] <= tail
  {
    assert data == (head + tail)[..|data|];
    assert data[|head|..] == tail[..|data| - |head|];
  }

  lemma PutBack(lines: seq<Line>, data: seq<byte>, part: seq<byte>, n: nat)
    requires lines != [] && n <= |lines| - 1 && |data| > |lines[0]|
    requires data == lines[0] + [NEWLINE] + data[|lines[0]| + 1..]
    requires data[|lines[0]| + 1..] == Unlines(lines[1..][..n]) + part
    ensures data == Unlines(lines[..n + 1]) + part
  {
    assert lines[..n + 1][0] == lines[0] && lines[..n + 1][1..] == lines[1..][..n];
    assert Unlines(lines[..n + 1]) + part == lines[0] + [NEWLINE] + (Unlines(lines[1..][..n]) + part);
  }

  lemma {:induction false} UnlinesSplit(lines: seq<Line>, n: nat)
    requires n <= |lines|
    ensures Unlines(lines) == Unlines(lines[..n]) + Unlines(lines[n..])
  {
    assert lines == lines[..n] + lines[n..];
    UnlinesAppend(lines[..n], lines[n..]);
  }

  // ---- all the chunks ----

  /** How many lines have arrived whole when reading ends: no chunk is read after the one that stops the
      peer. `have` is how much of lines[0] is already buffered. */
  function Arrived(w: World, s: Core, p: nat, lines: seq<Line>, have: nat, chunks: seq<seq<byte>>, env: nat -> Env): (n: nat)
    requires p < |s.conns.all|
    ensures n <= |lines|
    decreases |chunks|
  {
    if chunks == [] || s.conns.all[p].closed then 0
    else
      var n := Done(lines, have + |chunks[0]|);
      var left := have + |chunks[0]| - |Unlines(lines[..n])|;
      n + Arrived(w, HandleAll(w, s, p, lines[..n], env), p, lines[n..], if left >= 0 then left else 0, chunks[1..], env)
  }

  ghost predicate Sendable(lines: seq<Line>, rest: seq<byte>) {
    && Framed(lines) && NEWLINE !in rest && |rest| <= MAX_BUFFER - CHUNK
    && forall i | 0 <= i < |lines| :: |lines[i]| <= MAX_BUFFER - CHUNK
  }

  ghost predicate Chunked(chunks: seq<seq<byte>>) {
    forall i | 0 <= i < |chunks| :: 0 < |chunks[i]| <= CHUNK
  }

  lemma NewlineInside(lines: seq<Line>)
    requires lines != []
    ensures NEWLINE in Unlines(lines)
  {}

  /** A buffer without a newline is part of one line, so it leaves room for a chunk. */
  lemma BufferShort(lines: seq<Line>, rest: seq<byte>, data: seq<byte>)
    requires Sendable(lines, rest) && NEWLINE !in data && data <= Unlines(lines) + rest
    ensures |data| <= MAX_BUFFER - CHUNK
  {
    var part := DoneSplits(lines, rest, data);
    var n := Done(lines, |data|);
    if n > 0 { NewlineInside(lines[..n]); }
  }

  /** The stream after its first bytes `data`: what is buffered of the next line, then the tail. */
  lemma Cut(lines: seq<Line>, rest: seq<byte>, data: seq<byte>, tail: seq<byte>) returns (part: seq<byte>)
    requires Framed(lines) && NEWLINE !in rest && data + tail == Unlines(lines) + rest
    ensures var n := Done(lines, |data|);
      && data == Unlines(lines[..n]) + part && NEWLINE !in part && part + tail == Unlines(lines[n..]) + rest
  {
    assert data == (data + tail)[..|data|];
    part := DoneSplits(lines, rest, data);
    var n := Done(lines, |data|);
    var head := Unlines(lines[..n]);
    UnlinesSplit(lines, n);
    SameTail(head, part + tail, Unlines(lines[n..]) + rest);
  }

  lemma SameTail<T>(head: seq<T>, a: seq<T>, b: seq<T>)
    requires head + a == head + b
    ensures a == b
  {
    assert (head + a)[|head|..] == a && (head + b)[|head|..] == b;
  }

  /** One read event: the lines it completes are handled, and what remains of the stream
      starts with the new buffer. */
  lemma OneChunk(w: World, s: State, p: nat, lines: seq<Line>, rest: seq<byte>, chunk: seq<byte>, tail: seq<byte>, env: nat -> Env)
    returns (part: seq<byte>)
    requires Sized(s) && p < |s.inbox| && Sendable(lines, rest) && 0 < |chunk| <= CHUNK
    requires NEWLINE !in s.inbox[p] && s.inbox[p] + chunk + tail == Unlines(lines) + rest
    ensures var n := Done(lines, |s.inbox[p]| + |chunk|);
      && Read(w, s, p, chunk, env).core == HandleAll(w, s.core, p, lines[..n], env)
      && (Readable(w, lines[..n]) ==> Read(w, s, p, chunk, env).inbox == s.inbox[p := part])
      && NEWLINE !in part && part + tail == Unlines(lines[n..]) + rest
      && |part| == |s.inbox[p]| + |chunk| - |Unlines(lines[..n])|
  {
    hide Drain, HandleAll;
    var data := s.inbox[p] + chunk;
    assert s.inbox[p] <= Unlines(lines) + rest by { assert s.inbox[p] == (data + tail)[..|s.inbox[p]|]; }
    BufferShort(lines, rest, s.inbox[p]);
    part := Cut(lines, rest, data, tail);
    DrainLines(w, s.(inbox := s.inbox[p := data]), p, lines[..Done(lines, |data|)], part, env);
    assert s.inbox[p := data][p := part] == s.inbox[p := part];
  }

  lemma ArrivedSplits(lines: seq<Line>, n: nat, k: nat)
    requires n <= |lines| && k <= |lines| - n
    ensures lines[..n + k] == lines[..n] + lines[n..][..k]
  {}

  /** The broker ends in the state that handling the lines that arrived, one by one, gives; for a peer
      still open every line has arrived and the rest is buffered. */
  ghost predicate ReadsAs(w: World, s: State, p: nat, lines: seq<Line>, rest: seq<byte>, chunks: seq<seq<byte>>, env: nat -> Env)
    requires Sized(s) && p < |s.inbox|
  {
    var r := ReadAll(w, s, p, chunks, env);
    var n := Arrived(w, s.core, p, lines, |s.inbox[p]|, chunks, env);
    && r.core == HandleAll(w, s.core, p, lines[..n], env)
    && (!r.core.conns.all[p].closed ==> n == |lines| && r.inbox[p] == rest)
  }

  lemma ReadsAfterChunk(w: World, s: State, p: nat, lines: seq<Line>, rest: seq<byte>, chunks: seq<seq<byte>>, env: nat -> Env, s': State, n: nat)
    requires Sized(s) && p < |s.inbox| && chunks != [] && !s.core.conns.all[p].closed && Sized(s') && p < |s'.inbox|
    requires n == Done(lines, |s.inbox[p]| + |chunks[0]|) && s' == Read(w, s, p, chunks[0], env)
    requires s'.core == HandleAll(w, s.core, p, lines[..n], env)
    requires if Readable(w, lines[..n])
             then ReadsAs(w, s', p, lines[n..], rest, chunks[1..], env)
                  && |s'.inbox[p]| == |s.inbox[p]| + |chunks[0]| - |Unlines(lines[..n])|
             else s'.core.conns.all[p].closed
    ensures ReadsAs(w, s, p, lines, rest, chunks, env)
  {
    hide Read, HandleAll, Done;
    var left := |s.inbox[p]| + |chunks[0]| - |Unlines(lines[..n])|;
    var k := Arrived(w, s'.core, p, lines[n..], if left >= 0 then left else 0, chunks[1..], env);
    ArrivedSplits(lines, n, k);
    if Readable(w, lines[..n]) {
      HandleAllAppend(w, s.core, p, lines[..n], lines[n..][..k], env);
    } else {
      assert k == 0 && ReadAll(w, s', p, chunks[1..], env) == s';
      HandleAllUnreadable(w, s.core, p, lines[..n], lines[n..][..k], env);
    }
  }

  /** Whatever the chunks. */
  lemma {:induction false} AnyChunking(w: World, s: State, p: nat, lines: seq<Line>, rest: seq<byte>, chunks: seq<seq<byte>>, env: nat -> Env)
    requires Sized(s) && p < |s.inbox| && Sendable(lines, rest) && Chunked(chunks)
    requires NEWLINE !in s.inbox[p] && s.inbox[p] + Flat(chunks) == Unlines(lines) + rest
    ensures ReadsAs(w, s, p, lines, rest, chunks, env)
    decreases |chunks|
  {
    hide Read, Take;
    if s.core.conns.all[p].closed {
      assert lines[..0] == [];
    } else if chunks == [] {
      assert s.inbox[p] + Flat(chunks) == s.inbox[p] && lines[..0] == [];
      UnlinesInjective([], s.inbox[p], lines, rest);
    } else {
      hide ReadsAs, HandleAll;
      var chunk, tail := chunks[0], Flat(chunks[1..]);
      assert s.inbox[p] + Flat(chunks) == s.inbox[p] + chunk + tail;
      var part := OneChunk(w, s, p, lines, rest, chunk, tail, env);
      var n := Done(lines, |s.inbox[p]| + |chunk|);
      var s' := Read(w, s, p, chunk, env);
      if Readable(w, lines[..n]) {
        AnyChunking(w, s', p, lines[n..], rest, chunks[1..], env);
      } else {
        HandleAllUnreadable(w, s.core, p, lines[..n], [], env);
      }
      ReadsAfterChunk(w, s, p, lines, rest, chunks, env, s', n);
    }
  }

  // ---- where the chunking shows ----

  /** The peer is closed once it has handled the first k lines (or met an unreadable one among them). */
  predicate StoppedBy(w: World, s: Core, p: nat, lines: seq<Line>, k: nat, env: nat -> Env)
    requires p < |s.conns.all| && k <= |lines|
  {
    HandleAll(w, s, p, lines[..k], env).conns.all[p].closed
  }

  /** Line k - 1 is the first to stop the peer. */
  ghost predicate FirstStop(w: World, s: Core, p: nat, lines: seq<Line>, k: nat, env: nat -> Env)
    requires p < |s.conns.all|
  {
    0 < k <= |lines| && StoppedBy(w, s, p, lines, k, env) && !StoppedBy(w, s, p, lines, k - 1, env)
  }

  lemma {:induction false} StoppedLater(w: World, s: Core, p: nat, lines: seq<Line>, j: nat, k: nat, env: nat -> Env)
    requires p < |s.conns.all| && j <= k <= |lines| && StoppedBy(w, s, p, lines, j, env)
    ensures StoppedBy(w, s, p, lines, k, env)
  {
    var a, b := lines[..j], lines[..k][j..];
    assert lines[..k] == a + b;
    if Readable(w, a) {
      HandleAllAppend(w, s, p, a, b, env);
      HandleAllStays(w, HandleAll(w, s, p, a, env), p, b, env);
    } else {
      HandleAllUnreadable(w, s, p, a, b, env);
    }
  }

  /** The bytes that have arrived by the end of the first chunk that reaches `need` bytes. */
  function Boundary(chunks: seq<seq<byte>>, need: int): (n: nat)
    decreases |chunks|
  {
    if need <= 0 || chunks == [] then 0 else |chunks[0]| + Boundary(chunks[1..], need - |chunks[0]|)
  }

  lemma {:induction false} DoneIs(lines: seq<Line>, len: nat, k: nat)
    requires k <= |lines|
    ensures k <= Done(lines, len) <==> |Unlines(lines[..k])| <= len
    decreases k
  {
    if k > 0 {
      assert lines[..k][0] == lines[0] && lines[..k][1..] == lines[1..][..k - 1];
      if |lines[0]| + 1 <= len { DoneIs(lines[1..], len - |lines[0]| - 1, k - 1); }
    }
  }

  lemma FirstOf(lines: seq<Line>, n: nat)
    requires 0 < n <= |lines|
    ensures |Unlines(lines[..n])| == |lines[0]| + 1 + |Unlines(lines[1..][..n - 1])|
    ensures lines[1..][n - 1..] == lines[n..]
  {
    assert lines[..n][0] == lines[0] && lines[..n][1..] == lines[1..][..n - 1];
  }

  lemma {:induction false} DoneShift(lines: seq<Line>, n: nat, len: nat)
    requires n <= |lines| && |Unlines(lines[..n])| <= len
    ensures Done(lines, len) == n + Done(lines[n..], len - |Unlines(lines[..n])|)
    decreases n
  {
    if n == 0 {
      assert lines[0..] == lines && Unlines(lines[..0]) == [];
    } else {
      FirstOf(lines, n);
      hide Unlines;
      DoneShift(lines[1..], n - 1, len - |lines[0]| - 1);
    }
  }

  /** The lines that arrive are those complete at the end of the chunk
      that completes the first line that stops the peer. */
  lemma {:induction false} ArrivedUntilStop(w: World, s: Core, p: nat, lines: seq<Line>, have: nat, chunks: seq<seq<byte>>, env: nat -> Env, k: nat)
    requires p < |s.conns.all| && !s.conns.all[p].closed && FirstStop(w, s, p, lines, k, env)
    requires have + |Flat(chunks)| >= |Unlines(lines[..k])| && Done(lines, have) == 0
    ensures Arrived(w, s, p, lines, have, chunks, env)
         == Done(lines, have + Boundary(chunks, |Unlines(lines[..k])| - have))
    decreases |chunks|
  {
    hide HandleAll, Unlines, Arrived, Boundary, Done, Flat;
    var need := |Unlines(lines[..k])|;
    FirstChunk(w, s, p, lines, have, chunks, env, k);
    var len := have + |chunks[0]|;
    var n := Done(lines, len);
    assert StoppedBy(w, s, p, lines, k, env);
    if k <= n {
      hide FirstStop;
      StoppedLater(w, s, p, lines, k, n, env);
      NothingMore(w, HandleAll(w, s, p, lines[..n], env), p, lines[n..], len - |Unlines(lines[..n])|, chunks[1..], env, need - len);
    } else {
      hide FirstStop, StoppedBy;
      StopShift(w, s, p, lines, n, k, env);
      RestIs(lines, n, k, len, Boundary(chunks[1..], need - len));
      ArrivedUntilStop(w, HandleAll(w, s, p, lines[..n], env), p, lines[n..], len - |Unlines(lines[..n])|, chunks[1..], env, k - n);
    }
  }

  /** What the first chunk adds when line k - 1 is not complete yet. */
  lemma FirstChunk(w: World, s: Core, p: nat, lines: seq<Line>, have: nat, chunks: seq<seq<byte>>, env: nat -> Env, k: nat)
    requires p < |s.conns.all| && !s.conns.all[p].closed && 0 < k <= |lines|
    requires have + |Flat(chunks)| >= |Unlines(lines[..k])| && Done(lines, have) == 0
    ensures chunks != [] && |Flat(chunks)| == |chunks[0]| + |Flat(chunks[1..])|
    ensures var len, need := have + |chunks[0]|, |Unlines(lines[..k])|;
      var n := Done(lines, len);
      && |Unlines(lines[..n])| <= len && (k <= n <==> need <= len)
      && Boundary(chunks, need - have) == |chunks[0]| + Boundary(chunks[1..], need - len)
      && Arrived(w, s, p, lines, have, chunks, env)
        == n + Arrived(w, HandleAll(w, s, p, lines[..n], env), p, lines[n..], len - |Unlines(lines[..n])|, chunks[1..], env)
  {
    hide HandleAll, Unlines;
    DoneIs(lines, have, k);
    assert chunks != [];
    var len := have + |chunks[0]|;
    DoneIs(lines, len, Done(lines, len));
    DoneIs(lines, len, k);
    hide Done;
  }

  /** The first n lines complete in len bytes set aside, the rest of the stream is counted alike. */
  lemma RestIs(lines: seq<Line>, n: nat, k: nat, len: nat, more: nat)
    requires n == Done(lines, len) && n <= k <= |lines| && |Unlines(lines[..n])| <= len
    ensures var left := len - |Unlines(lines[..n])|;
      && Done(lines[n..], left) == 0
      && |Unlines(lines[n..][..k - n])| - left == |Unlines(lines[..k])| - len
      && n + Done(lines[n..], left + more) == Done(lines, len + more)
  {
    DoneShift(lines, n, len);
    DoneShift(lines, n, len + more);
    UnlinesFront(lines, n, k);
  }

  lemma NothingMore(w: World, s: Core, p: nat, lines: seq<Line>, have: nat, chunks: seq<seq<byte>>, env: nat -> Env, need: int)
    requires p < |s.conns.all| && s.conns.all[p].closed && need <= 0
    ensures Arrived(w, s, p, lines, have, chunks, env) == 0 && Boundary(chunks, need) == 0
  {}

  lemma UnlinesFront(lines: seq<Line>, n: nat, k: nat)
    requires n <= k <= |lines|
    ensures |Unlines(lines[..k])| == |Unlines(lines[..n])| + |Unlines(lines[n..][..k - n])|
  {
    UnlinesSplit(lines[..k], n);
    assert lines[..k][..n] == lines[..n] && lines[..k][n..] == lines[n..][..k - n];
  }

  /** What stops the peer in the whole stream stops it in the rest of the stream. */
  lemma StopShift(w: World, s: Core, p: nat, lines: seq<Line>, n: nat, k: nat, env: nat -> Env)
    requires p < |s.conns.all| && FirstStop(w, s, p, lines, k, env) && n < k
    ensures var s' := HandleAll(w, s, p, lines[..n], env);
      Readable(w, lines[..n]) && !s'.conns.all[p].closed && FirstStop(w, s', p, lines[n..], k - n, env)
  {
    hide HandleAll;
    if StoppedBy(w, s, p, lines, n, env) { StoppedLater(w, s, p, lines, n, k - 1, env); }
    if !Readable(w, lines[..n]) { HandleAllUnreadable(w, s, p, lines[..n], [], env); }
    ArrivedSplits(lines, n, k - n);
    ArrivedSplits(lines, n, k - 1 - n);
    HandleAllAppend(w, s, p, lines[..n], lines[n..][..k - n], env);
    HandleAllAppend(w, s, p, lines[..n], lines[n..][..k - 1 - n], env);
  }

  /** How many of the lines come before the first unreadable one. */
  function Front(w: World, lines: seq<Line>): (n: nat)
    ensures n <= |lines| && Readable(w, lines[..n])
    ensures n < |lines| ==> Accepted(w, lines[n]).None?
  {
    if lines == [] || Accepted(w, lines[0]).None? then 0
    else
      var n := Front(w, lines[1..]);
      assert forall i | 0 < i <= n :: lines[i] == lines[1..][i - 1];
      n + 1
  }

  lemma {:induction false} FlushHandles(w: World, c: Conns, fates: seq<Fate>, p: nat, items: seq<Held>, ns: string, env: Env, i: nat)
    requires p < |c.all| && i <= |items|
    ensures Flush(w, c, fates, p, items, ns, env, i).0.all[p].handled == c.all[p].handled
    decreases |items| - i
  {
    if i < |items| {
      var c1 := FlushHead(w, c, p, items[i], ns, env, i);
      FlushHandles(w, c1, Mark(fates, items[i].serial, HeadFate(c1, p, items[i], env, i)), p, items, ns, env, i + 1);
    }
  }

  lemma HandleHandles(w: World, s: Core, p: nat, m: Message, env: Env)
    requires p < |s.conns.all|
    ensures Handle(w, s, p, m, env).conns.all[p].handled == s.conns.all[p].handled
  {
    if m.kind == "hello" && m.namespace.Some? && IsNamespace(m.namespace.value) {
      var ns := m.namespace.value;
      FlushHandles(w, s.conns.(all := s.conns.all[p := s.conns.all[p].(namespace := Some(ns))]), s.hold.fates, p,
                   Queue(s.hold, ns), ns, env, 0);
    }
  }

  lemma TakeHandles(w: World, s: Core, p: nat, line: Line, m: Message, env: nat -> Env)
    requires p < |s.conns.all|
    ensures Take(w, s, p, line, m, env).conns.all[p].handled == s.conns.all[p].handled + [line]
  {
    hide Handle;
    HandleHandles(w, Note(s, p, line), p, m, env(|s.conns.all[p].handled|));
  }

  /** Handled are the lines before the first unreadable one, whether or not one of them stops the peer. */
  lemma {:induction false} HandledAre(w: World, s: Core, p: nat, lines: seq<Line>, env: nat -> Env)
    requires p < |s.conns.all|
    ensures HandleAll(w, s, p, lines, env).conns.all[p].handled == s.conns.all[p].handled + lines[..Front(w, lines)]
    decreases |lines|
  {
    hide Take, Readable, Accepted, Stop;
    if lines == [] || Accepted(w, lines[0]).None? {
      StopHandles(s.conns, p);
      assert s.conns.all[p].handled + [] == s.conns.all[p].handled;
    } else {
      var s1 := Take(w, s, p, lines[0], Accepted(w, lines[0]).value, env);
      TakeHandles(w, s, p, lines[0], Accepted(w, lines[0]).value, env);
      HandledAre(w, s1, p, lines[1..], env);
      hide HandleAll, Front;
      OneMore(s.conns.all[p].handled, lines, Front(w, lines[1..]));
    }
  }

  lemma StopHandles(c: Conns, p: nat)
    requires p < |c.all|
    ensures Stop(c, p).all[p].handled == c.all[p].handled
  {}

  lemma OneMore(handled: seq<Line>, lines: seq<Line>, n: nat)
    requires n < |lines|
    ensures handled + [lines[0]] + lines[1..][..n] == handled + lines[..n + 1]
  {}

  /** Lines behind an unreadable one make no difference. */
  lemma {:induction false} OnlyFront(w: World, s: Core, p: nat, lines: seq<Line>, n: nat, env: nat -> Env)
    requires p < |s.conns.all| && n <= |lines| && Front(w, lines) < n
    ensures HandleAll(w, s, p, lines[..n], env) == HandleAll(w, s, p, lines, env)
  {
    var f := Front(w, lines);
    assert lines[..n][f] == lines[f] && lines == lines[..n] + lines[n..];
    HandleAllUnreadable(w, s, p, lines[..n], lines[n..], env);
  }

  /** The first k lines stop the peer; behind them is nothing, or a line that would not be handled:
      what stopped it was unreadable, or the next one is. */
  ghost predicate NoneFollows(w: World, lines: seq<Line>, k: nat) {
    0 < k <= |lines| && (Accepted(w, lines[k - 1]).None? || k == |lines| || Accepted(w, lines[k]).None?)
  }

  /** Handling more lines than the k that stop the peer changes the state exactly if line k is handled. */
  lemma PastStop(w: World, s: Core, p: nat, lines: seq<Line>, env: nat -> Env, k: nat, n: nat)
    requires p < |s.conns.all| && FirstStop(w, s, p, lines, k, env) && k < n <= |lines|
    ensures var (first, all) := (HandleAll(w, s, p, lines[..k], env), HandleAll(w, s, p, lines[..n], env));
      && (NoneFollows(w, lines, k) ==> all == first)
      && (!NoneFollows(w, lines, k) ==> |all.conns.all[p].handled| > |first.conns.all[p].handled|)
  {
    assert lines[..k] == lines[..k - 1] + [lines[k - 1]] && lines[..n][..k] == lines[..k];
    if !Readable(w, lines[..k - 1]) { HandleAllUnreadable(w, s, p, lines[..k - 1], [], env); }
    assert Readable(w, lines[..k - 1]);
    HandledAre(w, s, p, lines[..k], env);
    HandledAre(w, s, p, lines[..n], env);
    FrontOf(w, lines, k, n);
    if Accepted(w, lines[k - 1]).None? {
      OnlyFront(w, s, p, lines[..n], k, env);
    } else if Accepted(w, lines[k]).None? {
      OnlyFront(w, s, p, lines[..n], k + 1, env);
      assert lines[..n][..k + 1] == lines[..k] + [lines[k]];
      HandleAllAppend(w, s, p, lines[..k], [lines[k]], env);
    }
  }

  /** Where the readable lines end, by what lines k - 1 and k are. */
  lemma FrontOf(w: World, lines: seq<Line>, k: nat, n: nat)
    requires 0 < k < n <= |lines| && Readable(w, lines[..k - 1])
    ensures Accepted(w, lines[k - 1]).None? ==> Front(w, lines[..k]) == Front(w, lines[..n]) == k - 1
    ensures Accepted(w, lines[k - 1]).Some? ==> Readable(w, lines[..k]) && Front(w, lines[..k]) == k && Front(w, lines[..n]) >= k
    ensures Accepted(w, lines[k - 1]).Some? ==> (Front(w, lines[..n]) == k <==> Accepted(w, lines[k]).None?)
  {
    var f, g := Front(w, lines[..k]), Front(w, lines[..n]);
    assert forall i | 0 <= i < k - 1 :: lines[..k - 1][i] == lines[i];
    assert f < k ==> lines[..k][f] == lines[f];
    assert g < n ==> lines[..n][g] == lines[g];
    assert forall i | 0 <= i < f :: lines[..k][..f][i] == lines[i];
    assert forall i | 0 <= i < g :: lines[..n][..g][i] == lines[i];
  }

  /** Whatever the chunks, the lines handled are those that arrived before the first unreadable one. */
  lemma HandledInChunks(w: World, s: State, p: nat, lines: seq<Line>, rest: seq<byte>, chunks: seq<seq<byte>>, env: nat -> Env)
    requires Sized(s) && p < |s.inbox| && Sendable(lines, rest) && Chunked(chunks)
    requires NEWLINE !in s.inbox[p] && s.inbox[p] + Flat(chunks) == Unlines(lines) + rest
    ensures var n := Arrived(w, s.core, p, lines, |s.inbox[p]|, chunks, env);
      ReadAll(w, s, p, chunks, env).core.conns.all[p].handled == s.core.conns.all[p].handled + lines[..n][..Front(w, lines[..n])]
  {
    hide ReadAll, HandleAll, Arrived;
    AnyChunking(w, s, p, lines, rest, chunks, env);
    HandledAre(w, s.core, p, lines[..Arrived(w, s.core, p, lines, |s.inbox[p]|, chunks, env)], env);
  }

  /** The lines handled, and with them the state, are those up to the first one that stops the peer exactly if the
      chunk that completes it does not complete the next one too, or no line that would be handled follows it. */
  lemma ChunkingShows(w: World, s: State, p: nat, lines: seq<Line>, rest: seq<byte>, chunks: seq<seq<byte>>, env: nat -> Env, k: nat)
    requires Sized(s) && p < |s.inbox| && Sendable(lines, rest) && Chunked(chunks) && !s.core.conns.all[p].closed
    requires s.inbox[p] == [] && Flat(chunks) == Unlines(lines) + rest && FirstStop(w, s.core, p, lines, k, env)
    ensures var (first, all) := (HandleAll(w, s.core, p, lines[..k], env), ReadAll(w, s, p, chunks, env).core);
      var separate := k == |lines| || Boundary(chunks, |Unlines(lines[..k])|) < |Unlines(lines[..k + 1])|
                      || Accepted(w, lines[k - 1]).None? || Accepted(w, lines[k]).None?;
      (all.conns.all[p].handled == first.conns.all[p].handled <==> separate) && (all == first <==> separate)
  {
    hide HandleAll, ReadAll, Arrived, Boundary, FirstStop;
    var n := Arrived(w, s.core, p, lines, 0, chunks, env);
    assert [] + Flat(chunks) == Unlines(lines) + rest;
    AnyChunking(w, s, p, lines, rest, chunks, env);
    ArrivedAtStop(w, s.core, p, lines, rest, chunks, env, k);
    if n > k { PastStop(w, s.core, p, lines, env, k, n); }
  }

  lemma ArrivedAtStop(w: World, s: Core, p: nat, lines: seq<Line>, rest: seq<byte>, chunks: seq<seq<byte>>, env: nat -> Env, k: nat)
    requires p < |s.conns.all| && !s.conns.all[p].closed && FirstStop(w, s, p, lines, k, env)
    requires Flat(chunks) == Unlines(lines) + rest
    ensures var n := Arrived(w, s, p, lines, 0, chunks, env);
      0 < k <= n && (n == k <==> k == |lines| || Boundary(chunks, |Unlines(lines[..k])|) < |Unlines(lines[..k + 1])|)
  {
    hide HandleAll;
    UnlinesSplit(lines, k);
    ArrivedUntilStop(w, s, p, lines, 0, chunks, env, k);
    var len := Boundary(chunks, |Unlines(lines[..k])|);
    BoundaryReaches(chunks, |Unlines(lines[..k])|);
    DoneIs(lines, len, k);
    if k < |lines| { DoneIs(lines, len, k + 1); }
  }

  lemma {:induction false} BoundaryReaches(chunks: seq<seq<byte>>, need: int)
    requires |Flat(chunks)| >= need
    ensures Boundary(chunks, need) >= need
    decreases |chunks|
  {
    if need > 0 && chunks != [] { BoundaryReaches(chunks[1..], need - |chunks[0]|); }
  }

  /** If only the last line stops the peer, every line arrives. */
  lemma AllArrived(w: World, s: Core, p: nat, lines: seq<Line>, chunks: seq<seq<byte>>, env: nat -> Env)
    requires p < |s.conns.all| && !s.conns.all[p].closed && Flat(chunks) == Unlines(lines)
    requires FirstStop(w, s, p, lines, |lines|, env)
    ensures Arrived(w, s, p, lines, 0, chunks, env) == |lines|
  {
    hide HandleAll, Arrived;
    assert lines[..|lines|] == lines;
    ArrivedUntilStop(w, s, p, lines, 0, chunks, env, |lines|);
    BoundaryReaches(chunks, |Unlines(lines)|);
    DoneIs(lines, Boundary(chunks, |Unlines(lines)|), |lines|);
  }

  /** If no line but perhaps the last stops the peer, the chunks do not matter: the broker's
      state is the one that handling every line gives. */
  lemma ChunksDoNotMatter(w: World, s: State, p: nat, lines: seq<Line>, chunks: seq<seq<byte>>, env: nat -> Env)
    requires Sized(s) && p < |s.inbox| && Sendable(lines, []) && Chunked(chunks) && !s.core.conns.all[p].closed
    requires s.inbox[p] == [] && Flat(chunks) == Unlines(lines)
    requires lines == [] || !StoppedBy(w, s.core, p, lines, |lines| - 1, env)
    ensures ReadAll(w, s, p, chunks, env).core == HandleAll(w, s.core, p, lines, env)
  {
    hide HandleAll, ReadAll, Arrived;
    assert s.inbox[p] + Flat(chunks) == Unlines(lines) + [];
    AnyChunking(w, s, p, lines, [], chunks, env);
    var n := Arrived(w, s.core, p, lines, 0, chunks, env);
    assert lines[..|lines|] == lines;
    if lines != [] && StoppedBy(w, s.core, p, lines, |lines|, env) {
      AllArrived(w, s.core, p, lines, chunks, env);
    } else if n < |lines| {
      StoppedLater(w, s.core, p, lines, n, |lines|, env);
    }
  }

  // ---- lines that are too long ----

  /** A line of 2^20 bytes or more stops its peer before it is handled, whatever the chunks. */
  lemma {:induction false} LongLineStops(w: World, s: State, p: nat, line: Line, more: seq<byte>, chunks: seq<seq<byte>>, env: nat -> Env)
    requires Sized(s) && p < |s.inbox| && Chunked(chunks) && !s.core.conns.all[p].closed
    requires NEWLINE !in line && |line| >= MAX_BUFFER && |s.inbox[p]| <= MAX_BUFFER
    requires s.inbox[p] + Flat(chunks) == line + [NEWLINE] + more
    ensures ReadAll(w, s, p, chunks, env).core == s.core.(conns := Stop(s.core.conns, p))
    decreases |chunks|
  {
    assert chunks != [] by {
      assert |s.inbox[p] + Flat(chunks)| > MAX_BUFFER;
    }
    var data := s.inbox[p] + chunks[0];
    assert data + Flat(chunks[1..]) == line + [NEWLINE] + more;
    var s' := s.(inbox := s.inbox[p := data]);
    if |data| <= MAX_BUFFER {
      assert NEWLINE !in data by { assert data == (line + [NEWLINE] + more)[..|data|] == line[..|data|]; }
      assert Read(w, s, p, chunks[0], env) == s';
      LongLineStops(w, s', p, line, more, chunks[1..], env);
    } else {
      assert Read(w, s, p, chunks[0], env).core == s.core.(conns := Stop(s.core.conns, p));
    }
  }
}
