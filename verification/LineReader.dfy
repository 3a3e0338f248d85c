/** The verification script's line reader: a buffer on a raw socket that outlives read timeouts. */
module LineReader {
  import opened Lines
  import opened Options

  /** What one `recv` gives; an empty chunk is the end of the connection. */
  datatype Event = Chunk(data: seq<byte>) | Silence

  function Data(script: seq<Event>): seq<byte> {
    if script == [] then []
    else (if script[0].Chunk? then script[0].data else []) + Data(script[1..])
  }

  lemma {:induction false} DataAppend(a: seq<Event>, b: seq<Event>)
    ensures Data(a + b) == Data(a) + Data(b)
  {
    if a == [] {
      assert a + b == b;
    } else {
      assert (a + b)[1..] == a[1..] + b;
      DataAppend(a[1..], b);
    }
  }

  /** Why a turn ended: with a line that is not blank, with a timeout or with the end of the connection. */
  datatype End = Text(line: Line) | TimedOut | Closed

  /** A turn: the lines it took off the stream, what it left in the buffer, the events it used. */
  datatype Turn = Turn(lines: seq<Line>, buf: seq<byte>, used: nat, end: End)

  function Next(buf: seq<byte>, script: seq<Event>): (t: Turn)
    ensures t.used <= |script|
    ensures t.end.Text? ==> t.used > 0 || |t.buf| < |buf|
    decreases |script|, |buf|
  {
    var i := FindNewline(buf);
    if i != -1 then
      if i > 0 then Turn([buf[..i]], buf[i + 1..], 0, Text(buf[..i]))
      else var t := Next(buf[1..], script); t.(lines := [[]] + t.lines)
    else if script == [] || script[0].Silence? then
      Turn([], buf, if script == [] then 0 else 1, TimedOut)
    else if script[0].data == [] then Turn([], buf, 1, Closed)
    else var t := Next(buf + script[0].data, script[1..]); t.(used := t.used + 1)
  }

  function NonBlank(lines: seq<Line>): seq<Line> {
    if lines == [] then [] else (if lines[0] == [] then [] else [lines[0]]) + NonBlank(lines[1..])
  }

  lemma {:induction false} NonBlankAppend(a: seq<Line>, b: seq<Line>)
    ensures NonBlank(a + b) == NonBlank(a) + NonBlank(b)
  {
    if a == [] {
      assert a + b == b;
    } else {
      assert (a + b)[1..] == a[1..] + b;
      NonBlankAppend(a[1..], b);
    }
  }

  /** The stream up to here splits into the lines taken and the buffer. */
  ghost predicate Splits(stream: seq<byte>, lines: seq<Line>, buf: seq<byte>) {
    stream == Unlines(lines) + buf && Framed(lines)
  }

  lemma SplitsOn(stream: seq<byte>, lines: seq<Line>, buf: seq<byte>, more: seq<byte>, next: seq<Line>, left: seq<byte>)
    requires Splits(stream, lines, buf) && Splits(buf + more, next, left)
    ensures Splits(stream + more, lines + next, left)
  {
    UnlinesAppend(lines, next);
    calc {
      stream + more;
      Unlines(lines) + (buf + more);
      Unlines(lines) + (Unlines(next) + left);
      Unlines(lines + next) + left;
    }
  }

  lemma LineSplits(buf: seq<byte>, i: nat)
    requires FindNewline(buf) == i
    ensures Splits(buf, [buf[..i]], buf[i + 1..])
  {}

  lemma BlankSplits(buf: seq<byte>, more: seq<byte>, lines: seq<Line>, left: seq<byte>)
    requires buf != [] && buf[0] == NEWLINE && Splits(buf[1..] + more, lines, left)
    ensures Splits(buf + more, [[]] + lines, left)
  {
    assert Unlines([[]] + lines) == [NEWLINE] + Unlines(lines) by { assert ([[]] + lines)[1..] == lines; }
    assert buf + more == [NEWLINE] + (buf[1..] + more);
  }

  lemma ChunkSplits(buf: seq<byte>, script: seq<Event>, n: nat, lines: seq<Line>, left: seq<byte>)
    requires n < |script| && script[0].Chunk? && Splits(buf + script[0].data + Data(script[1..][..n]), lines, left)
    ensures Splits(buf + Data(script[..n + 1]), lines, left)
  {
    var events := script[..n + 1];
    assert events[0] == script[0] && events[1..] == script[1..][..n];
    assert buf + (script[0].data + Data(events[1..])) == buf + script[0].data + Data(events[1..]);
  }

  lemma NoneSplits(buf: seq<byte>, events: seq<Event>)
    requires NEWLINE !in buf && |events| <= 1 && (events == [] || events[0].Silence? || events[0].data == [])
    ensures Splits(buf + Data(events), [], buf)
  {}

  /** No byte is lost or made up, however the stream is cut and whenever it stalls. */
  lemma {:induction false} NextSplits(buf: seq<byte>, script: seq<Event>)
    ensures var t := Next(buf, script); Splits(buf + Data(script[..t.used]), t.lines, t.buf)
    decreases |script|, |buf|
  {
    hide Splits, Data;
    var i := FindNewline(buf);
    var t := Next(buf, script);
    if i > 0 {
      NoData(script);
      assert buf + [] == buf;
      LineSplits(buf, i);
    } else if i == 0 {
      NextSplits(buf[1..], script);
      BlankSplits(buf, Data(script[..t.used]), Next(buf[1..], script).lines, t.buf);
    } else if script == [] || script[0].Silence? || script[0].data == [] {
      NoneSplits(buf, script[..t.used]);
    } else {
      NextSplits(buf + script[0].data, script[1..]);
      ChunkSplits(buf, script, t.used - 1, t.lines, t.buf);
    }
  }

  lemma NoData(script: seq<Event>)
    ensures Data(script[..0]) == []
  {}

  lemma NonBlankOne(line: Line)
    requires line != []
    ensures NonBlank([line]) == [line]
  {}

  /** A turn gives the first line that is not blank, or stops with nothing but part of a line left. */
  lemma {:induction false} NextGives(buf: seq<byte>, script: seq<Event>)
    ensures var t := Next(buf, script);
      if t.end.Text? then NonBlank(t.lines) == [t.end.line] && t.end.line != [] && t.lines != [] && t.lines[|t.lines| - 1] == t.end.line
      else NonBlank(t.lines) == [] && NEWLINE !in t.buf
    decreases |script|, |buf|
  {
    var i := FindNewline(buf);
    var t := Next(buf, script);
    if i > 0 {
      NonBlankOne(buf[..i]);
    } else if i == 0 {
      NextGives(buf[1..], script);
      assert t.lines[1..] == Next(buf[1..], script).lines;
    } else if script != [] && script[0].Chunk? && script[0].data != [] {
      NextGives(buf + script[0].data, script[1..]);
    }
  }

  // ---- waiting for a response ----

  /** Answer, or why there is none: a line that is not JSON, JSON that is no object, or no further line. */
  datatype Reply<F> = Answer(frame: F) | NotJson | NotObject | NoLine(end: End)

  datatype Waited<F> = Waited(lines: seq<Line>, buf: seq<byte>, used: nat, reply: Reply<F>)

  /** The loop of `cmd`. `decode` parses a line; `matches` compares the id of an object
      and gives nothing for other JSON. A line that fails is gone from the buffer all the same. */
  function Wait<F>(buf: seq<byte>, script: seq<Event>, decode: Line -> Option<F>, matches: F -> Option<bool>): (w: Waited<F>)
    ensures w.used <= |script|
    decreases |script|, |buf|
  {
    var t := Next(buf, script);
    if !t.end.Text? then Waited(t.lines, t.buf, t.used, NoLine(t.end))
    else
      var f := decode(t.end.line);
      if f.None? then Waited(t.lines, t.buf, t.used, NotJson)
      else if matches(f.value).None? then Waited(t.lines, t.buf, t.used, NotObject)
      else if matches(f.value).value then Waited(t.lines, t.buf, t.used, Answer(f.value))
      else
        var w := Wait(t.buf, script[t.used..], decode, matches);
        Waited(t.lines + w.lines, w.buf, t.used + w.used, w.reply)
  }

  lemma SplitsTwice(buf: seq<byte>, script: seq<Event>, n: nat, lines: seq<Line>, left: seq<byte>, m: nat, next: seq<Line>, rest: seq<byte>)
    requires n <= |script| && m <= |script| - n
    requires Splits(buf + Data(script[..n]), lines, left) && Splits(left + Data(script[n..][..m]), next, rest)
    ensures Splits(buf + Data(script[..n + m]), lines + next, rest)
  {
    assert script[..n + m] == script[..n] + script[n..][..m];
    DataAppend(script[..n], script[n..][..m]);
    SplitsOn(buf + Data(script[..n]), lines, left, Data(script[n..][..m]), next, rest);
    assert buf + Data(script[..n]) + Data(script[n..][..m]) == buf + Data(script[..n + m]);
  }

  lemma {:induction false} WaitSplits<F>(buf: seq<byte>, script: seq<Event>, decode: Line -> Option<F>, matches: F -> Option<bool>)
    ensures var w := Wait(buf, script, decode, matches); Splits(buf + Data(script[..w.used]), w.lines, w.buf)
    decreases |script|, |buf|
  {
    hide Splits, Data, Next;
    var t := Next(buf, script);
    NextSplits(buf, script);
    if t.end.Text? && Passes(t.end.line, decode, matches) {
      var u := Wait(t.buf, script[t.used..], decode, matches);
      WaitSplits(t.buf, script[t.used..], decode, matches);
      SplitsTwice(buf, script, t.used, t.lines, t.buf, u.used, u.lines, u.buf);
    }
  }

  ghost predicate Passes<F>(line: Line, decode: Line -> Option<F>, matches: F -> Option<bool>) {
    decode(line).Some? && matches(decode(line).value) == Some(false)
  }

  /** The line for which the waiting ended with this reply. */
  ghost predicate Explains<F>(line: Line, reply: Reply<F>, decode: Line -> Option<F>, matches: F -> Option<bool>) {
    match reply
    case Answer(f) => decode(line) == Some(f) && matches(f) == Some(true)
    case NotJson => decode(line) == None
    case NotObject => decode(line).Some? && matches(decode(line).value) == None
    case NoLine(_) => false
  }

  /** The lines before the last were for someone else, and the last is why the waiting ended. */
  ghost predicate EndsWith<F>(texts: seq<Line>, reply: Reply<F>, decode: Line -> Option<F>, matches: F -> Option<bool>) {
    && texts != [] && Explains(texts[|texts| - 1], reply, decode, matches)
    && forall i | 0 <= i < |texts| - 1 :: Passes(texts[i], decode, matches)
  }

  lemma EndsLater<F>(first: Line, texts: seq<Line>, reply: Reply<F>, decode: Line -> Option<F>, matches: F -> Option<bool>)
    requires Passes(first, decode, matches) && EndsWith(texts, reply, decode, matches)
    ensures EndsWith([first] + texts, reply, decode, matches)
  {}

  /** The answer is the first line with this id, and nothing after it is taken;
      without an answer every line taken was for someone else, but for one that could not be understood. */
  lemma {:induction false} WaitGives<F>(buf: seq<byte>, script: seq<Event>, decode: Line -> Option<F>, matches: F -> Option<bool>)
    ensures var w := Wait(buf, script, decode, matches);
      if w.reply.NoLine?
      then (forall l | l in NonBlank(w.lines) :: Passes(l, decode, matches)) && NEWLINE !in w.buf
      else EndsWith(NonBlank(w.lines), w.reply, decode, matches) && w.lines != [] && w.lines[|w.lines| - 1] != []
    decreases |script|, |buf|
  {
    hide Next, EndsWith, NonBlank;
    var t := Next(buf, script);
    NextGives(buf, script);
    if t.end.Text? {
      var last := t.end.line;
      if Passes(last, decode, matches) {
        var u := Wait(t.buf, script[t.used..], decode, matches);
        WaitGives(t.buf, script[t.used..], decode, matches);
        NonBlankAppend(t.lines, u.lines);
        if !u.reply.NoLine? { EndsLater(last, NonBlank(u.lines), u.reply, decode, matches); }
      } else {
        EndsNow(last, Wait(buf, script, decode, matches).reply, decode, matches);
      }
    }
  }

  lemma EndsNow<F>(line: Line, reply: Reply<F>, decode: Line -> Option<F>, matches: F -> Option<bool>)
    requires Explains(line, reply, decode, matches)
    ensures EndsWith([line], reply, decode, matches)
  {}

  /** Streams cut in different places, with different stalls, give the same answer
      and leave off at the same line. */
  lemma AnswerIsTheStreams<F>(a: seq<Event>, b: seq<Event>, bufA: seq<byte>, bufB: seq<byte>,
                              decode: Line -> Option<F>, matches: F -> Option<bool>)
    requires bufA + Data(a) <= bufB + Data(b)
    requires Wait(bufA, a, decode, matches).reply.Answer? && Wait(bufB, b, decode, matches).reply.Answer?
    ensures Wait(bufA, a, decode, matches).lines == Wait(bufB, b, decode, matches).lines
    ensures Wait(bufA, a, decode, matches).reply == Wait(bufB, b, decode, matches).reply
  {
    hide Wait, Splits, Finished;
    var v, w := Wait(bufA, a, decode, matches), Wait(bufB, b, decode, matches);
    WaitFinishes(bufA, a, decode, matches);
    WaitFinishes(bufB, b, decode, matches);
    LinesNest(v.lines, w.lines, bufB + Data(b));
    if v.lines <= w.lines {
      FirstAnswer(v.lines, w.lines, v.reply, w.reply, decode, matches);
    } else {
      FirstAnswer(w.lines, v.lines, w.reply, v.reply, decode, matches);
    }
  }

  lemma WaitFinishes<F>(buf: seq<byte>, script: seq<Event>, decode: Line -> Option<F>, matches: F -> Option<bool>)
    requires Wait(buf, script, decode, matches).reply.Answer?
    ensures var w := Wait(buf, script, decode, matches);
      Finished(w.lines, w.reply, decode, matches) && Framed(w.lines) && Unlines(w.lines) <= buf + Data(script)
  {
    hide Wait;
    WaitSplits(buf, script, decode, matches);
    WaitGives(buf, script, decode, matches);
    var w := Wait(buf, script, decode, matches);
    StreamStarts(script, w.used);
    assert Unlines(w.lines) <= buf + Data(script[..w.used]);
  }

  lemma StreamStarts(script: seq<Event>, n: nat)
    requires n <= |script|
    ensures Data(script[..n]) <= Data(script)
  {
    assert script == script[..n] + script[n..];
    DataAppend(script[..n], script[n..]);
  }

  /** The lines at the start of one stream are the start of its lines. */
  lemma {:induction false} LinesNest(a: seq<Line>, b: seq<Line>, stream: seq<byte>)
    requires Framed(a) && Framed(b) && Unlines(a) <= stream && Unlines(b) <= stream
    ensures a <= b || b <= a
  {
    if a != [] && b != [] {
      HeadLine(a, stream);
      HeadLine(b, stream);
      LinesNest(a[1..], b[1..], stream[|a[0]| + 1..]);
      assert a == [a[0]] + a[1..] && b == [b[0]] + b[1..];
    }
  }

  lemma HeadLine(a: seq<Line>, stream: seq<byte>)
    requires Framed(a) && a != [] && Unlines(a) <= stream
    ensures FindNewline(stream) == |a[0]| && stream[..|a[0]|] == a[0]
    ensures Framed(a[1..]) && Unlines(a[1..]) <= stream[|a[0]| + 1..]
  {
    var rest := stream[|a[0]| + 1..];
    assert Unlines(a)[|a[0]|] == NEWLINE && Unlines(a)[..|a[0]|] == a[0] && Unlines(a)[|a[0]| + 1..] == Unlines(a[1..]);
    assert stream == a[0] + [NEWLINE] + rest;
    FoundAt(a[0], rest);
  }

  ghost predicate Finished<F>(lines: seq<Line>, reply: Reply<F>, decode: Line -> Option<F>, matches: F -> Option<bool>) {
    && reply.Answer? && EndsWith(NonBlank(lines), reply, decode, matches)
    && lines != [] && lines[|lines| - 1] != []
  }

  /** Both end with the first line that answers, so neither goes further. */
  lemma FirstAnswer<F>(a: seq<Line>, b: seq<Line>, r: Reply<F>, q: Reply<F>, decode: Line -> Option<F>, matches: F -> Option<bool>)
    requires a <= b && Finished(a, r, decode, matches) && Finished(b, q, decode, matches)
    ensures a == b && r == q
  {
    hide EndsWith, Passes, Explains, NonBlank;
    var rest := b[|a|..];
    assert b == a + rest;
    NonBlankAppend(a, rest);
    EndIs(NonBlank(a), r, decode, matches);
    if rest != [] {
      LastText(rest);
      NotLast(NonBlank(b), |NonBlank(a)| - 1, r, q, decode, matches);
    } else {
      assert a == b;
      EndIs(NonBlank(b), q, decode, matches);
      SameReply(NonBlank(b)[|NonBlank(b)| - 1], r, q, decode, matches);
    }
  }

  lemma EndIs<F>(texts: seq<Line>, r: Reply<F>, decode: Line -> Option<F>, matches: F -> Option<bool>)
    requires EndsWith(texts, r, decode, matches)
    ensures texts != [] && Explains(texts[|texts| - 1], r, decode, matches)
  {}

  lemma NotLast<F>(texts: seq<Line>, k: nat, r: Reply<F>, q: Reply<F>, decode: Line -> Option<F>, matches: F -> Option<bool>)
    requires EndsWith(texts, q, decode, matches) && k < |texts| - 1 && r.Answer?
    ensures !Explains(texts[k], r, decode, matches)
  {}

  lemma SameReply<F>(line: Line, r: Reply<F>, q: Reply<F>, decode: Line -> Option<F>, matches: F -> Option<bool>)
    requires r.Answer? && q.Answer? && Explains(line, r, decode, matches) && Explains(line, q, decode, matches)
    ensures r == q
  {}

  lemma {:induction false} LastText(s: seq<Line>)
    requires s != [] && s[|s| - 1] != []
    ensures NonBlank(s) != []
  {
    if |s| > 1 { LastText(s[1..]); }
  }

  // ---- the same, one turn of a loop at a time ----

  /** What a connection has given and will give, the lines taken off it, the bytes waiting, the requests sent. */
  datatype View = View(past: seq<Event>, script: seq<Event>, consumed: seq<Line>, buf: seq<byte>, sent: seq<nat>)

  /** Some lines taken, some events used, this left in the buffer. */
  function Took(v: View, lines: seq<Line>, used: nat, buf: seq<byte>): View
    requires used <= |v.script|
  {
    v.(past := v.past + v.script[..used], script := v.script[used..], consumed := v.consumed + lines, buf := buf)
  }

  lemma TookNothing(v: View)
    ensures Took(v, [], 0, v.buf) == v
  {}

  lemma TookTwice(v: View, a: seq<Line>, n: nat, left: seq<byte>, b: seq<Line>, m: nat, buf: seq<byte>)
    requires n <= |v.script| && m <= |v.script| - n
    ensures Took(Took(v, a, n, left), b, m, buf) == Took(v, a + b, n + m, buf)
  {}

  /** Where reading the next frame ends, and with what. */
  function Reads(v: View): (View, End) {
    var t := Next(v.buf, v.script);
    (Took(v, t.lines, t.used, t.buf), t.end)
  }

  lemma ReadStep(v: View)
    ensures var i := FindNewline(v.buf);
      if i == 0 then Reads(v) == Reads(Took(v, [[]], 0, v.buf[1..]))
      else if i > 0 then Reads(v) == (Took(v, [v.buf[..i]], 0, v.buf[i + 1..]), Text(v.buf[..i]))
      else if v.script == [] then Reads(v) == (v, TimedOut)
      else if v.script[0].Silence? then Reads(v) == (Took(v, [], 1, v.buf), TimedOut)
      else if v.script[0].data == [] then Reads(v) == (Took(v, [], 1, v.buf), Closed)
      else Reads(v) == Reads(Took(v, [], 1, v.buf + v.script[0].data))
  {
    var i := FindNewline(v.buf);
    if i == 0 {
      var t := Next(v.buf[1..], v.script);
      TookTwice(v, [[]], 0, v.buf[1..], t.lines, t.used, t.buf);
    } else if i == -1 {
      TookNothing(v);
      if v.script != [] && v.script[0].Chunk? && v.script[0].data != [] {
        var t := Next(v.buf + v.script[0].data, v.script[1..]);
        TookTwice(v, [], 1, v.buf + v.script[0].data, t.lines, t.used, t.buf);
      }
    }
  }

  /** The frames given so far are the lines that are not blank, in order; after a timeout or the end of
      the connection nothing but part of a line is waiting. */
  lemma ReadGives(v: View)
    ensures var (after, end) := Reads(v);
      && NonBlank(after.consumed) == NonBlank(v.consumed) + (if end.Text? then [end.line] else [])
      && (!end.Text? ==> NEWLINE !in after.buf)
  {
    NextGives(v.buf, v.script);
    NonBlankAppend(v.consumed, Next(v.buf, v.script).lines);
  }

  /** Where waiting for a response ends, and with what. */
  function Waits<F>(v: View, decode: Line -> Option<F>, matches: F -> Option<bool>): (View, Reply<F>) {
    var w := Wait(v.buf, v.script, decode, matches);
    (Took(v, w.lines, w.used, w.buf), w.reply)
  }

  /** One turn of the wait. */
  lemma WaitTurn<F>(v: View, decode: Line -> Option<F>, matches: F -> Option<bool>)
    ensures var (after, end) := Reads(v);
      if end.Text? && Passes(end.line, decode, matches)
      then Waits(v, decode, matches) == Waits(after, decode, matches)
        && (|after.script| < |v.script| || (after.script == v.script && |after.buf| < |v.buf|))
      else
        && Waits(v, decode, matches).0 == after
        && if end.Text? then Explains(end.line, Waits(v, decode, matches).1, decode, matches)
           else Waits(v, decode, matches).1 == NoLine(end)
  {
    hide Next;
    var t := Next(v.buf, v.script);
    if t.end.Text? && Passes(t.end.line, decode, matches) {
      var w := Wait(t.buf, v.script[t.used..], decode, matches);
      TookTwice(v, t.lines, t.used, t.buf, w.lines, w.used, w.buf);
    }
  }

  /** Lines and buffer together are everything received, and request ids count from 101. */
  ghost predicate Sound(v: View) {
    && Splits(Data(v.past), v.consumed, v.buf)
    && forall i | 0 <= i < |v.sent| :: v.sent[i] == 101 + i
  }

  lemma LineTaken(v: View, nl: nat)
    requires Sound(v) && FindNewline(v.buf) == nl
    ensures var r := Took(v, [v.buf[..nl]], 0, v.buf[nl + 1..]);
      Sound(r) && r == v.(consumed := v.consumed + [v.buf[..nl]], buf := v.buf[nl + 1..])
  {
    LineSplits(v.buf, nl);
    assert v.buf + [] == v.buf && Data(v.past) + [] == Data(v.past);
    SplitsOn(Data(v.past), v.consumed, v.buf, [], [v.buf[..nl]], v.buf[nl + 1..]);
    assert v.past + v.script[..0] == v.past;
  }

  function Given(event: Event): seq<byte> { if event.Chunk? then event.data else [] }

  lemma EventTaken(v: View)
    requires Sound(v) && v.script != []
    ensures var r := Took(v, [], 1, v.buf + Given(v.script[0]));
      && Sound(r) && r == v.(past := v.past + [v.script[0]], script := v.script[1..], buf := v.buf + Given(v.script[0]))
      && v.buf + [] == v.buf
  {
    var event := v.script[0];
    assert v.script[..1] == [event] && [event][1..] == [];
    DataAppend(v.past, [event]);
    assert Data([event]) == Given(event) + [] == Given(event);
    assert Unlines(v.consumed) + v.buf + Given(event) == Unlines(v.consumed) + (v.buf + Given(event));
    assert v.consumed + [] == v.consumed;
  }

  // ---- the context ----

  /** The script's Context: `script` is what the connection will still give, `past` what it has given,
      `consumed` the lines taken off the stream and `sent` the ids of the requests. */
  class Context {
    var buf: seq<byte>
    var nextId: nat
    var script: seq<Event>
    var sent: seq<nat>
    ghost var past: seq<Event>
    ghost var consumed: seq<Line>

    /** Kept over any run. */
    ghost predicate Valid()
      reads this
    {
      Sound(Now()) && nextId == 100 + |sent|
    }

    constructor (script: seq<Event>)
      ensures Valid() && this.script == script && past == [] && consumed == [] && sent == []
    {
      buf, nextId, this.script, sent, past, consumed := [], 100, script, [], [], [];
    }

    ghost function Now(): View
      reads this
    {
      View(past, script, consumed, buf, sent)
    }

    /** The next line that is not blank, or why there is none. */
    method ReadFrame() returns (end: End)
      requires Valid()
      modifies this
      ensures Valid()
      ensures (Now(), end) == Reads(old(Now()))
      ensures NonBlank(consumed) == NonBlank(old(consumed)) + if end.Text? then [end.line] else []
    {
      ReadGives(Now());
      hide Reads, Sound;
      while true
        invariant Valid() && Reads(Now()) == Reads(old(Now()))
        decreases |script|, |buf|
      {
        ReadStep(Now());
        var nl := FindNewline(buf);
        if nl != -1 {
          var line := buf[..nl];
          TakeLine(nl);
          if line == [] { continue; }
          return Text(line);
        }
        if script == [] { return TimedOut; }
        var event := Receive();
        if event.Silence? { return TimedOut; }
        if event.data == [] { return Closed; }
      }
    }

    /** Cut a line off the buffer. */
    method TakeLine(nl: nat)
      requires Valid() && FindNewline(buf) == nl
      modifies this
      ensures Valid() && Now() == Took(old(Now()), [old(buf)[..nl]], 0, old(buf)[nl + 1..])
    {
      hide Sound, Took;
      LineTaken(Now(), nl);
      consumed := consumed + [buf[..nl]];
      buf := buf[nl + 1..];
    }

    /** One `recv`; a chunk goes to the end of the buffer. */
    method Receive() returns (event: Event)
      requires Valid() && script != []
      modifies this
      ensures Valid() && event == old(script)[0]
      ensures Now() == Took(old(Now()), [], 1, old(buf) + Given(event)) && old(buf) + [] == old(buf)
    {
      hide Sound, Took;
      EventTaken(Now());
      event := script[0];
      script := script[1..];
      past := past + [event];
      buf := buf + Given(event);
    }

    /** A request and the first later frame with its id. */
    method Cmd<F>(decode: Line -> Option<F>, matches: nat -> F -> Option<bool>) returns (rid: nat, reply: Reply<F>)
      requires Valid()
      modifies this
      ensures Valid()
      ensures (Now(), reply) == Waits(old(Now()).(sent := old(sent) + [rid]), decode, matches(rid))
    {
      nextId := nextId + 1;
      rid := nextId;
      sent := sent + [rid];
      reply := AwaitFrame(decode, matches(rid));
    }

    method AwaitFrame<F>(decode: Line -> Option<F>, matches: F -> Option<bool>) returns (reply: Reply<F>)
      requires Valid()
      modifies this
      ensures Valid()
      ensures (Now(), reply) == Waits(old(Now()), decode, matches)
    {
      hide Reads, Sound, Waits, Took;
      while true
        invariant Valid() && Waits(Now(), decode, matches) == Waits(old(Now()), decode, matches)
        decreases |script|, |buf|
      {
        WaitTurn(Now(), decode, matches);
        var end := ReadFrame();
        if !end.Text? { return NoLine(end); }
        var f := decode(end.line);
        if f.None? { return NotJson; }
        var m := matches(f.value);
        if m.None? { return NotObject; }
        if m.value { return Answer(f.value); }
      }
    }
  }
}
