/** Length-prefixed frames on the frontend's socket. The protocol buffer codec is a parameter. */
module Frames {
  import opened Lines
  import opened Options
  import opened Varint

  type Bytes = seq<byte>

  function Frame(body: Bytes): Bytes { Encode(|body|) + body }

  function Stream(bodies: seq<Bytes>): Bytes {
    if bodies == [] then [] else Frame(bodies[0]) + Stream(bodies[1..])
  }

  /** Ended: the stream was over before a length was complete, and indexing the empty read raised. */
  datatype Got = Ended | Body(body: Bytes, rest: Bytes)

  /** One frame. Near the end of the stream the body may be shorter than its length says. */
  function ReadFrame(stream: Bytes): (g: Got)
    ensures g.Body? ==> |g.rest| < |stream|
  {
    var k := Terminated(stream);
    if k.None? then Ended
    else
      var n, rest := Value(stream[..k.value]), stream[k.value..];
      if n <= |rest| then Body(rest[..n], rest[n..]) else Body(rest, [])
  }

  function ReadAll(stream: Bytes): (bodies: seq<Bytes>)
    decreases |stream|
  {
    match ReadFrame(stream)
    case Ended => []
    case Body(body, rest) => [body] + ReadAll(rest)
  }

  // ---- round trip ----

  lemma HeadOf(body: Bytes, tail: Bytes)
    ensures var head := Encode(|body|); Terminated(head + tail) == Some(|head|) && Value(head) == |body|
  {
    var head := Encode(|body|);
    EncodeIsVarint(|body|);
    assert (head + tail)[..|head|] == head;
    TerminatedAt(head + tail, |head|);
  }

  lemma FrameRoundTrip(body: Bytes, tail: Bytes)
    ensures ReadFrame(Frame(body) + tail) == Body(body, tail)
  {
    var head := Encode(|body|);
    var stream := head + (body + tail);
    assert Frame(body) + tail == stream;
    HeadOf(body, body + tail);
    assert stream[..|head|] == head && stream[|head|..] == body + tail;
    assert (body + tail)[..|body|] == body && (body + tail)[|body|..] == tail;
  }

  /** The same behind any varint of the body's length, padded or not. */
  lemma AnyHead(head: Bytes, body: Bytes, tail: Bytes)
    requires IsVarint(head) && Value(head) == |body|
    ensures ReadFrame(head + body + tail) == Body(body, tail)
  {
    var stream := head + (body + tail);
    assert head + body + tail == stream;
    assert stream[..|head|] == head && stream[|head|..] == body + tail;
    TerminatedAt(stream, |head|);
    assert (body + tail)[..|body|] == body && (body + tail)[|body|..] == tail;
  }

  /** Whatever the bodies, reading returns exactly them and uses every byte. */
  lemma {:induction false} StreamRoundTrip(bodies: seq<Bytes>)
    ensures ReadAll(Stream(bodies)) == bodies
  {
    if bodies == [] {
      assert Stream(bodies) == [];
    } else {
      FrameRoundTrip(bodies[0], Stream(bodies[1..]));
      StreamRoundTrip(bodies[1..]);
      assert bodies == [bodies[0]] + bodies[1..];
    }
  }

  lemma StreamInjective(a: seq<Bytes>, b: seq<Bytes>)
    requires Stream(a) == Stream(b)
    ensures a == b
  {
    StreamRoundTrip(a);
    StreamRoundTrip(b);
  }

  lemma {:induction false} StreamSnoc(bodies: seq<Bytes>, body: Bytes)
    ensures Stream(bodies + [body]) == Stream(bodies) + Frame(body)
  {
    if bodies == [] {
      assert [body][1..] == [] && Stream([body]) == Frame(body) + Stream([]);
    } else {
      assert (bodies + [body])[1..] == bodies[1..] + [body];
      StreamSnoc(bodies[1..], body);
    }
  }

  // ---- a stream cut short ----

  /** The start of a varint that stops before its last byte is no varint yet. */
  lemma CutHead(body: Bytes, c: nat)
    requires c < |Encode(|body|)|
    ensures Terminated(Encode(|body|)[..c]) == None
  {
    EncodeIsVarint(|body|);
  }

  /** A frame cut in its length is no frame; one cut in its body is handed on short,
      and nothing tells the caller so. */
  lemma CutFrame(body: Bytes, c: nat)
    requires c < |Frame(body)|
    ensures var h := |Encode(|body|)|;
      ReadFrame(Frame(body)[..c]) == if c < h then Ended else Body(body[..c - h], [])
  {
    var head := Encode(|body|);
    if c < |head| {
      assert Frame(body)[..c] == head[..c];
      CutHead(body, c);
    } else {
      var part := body[..c - |head|];
      assert Frame(body)[..c] == head + part;
      HeadOf(body, part);
      assert (head + part)[..|head|] == head && (head + part)[|head|..] == part;
    }
  }

  /** The frames complete in the first c bytes. */
  function Complete(bodies: seq<Bytes>, c: nat): (k: nat)
    ensures k <= |bodies|
  {
    if bodies == [] || c < |Frame(bodies[0])| then 0 else 1 + Complete(bodies[1..], c - |Frame(bodies[0])|)
  }

  /** How many bytes of the next frame are among the first c. */
  function Left(bodies: seq<Bytes>, c: nat): (l: nat)
    ensures var k := Complete(bodies, c); k < |bodies| ==> l < |Frame(bodies[k])|
  {
    if bodies == [] || c < |Frame(bodies[0])| then c else Left(bodies[1..], c - |Frame(bodies[0])|)
  }

  /** What the first l bytes of a frame are read as: nothing, or a body without its end. */
  function Short(body: Bytes, l: nat): seq<Bytes>
    requires l < |Frame(body)|
  {
    var h := |Encode(|body|)|;
    if l < h then [] else [body[..l - h]]
  }

  /** From any part of the stream come the complete bodies, and one short body
      exactly when the cut falls between a length and the end of its body. */
  lemma {:induction false} CutStream(bodies: seq<Bytes>, c: nat)
    requires c <= |Stream(bodies)|
    ensures var k, l := Complete(bodies, c), Left(bodies, c);
      ReadAll(Stream(bodies)[..c]) == bodies[..k] + if k < |bodies| then Short(bodies[k], l) else []
    decreases |bodies|
  {
    hide ReadFrame, ReadAll, Frame, Short;
    if bodies == [] {
      assert Stream(bodies)[..c] == [];
      ReadNothing();
    } else if c < |Frame(bodies[0])| {
      ReadCutFrame(bodies[0], c);
      assert Stream(bodies)[..c] == Frame(bodies[0])[..c];
      assert bodies[..0] == [];
    } else {
      var d := c - |Frame(bodies[0])|;
      var tail := Stream(bodies[1..])[..d];
      CutStream(bodies[1..], d);
      assert Stream(bodies)[..c] == Frame(bodies[0]) + tail;
      ReadWholeFrame(bodies[0], tail);
      PutFirst(bodies, Complete(bodies[1..], d));
    }
  }

  lemma PutFirst<T>(s: seq<T>, k: nat)
    requires k < |s|
    ensures s[..k + 1] == [s[0]] + s[1..][..k]
    ensures forall t: seq<T> :: s[..k + 1] + t == [s[0]] + (s[1..][..k] + t)
  {
    assert s[..k + 1] == [s[0]] + s[1..][..k];
    forall t: seq<T> ensures s[..k + 1] + t == [s[0]] + (s[1..][..k] + t) {}
  }

  lemma ReadNothing()
    ensures ReadAll([]) == []
  {}

  lemma ReadWholeFrame(body: Bytes, tail: Bytes)
    ensures ReadAll(Frame(body) + tail) == [body] + ReadAll(tail)
  {
    FrameRoundTrip(body, tail);
  }

  lemma ReadCutFrame(body: Bytes, c: nat)
    requires c < |Frame(body)|
    ensures ReadAll(Frame(body)[..c]) == Short(body, c)
  {
    CutFrame(body, c);
    ReadNothing();
  }

  /** The cut is where Complete and Left say. */
  lemma {:induction false} CutIs(bodies: seq<Bytes>, c: nat)
    requires c <= |Stream(bodies)|
    ensures c == |Stream(bodies[..Complete(bodies, c)])| + Left(bodies, c)
    ensures Complete(bodies, c) == |bodies| ==> Left(bodies, c) == 0
    decreases |bodies|
  {
    if bodies == [] || c < |Frame(bodies[0])| {
      assert bodies[..0] == [] && Stream([]) == [];
    } else {
      hide Frame;
      FirstFrame(bodies, Complete(bodies, c));
      hide Stream;
      CutIs(bodies[1..], c - |Frame(bodies[0])|);
    }
  }

  lemma FirstFrame(bodies: seq<Bytes>, k: nat)
    requires 0 < k <= |bodies|
    ensures |Stream(bodies)| == |Frame(bodies[0])| + |Stream(bodies[1..])|
    ensures |Stream(bodies[..k])| == |Frame(bodies[0])| + |Stream(bodies[1..][..k - 1])|
  {
    assert bodies[..k][0] == bodies[0] && bodies[..k][1..] == bodies[1..][..k - 1];
  }

  // ---- awaiting a response ----

  /** What the loop at the end of `send` gets: a response, or an error
      (the stream ended, or a body could not be parsed). */
  datatype Reply<F> = Answer(frame: F, rest: Bytes) | Failed

  /** `parse` decodes a body; `answers` is the id of a response and nothing for other frames. */
  function Await<F>(stream: Bytes, rid: nat, parse: Bytes -> Option<F>, answers: F -> Option<nat>): Reply<F>
    decreases |stream|
  {
    match ReadFrame(stream)
    case Ended => Failed
    case Body(body, rest) =>
      var f := parse(body);
      if f.None? then Failed
      else if answers(f.value) == Some(rid) then Answer(f.value, rest)
      else Await(rest, rid, parse, answers)
  }

  /** The answer is the first response with this id, and no byte after it is used. */
  lemma {:induction false} AwaitFinds<F>(bodies: seq<Bytes>, k: nat, tail: Bytes, rid: nat, parse: Bytes -> Option<F>, answers: F -> Option<nat>)
    requires k < |bodies| && forall i | 0 <= i <= k :: parse(bodies[i]).Some?
    requires answers(parse(bodies[k]).value) == Some(rid)
    requires forall i | 0 <= i < k :: answers(parse(bodies[i]).value) != Some(rid)
    ensures Await(Stream(bodies) + tail, rid, parse, answers) == Answer(parse(bodies[k]).value, Stream(bodies[k + 1..]) + tail)
    decreases k
  {
    hide ReadFrame, Frame, Stream, Await;
    AwaitFirst(bodies, tail, rid, parse, answers);
    assert parse(bodies[0]).Some?;
    if k > 0 {
      assert bodies[1..][k..] == bodies[k + 1..];
      AwaitFinds(bodies[1..], k - 1, tail, rid, parse, answers);
    }
  }

  /** It fails if a body in front of the answer cannot be parsed, or if the stream ends without one. */
  lemma {:induction false} AwaitFails<F>(bodies: seq<Bytes>, k: nat, tail: Bytes, rid: nat, parse: Bytes -> Option<F>, answers: F -> Option<nat>)
    requires k <= |bodies| && (forall i | 0 <= i < k :: parse(bodies[i]).Some? && answers(parse(bodies[i]).value) != Some(rid))
    requires if k < |bodies| then parse(bodies[k]).None? else Terminated(tail).None?
    ensures Await(Stream(bodies) + tail, rid, parse, answers) == Failed
    decreases k
  {
    hide ReadFrame, Frame, Stream, Terminated, Await;
    if bodies == [] {
      AwaitEnds(tail, rid, parse, answers);
    } else {
      AwaitFirst(bodies, tail, rid, parse, answers);
      if k > 0 { AwaitFails(bodies[1..], k - 1, tail, rid, parse, answers); }
    }
  }

  lemma AwaitEnds<F>(tail: Bytes, rid: nat, parse: Bytes -> Option<F>, answers: F -> Option<nat>)
    requires Terminated(tail).None?
    ensures Await(Stream([]) + tail, rid, parse, answers) == Failed
  {
    assert Stream([]) + tail == tail;
  }

  /** What the wait makes of the first body. */
  lemma AwaitFirst<F>(bodies: seq<Bytes>, tail: Bytes, rid: nat, parse: Bytes -> Option<F>, answers: F -> Option<nat>)
    requires bodies != []
    ensures var (f, after) := (parse(bodies[0]), Stream(bodies[1..]) + tail);
      Await(Stream(bodies) + tail, rid, parse, answers) ==
        if f.None? then Failed else if answers(f.value) == Some(rid) then Answer(f.value, after) else Await(after, rid, parse, answers)
  {
    var after := Stream(bodies[1..]) + tail;
    assert Stream(bodies) + tail == Frame(bodies[0]) + after;
    FrameRoundTrip(bodies[0], after);
    hide ReadFrame, Frame;
  }

  // ---- the connection ----

  /** The sending half. `bodies` is what has been sent so far; request ids count from 1. */
  class Outgoing {
    var nextId: nat
    var sent: Bytes
    ghost var bodies: seq<Bytes>

    /** After any run of sends, reading back what was sent gives each body in turn. */
    ghost predicate Valid()
      reads this
    {
      sent == Stream(bodies) && ReadAll(sent) == bodies && nextId == |bodies| + 1
    }

    constructor ()
      ensures Valid() && bodies == []
    {
      nextId, sent, bodies := 1, [], [];
      ReadNothing();
    }

    /** `serialize` gives the body of the request once its id is known. */
    method Send(serialize: nat -> Bytes) returns (rid: nat)
      requires Valid()
      modifies this
      ensures Valid() && rid == |bodies| && bodies == old(bodies) + [serialize(rid)]
      ensures sent == old(sent) + Frame(serialize(rid))
    {
      rid := nextId;
      nextId := nextId + 1;
      var body := serialize(rid);
      var head := WriteLength(|body|);
      sent := sent + (head + body);
      StreamSnoc(bodies, body);
      bodies := bodies + [body];
      StreamRoundTrip(bodies);
    }
  }

  /** The receiving half: `unread` is what the stream still has to give. */
  class Incoming {
    var unread: Bytes

    constructor (stream: Bytes)
      ensures unread == stream
    {
      unread := stream;
    }

    method Read() returns (body: Option<Bytes>)
      modifies this
      ensures match ReadFrame(old(unread))
        case Ended => body == None && unread == []
        case Body(b, rest) => body == Some(b) && unread == rest
    {
      var n, used, ok := ReadLength(unread);
      unread := unread[used..];
      if !ok { return None; }
      var size := if n <= |unread| then n else |unread|;
      assert size == |unread| ==> unread[..size] == unread && unread[size..] == [];
      body := Some(unread[..size]);
      unread := unread[size..];
    }

    method AwaitResponse<F>(rid: nat, parse: Bytes -> Option<F>, answers: F -> Option<nat>) returns (f: Option<F>)
      modifies this
      ensures match Await(old(unread), rid, parse, answers)
        case Failed => f == None
        case Answer(frame, rest) => f == Some(frame) && unread == rest
    {
      while true
        invariant Await(unread, rid, parse, answers) == Await(old(unread), rid, parse, answers)
        decreases |unread|
      {
        var body := Read();
        if body.None? { return None; }
        f := parse(body.value);
        if f.None? { return None; }
        if answers(f.value) == Some(rid) { return; }
      }
    }
  }
}
