/** Newline-framed byte streams, as both the notification socket and the
    verification script read them. */
module Lines {
  type byte = b: int | 0 <= b < 256
  type Line = seq<byte>

  const NEWLINE: byte := 10

  /** Position of the first newline, or -1. */
  function FindNewline(data: seq<byte>): (i: int)
    ensures i == -1 <==> NEWLINE !in data
    ensures i != -1 ==> 0 <= i < |data| && data[i] == NEWLINE && NEWLINE !in data[..i]
  {
    if data == [] then -1
    else if data[0] == NEWLINE then 0
    else
      var i := FindNewline(data[1..]);
      if i == -1 then -1
      else
        assert data[..i + 1] == [data[0]] + data[1..][..i];
        i + 1
  }

  /** The bytes of complete lines, each followed by its newline. */
  function Unlines(lines: seq<Line>): seq<byte> {
    if lines == [] then [] else lines[0] + [NEWLINE] + Unlines(lines[1..])
  }

  ghost predicate Framed(lines: seq<Line>) {
    forall i | 0 <= i < |lines| :: NEWLINE !in lines[i]
  }

  lemma {:induction false} FoundAt(a: Line, b: seq<byte>)
    requires NEWLINE !in a
    ensures FindNewline(a + [NEWLINE] + b) == |a|
  {
    var data := a + [NEWLINE] + b;
    assert data[..|a|] == a && data[|a|] == NEWLINE;
    if a != [] {
      assert data[1..] == a[1..] + [NEWLINE] + b;
      FoundAt(a[1..], b);
    }
  }

  lemma {:induction false} UnlinesAppend(a: seq<Line>, b: seq<Line>)
    ensures Unlines(a + b) == Unlines(a) + Unlines(b)
  {
    if a == [] {
      assert a + b == b;
    } else {
      assert (a + b)[1..] == a[1..] + b;
      UnlinesAppend(a[1..], b);
    }
  }

  lemma UnlinesOne(l: Line)
    ensures Unlines([l]) == l + [NEWLINE]
  {}

  lemma UnlinesSnoc(a: seq<Line>, l: Line)
    ensures Unlines(a + [l]) == Unlines(a) + l + [NEWLINE]
  {
    UnlinesAppend(a, [l]);
    assert Unlines([l]) == l + [NEWLINE];
  }

  /** The framing is unambiguous: equal byte streams hold equal lines and an equal rest. */
  lemma {:induction false} UnlinesInjective(a: seq<Line>, restA: seq<byte>, b: seq<Line>, restB: seq<byte>)
    requires Framed(a) && Framed(b) && NEWLINE !in restA && NEWLINE !in restB
    requires Unlines(a) + restA == Unlines(b) + restB
    ensures a == b && restA == restB
  {
    var data := Unlines(a) + restA;
    if a != [] {
      assert data == a[0] + [NEWLINE] + (Unlines(a[1..]) + restA);
      FoundAt(a[0], Unlines(a[1..]) + restA);
    }
    if b != [] {
      assert data == b[0] + [NEWLINE] + (Unlines(b[1..]) + restB);
      FoundAt(b[0], Unlines(b[1..]) + restB);
    }
    if a != [] && b != [] {
      assert a[0] == data[..FindNewline(data)] == b[0];
      assert Unlines(a[1..]) + restA == data[|a[0]| + 1..] == Unlines(b[1..]) + restB;
      UnlinesInjective(a[1..], restA, b[1..], restB);
      assert a == [a[0]] + a[1..] && b == [b[0]] + b[1..];
    } else {
      assert a == [] ==> data == restA;
      assert b == [] ==> data == restB;
    }
  }
}
