/** A code block in release notes is printed on one line. */
module ReleaseCode {
  import opened Options
  import opened AppStream
  import opened ReleaseBlank

  // ---- the lines of a text ----

  ghost predicate NoBreak(s: string) { forall c | c in s :: !IsBreak(c) }

  /** One line break: a carriage return with its line feed counts as one. */
  ghost predicate OneBreak(s: string) { s == "\r\n" || (|s| == 1 && IsBreak(s[0])) }

  /** Lines, each followed by its break. */
  function Uncut(lines: seq<string>, breaks: seq<string>): string
    requires |breaks| == |lines|
  {
    if lines == [] then "" else lines[0] + breaks[0] + Uncut(lines[1..], breaks[1..])
  }

  /** A text cut into lines at every break. The last line may be without one. */
  ghost predicate Cut(text: string, lines: seq<string>, breaks: seq<string>) {
    && |breaks| == |lines| && text == Uncut(lines, breaks)
    && (forall i | 0 <= i < |lines| :: NoBreak(lines[i]))
    && (forall i | 0 <= i < |lines| :: OneBreak(breaks[i]) || (i == |lines| - 1 && lines[i] != "" && breaks[i] == ""))
    && (forall i | 0 < i < |lines| :: breaks[i - 1] == "\r" && lines[i] == "" ==> breaks[i][..1] != "\n")
  }

  lemma {:induction false} FirstBreakAt(line: string, rest: string)
    requires NoBreak(line) && (rest != "" ==> IsBreak(rest[0]))
    ensures FirstBreak(line + rest) == |line|
  {
    if line == "" {
      assert line + rest == rest;
    } else {
      assert line[0] in line && (line + rest)[1..] == line[1..] + rest;
      assert forall c | c in line[1..] :: c in line;
      FirstBreakAt(line[1..], rest);
    }
  }

  lemma CutRest(text: string, lines: seq<string>, breaks: seq<string>)
    requires Cut(text, lines, breaks) && lines != []
    ensures Cut(Uncut(lines[1..], breaks[1..]), lines[1..], breaks[1..])
  {}

  /** After the first line stands its break, and no more of it. */
  lemma BreakAt(text: string, lines: seq<string>, breaks: seq<string>)
    requires Cut(text, lines, breaks) && lines != []
    ensures var tail := Uncut(lines[1..], breaks[1..]);
      && (breaks[0] + tail != "" ==> IsBreak((breaks[0] + tail)[0])) && BreakSize(breaks[0] + tail) == |breaks[0]|
      && text == lines[0] + breaks[0] + tail && NoBreak(lines[0]) && lines[0] + breaks[0] != "" && |breaks| == |lines|
  {
    var tail := Uncut(lines[1..], breaks[1..]);
    if breaks[0] == "" {
      assert lines[1..] == [];
    } else if breaks[0] == "\r" && tail != "" {
      var next := breaks[1];
      if lines[1] == "" { assert next[..1] == [next[0]]; } else { assert lines[1][0] in lines[1]; }
    }
  }

  /** Any such cut is the one that is made. */
  lemma {:induction false} CutIsSplit(text: string, lines: seq<string>, breaks: seq<string>)
    requires Cut(text, lines, breaks)
    ensures SplitLines(text) == lines
    decreases |lines|
  {
    if lines == [] {
      assert text == "";
    } else {
      BreakAt(text, lines, breaks);
      CutRest(text, lines, breaks);
      hide Cut, SplitLines, FirstBreak, BreakSize;
      var tail := Uncut(lines[1..], breaks[1..]);
      CutIsSplit(tail, lines[1..], breaks[1..]);
      SplitFirst(lines[0], breaks[0], tail);
      assert lines == [lines[0]] + lines[1..];
    }
  }

  lemma SplitFirst(line: string, b: string, tail: string)
    requires NoBreak(line) && line + b != "" && BreakSize(b + tail) == |b| && (b + tail != "" ==> IsBreak((b + tail)[0]))
    ensures SplitLines(line + b + tail) == [line] + SplitLines(tail)
  {
    var text := line + b + tail;
    assert text == line + (b + tail);
    FirstBreakAt(line, b + tail);
    hide FirstBreak, BreakSize;
    assert text[|line|..] == b + tail && text[..|line|] == line && text[|line| + |b|..] == tail;
  }

  /** Every text has a cut. */
  lemma {:induction false} CutExists(text: string) returns (lines: seq<string>, breaks: seq<string>)
    ensures Cut(text, lines, breaks)
    decreases |text|
  {
    if text == "" {
      lines, breaks := [], [];
    } else {
      var i := FirstBreak(text);
      var n := BreakSize(text[i..]);
      NoneBefore(text);
      BreakFits(text, i);
      hide FirstBreak, BreakSize, Cut;
      var more, after := CutExists(text[i + n..]);
      lines, breaks := [text[..i]] + more, [text[i..i + n]] + after;
      CutFirst(text[..i], text[i..i + n], text[i + n..], more, after);
      assert text == text[..i] + text[i..i + n] + text[i + n..];
    }
  }

  /** The break at the front of a text. */
  lemma BreakFits(text: string, i: nat)
    requires i == FirstBreak(text) && text != ""
    ensures var n := BreakSize(text[i..]);
      && i + n <= |text| && (OneBreak(text[i..i + n]) || (i == |text| && n == 0)) && i + n > 0
      && (text[i..i + n] == "\r" && i + n < |text| ==> text[i + n] != '\n')
  {
    var n := BreakSize(text[i..]);
    if i < |text| { assert text[i..i + n][0] == text[i]; }
  }

  lemma CutFirst(line: string, b: string, rest: string, more: seq<string>, after: seq<string>)
    requires Cut(rest, more, after) && NoBreak(line) && (OneBreak(b) || (line != "" && b == "" && rest == ""))
    requires b == "\r" && rest != "" ==> rest[0] != '\n'
    ensures Cut(line + b + rest, [line] + more, [b] + after)
  {
    var lines, breaks := [line] + more, [b] + after;
    assert lines[1..] == more && breaks[1..] == after;
    if rest == "" { NothingCut(more, after); }
    if more != [] && b == "\r" && more[0] == "" {
      assert rest == more[0] + after[0] + Uncut(more[1..], after[1..]);
      assert after[0][..1] == [rest[0]];
    }
    forall i | 0 < i < |lines| ensures breaks[i - 1] == "\r" && lines[i] == "" ==> breaks[i][..1] != "\n" {
      if i > 1 { assert lines[i] == more[i - 1] && breaks[i] == after[i - 1] && breaks[i - 1] == after[i - 2]; }
    }
  }

  lemma NothingCut(lines: seq<string>, breaks: seq<string>)
    requires Cut("", lines, breaks)
    ensures lines == []
  {}

  lemma {:induction false} NoneBefore(text: string)
    ensures NoBreak(text[..FirstBreak(text)])
  {
    if text != "" && !IsBreak(text[0]) {
      NoneBefore(text[1..]);
      var n := FirstBreak(text[1..]);
      assert text[..n + 1] == [text[0]] + text[1..][..n];
    }
  }

  // ---- on one line ----

  /** The lines that are not blank. */
  function Kept(lines: seq<string>): seq<string> {
    if lines == [] then [] else (if Blank(lines[0]) then [] else [lines[0]]) + Kept(lines[1..])
  }

  /** The parts in order with exactly one blank between neighbours. */
  ghost predicate Spaced(s: string, parts: seq<string>)
    decreases |parts|
  {
    if |parts| == 0 then s == ""
    else if |parts| == 1 then s == parts[0]
    else |s| > |parts[0]| && s[..|parts[0]|] == parts[0] && s[|parts[0]|] == ' ' && Spaced(s[|parts[0]| + 1..], parts[1..])
  }

  lemma {:induction false} JoinSpaced(parts: seq<string>)
    ensures Spaced(Join(" ", parts), parts)
  {
    if |parts| > 1 {
      JoinSpaced(parts[1..]);
      var rest := Join(" ", parts[1..]);
      assert Join(" ", parts) == parts[0] + " " + rest;
      assert (parts[0] + " " + rest)[|parts[0]| + 1..] == rest;
    }
  }

  lemma {:induction false} KeptIs(lines: seq<string>)
    ensures NotBlank(lines) == Kept(lines)
  {
    if lines != [] {
      StripBlank(lines[0]);
      KeptIs(lines[1..]);
    }
  }

  /** However a text is cut at its breaks: the code printed for it is the lines that are not blank, unchanged and in
      order, with one blank between neighbours. */
  lemma CodeIs(text: string, lines: seq<string>, breaks: seq<string>)
    requires Cut(text, lines, breaks)
    ensures Spaced(CollapseCode(Some(text)), Kept(lines))
  {
    CutIsSplit(text, lines, breaks);
    KeptIs(lines);
    JoinSpaced(Kept(lines));
  }

  /** So no code is printed on more than one line. */
  lemma CodeOnOneLine(raw: Option<string>)
    ensures NoBreak(CollapseCode(raw))
  {
    var text := if raw.Some? then raw.value else "";
    var lines, breaks := CutExists(text);
    CodeIs(text, lines, breaks);
    KeptUnbroken(lines);
    SpacedUnbroken(CollapseCode(raw), Kept(lines));
  }

  lemma {:induction false} KeptUnbroken(lines: seq<string>)
    requires forall i | 0 <= i < |lines| :: NoBreak(lines[i])
    ensures forall part | part in Kept(lines) :: NoBreak(part)
  {
    if lines != [] { KeptUnbroken(lines[1..]); }
  }

  lemma {:induction false} SpacedUnbroken(s: string, parts: seq<string>)
    requires Spaced(s, parts) && forall part | part in parts :: NoBreak(part)
    ensures NoBreak(s)
    decreases |parts|
  {
    if |parts| > 1 {
      var n := |parts[0]|;
      SpacedUnbroken(s[n + 1..], parts[1..]);
      assert s == parts[0] + [' '] + s[n + 1..] && parts[0] in parts;
    } else if |parts| == 1 {
      assert parts[0] in parts;
    }
  }
}
