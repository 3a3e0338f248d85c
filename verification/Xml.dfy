/** The XML subset of an AppStream description, read back by a small checking parser. */
module Xml {
  import opened Options

  datatype Tag = P | Ul | Ol | Li | Em | Code

  function Name(t: Tag): string {
    match t
    case P => "p" case Ul => "ul" case Ol => "ol" case Li => "li" case Em => "em" case Code => "code"
  }

  function Named(name: string): Option<Tag> {
    if name == "p" then Some(P) else if name == "ul" then Some(Ul) else if name == "ol" then Some(Ol)
    else if name == "li" then Some(Li) else if name == "em" then Some(Em) else if name == "code" then Some(Code)
    else None
  }

  function OpenTag(t: Tag): string { "<" + Name(t) + ">" }

  function CloseTag(t: Tag): string { "</" + Name(t) + ">" }

  function Entity(name: string): Option<char> {
    if name == "amp" then Some('&') else if name == "lt" then Some('<') else if name == "gt" then Some('>') else None
  }

  // ---- tokens ----

  datatype Token = Open(tag: Tag) | Close(tag: Tag) | Ch(c: char)

  function IndexOf(s: string, c: char): (i: nat)
    ensures i <= |s| && c !in s[..i] && (i < |s| ==> s[i] == c)
  {
    if s == "" || s[0] == c then 0
    else
      var i := IndexOf(s[1..], c);
      assert s[..i + 1] == [s[0]] + s[1..][..i];
      i + 1
  }

  function TagToken(body: string): Option<Token> {
    if body != "" && body[0] == '/' then
      var t := Named(body[1..]);
      if t.Some? then Some(Close(t.value)) else None
    else
      var t := Named(body);
      if t.Some? then Some(Open(t.value)) else None
  }

  /** The token at the front and its length. A raw `>`, an unknown tag or entity and a `&` that
      starts none are errors (section 2.4 of XML 1.0). */
  function TokenAt(s: string): (r: Option<(Token, nat)>)
    requires s != ""
    ensures r.Some? ==> 0 < r.value.1 <= |s|
  {
    if s[0] == '<' then
      var i := IndexOf(s, '>');
      if i == |s| then None
      else
        var t := TagToken(s[1..i]);
        if t.Some? then Some((t.value, i + 1)) else None
    else if s[0] == '&' then
      var i := IndexOf(s, ';');
      if i == |s| then None
      else
        var c := Entity(s[1..i]);
        if c.Some? then Some((Ch(c.value), i + 1)) else None
    else if s[0] == '>' then None
    else Some((Ch(s[0]), 1))
  }

  // ---- the parser ----

  /** Text with its inline markup: letters, and where `em` and `code` begin and end. */
  datatype Glyph = Letter(c: char) | Enter(tag: Tag) | Leave(tag: Tag)
  type Rich = seq<Glyph>

  function Lit(s: string): Rich {
    if s == "" then [] else [Letter(s[0])] + Lit(s[1..])
  }

  /** What a description shows: paragraphs and lists of items. */
  datatype Out = Para(text: Rich) | Items(ordered: bool, texts: seq<Rich>)

  /** The open elements, the finished blocks, the finished items of the open list,
      the text of the open paragraph or item. */
  datatype State = State(stack: seq<Tag>, done: seq<Out>, items: seq<Rich>, text: Rich)

  predicate IsBlank(c: char) { c == ' ' || c == '\t' || c == '\n' || c == '\r' }

  function Top(stack: seq<Tag>): Option<Tag> {
    if stack == [] then None else Some(stack[|stack| - 1])
  }

  predicate HoldsText(top: Option<Tag>) { top.Some? && top.value in {P, Li, Em, Code} }

  predicate HoldsInline(top: Option<Tag>) { top.Some? && top.value in {P, Li, Em} }

  /** Which element may stand in which: blocks at the top, items in lists, `em` and `code` in text. */
  predicate MayOpen(top: Option<Tag>, t: Tag) {
    match t
    case P => top == None
    case Ul => top == None
    case Ol => top == None
    case Li => top == Some(Ul) || top == Some(Ol)
    case Em => HoldsInline(top)
    case Code => HoldsInline(top)
  }

  function Step(st: State, token: Token): Option<State> {
    var top := Top(st.stack);
    match token
    case Ch(c) =>
      if HoldsText(top) then Some(st.(text := st.text + [Letter(c)]))
      else if IsBlank(c) then Some(st)
      else None
    case Open(t) =>
      if !MayOpen(top, t) then None
      else
        var in_ := st.(stack := st.stack + [t]);
        Some(match t
             case P => in_.(text := [])
             case Li => in_.(text := [])
             case Ul => in_.(items := [])
             case Ol => in_.(items := [])
             case Em => in_.(text := st.text + [Enter(Em)])
             case Code => in_.(text := st.text + [Enter(Code)]))
    case Close(t) =>
      if top != Some(t) then None
      else
        var out := st.(stack := st.stack[..|st.stack| - 1]);
        Some(match t
             case P => out.(done := st.done + [Para(st.text)])
             case Li => out.(items := st.items + [st.text])
             case Ul => out.(done := st.done + [Items(false, st.items)])
             case Ol => out.(done := st.done + [Items(true, st.items)])
             case Em => out.(text := st.text + [Leave(Em)])
             case Code => out.(text := st.text + [Leave(Code)]))
  }

  function Scan(s: string, st: State): Option<State>
    decreases |s|
  {
    if s == "" then Some(st)
    else
      var k := TokenAt(s);
      if k.None? then None
      else
        var next := Step(st, k.value.0);
        if next.None? then None else Scan(s[k.value.1..], next.value)
  }

  /** The blocks of a whole description, if it is one. */
  function Parse(s: string): Option<seq<Out>> {
    var r := Scan(s, State([], [], [], []));
    if r.Some? && r.value.stack == [] then Some(r.value.done) else None
  }

  // ---- pieces that parse can be put together ----

  lemma {:induction false} IndexOfPrefix(a: string, b: string, c: char)
    requires IndexOf(a, c) < |a|
    ensures IndexOf(a + b, c) == IndexOf(a, c)
  {
    if a[0] != c {
      assert (a + b)[1..] == a[1..] + b;
      IndexOfPrefix(a[1..], b, c);
    }
  }

  lemma TokenPrefix(a: string, b: string)
    requires a != "" && TokenAt(a).Some?
    ensures TokenAt(a + b) == TokenAt(a)
  {
    var close := if a[0] == '<' then '>' else ';';
    if a[0] == '<' || a[0] == '&' {
      IndexOfPrefix(a, b, close);
      var i := IndexOf(a, close);
      assert (a + b)[1..i] == a[1..i];
    }
  }

  lemma {:induction false} ScanAppend(a: string, b: string, st: State)
    requires Scan(a, st).Some?
    ensures Scan(a + b, st) == Scan(b, Scan(a, st).value)
    decreases |a|
  {
    if a == "" {
      assert a + b == b;
    } else {
      hide TokenAt, Step;
      TokenPrefix(a, b);
      var n := TokenAt(a).value.1;
      assert (a + b)[n..] == a[n..] + b;
      ScanAppend(a[n..], b, Step(st, TokenAt(a).value.0).value);
    }
  }

  /** One piece after another. */
  lemma ScanTwo(a: string, b: string, st: State, mid: State)
    requires Scan(a, st) == Some(mid)
    ensures Scan(a + b, st) == Scan(b, mid)
  {
    ScanAppend(a, b, st);
  }

  lemma ScanOne(s: string, st: State, token: Token)
    requires s != "" && TokenAt(s) == Some((token, |s|))
    ensures Scan(s, st) == Step(st, token)
  {}

  lemma {:induction false} IndexAfter(a: string, c: char, b: string)
    requires c !in a
    ensures IndexOf(a + [c] + b, c) == |a|
  {
    if a != "" {
      assert (a + [c] + b)[1..] == a[1..] + [c] + b;
      IndexAfter(a[1..], c, b);
    }
  }

  lemma OpenToken(t: Tag)
    ensures TokenAt(OpenTag(t)) == Some((Open(t), |OpenTag(t)|))
  {
    IndexAfter("<" + Name(t), '>', "");
    assert "<" + Name(t) + ">" + "" == OpenTag(t);
    assert OpenTag(t)[1..|Name(t)| + 1] == Name(t);
  }

  lemma CloseToken(t: Tag)
    ensures TokenAt(CloseTag(t)) == Some((Close(t), |CloseTag(t)|))
  {
    IndexAfter("</" + Name(t), '>', "");
    assert "</" + Name(t) + ">" + "" == CloseTag(t);
    assert CloseTag(t)[1..|Name(t)| + 2] == "/" + Name(t);
    assert ("/" + Name(t))[1..] == Name(t);
  }

  lemma ScanOpen(t: Tag, st: State)
    ensures Scan(OpenTag(t), st) == Step(st, Open(t))
  {
    OpenToken(t);
    ScanOne(OpenTag(t), st, Open(t));
  }

  lemma ScanClose(t: Tag, st: State)
    ensures Scan(CloseTag(t), st) == Step(st, Close(t))
  {
    CloseToken(t);
    ScanOne(CloseTag(t), st, Close(t));
  }

  // ---- text ----

  function Replace(s: string, c: char, sub: string): string {
    if s == "" then "" else (if s[0] == c then sub else [s[0]]) + Replace(s[1..], c, sub)
  }

  /** `html.escape` without quotes: three replacements, one after another. */
  function Escape(s: string): string {
    Replace(Replace(Replace(s, '&', "&amp;"), '<', "&lt;"), '>', "&gt;")
  }

  lemma {:induction false} ReplaceAppend(a: string, b: string, c: char, sub: string)
    ensures Replace(a + b, c, sub) == Replace(a, c, sub) + Replace(b, c, sub)
  {
    if a == "" {
      assert a + b == b;
    } else {
      assert (a + b)[1..] == a[1..] + b;
      ReplaceAppend(a[1..], b, c, sub);
    }
  }

  function EscapeChar(c: char): string {
    if c == '&' then "&amp;" else if c == '<' then "&lt;" else if c == '>' then "&gt;" else [c]
  }

  lemma ReplaceAbsent(s: string, c: char, sub: string)
    requires c !in s
    ensures Replace(s, c, sub) == s
  {}

  lemma ReplaceOne(d: char, c: char, sub: string)
    ensures Replace([d], c, sub) == if d == c then sub else [d]
  {}

  lemma EscapeOne(c: char)
    ensures Escape([c]) == EscapeChar(c)
  {
    hide Replace;
    ReplaceOne(c, '&', "&amp;");
    ReplaceOne(c, '<', "&lt;");
    ReplaceOne(c, '>', "&gt;");
    if c == '&' {
      ReplaceAbsent("&amp;", '<', "&lt;");
      ReplaceAbsent("&amp;", '>', "&gt;");
    } else if c == '<' {
      ReplaceAbsent("&lt;", '>', "&gt;");
    }
  }

  /** Three passes are one: no replacement is replaced again. */
  lemma EscapeFirst(s: string)
    requires s != ""
    ensures Escape(s) == EscapeChar(s[0]) + Escape(s[1..])
  {
    assert s == [s[0]] + s[1..];
    ReplaceAppend([s[0]], s[1..], '&', "&amp;");
    ReplaceAppend(Replace([s[0]], '&', "&amp;"), Replace(s[1..], '&', "&amp;"), '<', "&lt;");
    ReplaceAppend(Replace(Replace([s[0]], '&', "&amp;"), '<', "&lt;"),
                  Replace(Replace(s[1..], '&', "&amp;"), '<', "&lt;"), '>', "&gt;");
    EscapeOne(s[0]);
  }

  lemma EscapedToken(c: char)
    ensures EscapeChar(c) != "" && TokenAt(EscapeChar(c)) == Some((Ch(c), |EscapeChar(c)|))
  {
    var s := EscapeChar(c);
    if c == '&' {
      IndexAfter("&amp", ';', "");
      assert s == "&amp" + ";" + "" && s[1..4] == "amp";
    } else if c == '<' {
      IndexAfter("&lt", ';', "");
      assert s == "&lt" + ";" + "" && s[1..3] == "lt";
    } else if c == '>' {
      IndexAfter("&gt", ';', "");
      assert s == "&gt" + ";" + "" && s[1..3] == "gt";
    }
  }

  function AddText(st: State, s: Rich): State { st.(text := st.text + s) }

  lemma AddTwice(st: State, a: Rich, b: Rich)
    ensures AddText(AddText(st, a), b) == AddText(st, a + b)
  {}

  lemma ScanNothing(st: State)
    ensures Scan(Escape(""), st) == Some(AddText(st, Lit(""))) == Some(st)
  {
    assert st.text + [] == st.text;
  }

  lemma ScanChar(c: char, rest: string, st: State)
    requires HoldsText(Top(st.stack))
    ensures Scan(EscapeChar(c) + rest, st) == Scan(rest, AddText(st, [Letter(c)]))
  {
    hide Scan, TokenAt, EscapeChar;
    EscapedToken(c);
    ScanOne(EscapeChar(c), st, Ch(c));
    ScanTwo(EscapeChar(c), rest, st, AddText(st, [Letter(c)]));
  }

  /** Unescaping undoes escaping: any text comes back, and none of it is read as markup. */
  lemma {:induction false} ScanEscaped(s: string, st: State)
    requires HoldsText(Top(st.stack))
    ensures Scan(Escape(s), st) == Some(AddText(st, Lit(s)))
  {
    hide Scan, Escape, EscapeChar;
    if s == "" {
      ScanNothing(st);
    } else {
      EscapeFirst(s);
      ScanChar(s[0], Escape(s[1..]), st);
      ScanEscaped(s[1..], AddText(st, [Letter(s[0])]));
      AddTwice(st, [Letter(s[0])], Lit(s[1..]));
    }
  }

  lemma EscapeEmpty(s: string)
    ensures Escape(s) == "" <==> s == ""
  {}

  /** Blanks between blocks and items change nothing. */
  lemma {:induction false} ScanBlanks(s: string, st: State)
    requires !HoldsText(Top(st.stack)) && forall c | c in s :: IsBlank(c)
    ensures Scan(s, st) == Some(st)
  {
    if s != "" {
      assert s[0] in s && s == [s[0]] + s[1..];
      ScanOne([s[0]], st, Ch(s[0]));
      ScanTwo([s[0]], s[1..], st, st);
      ScanBlanks(s[1..], st);
    }
  }
}
