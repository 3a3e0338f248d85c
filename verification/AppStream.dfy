/** Release notes: a Markdown syntax tree lowered into the XML subset of an AppStream description. */
module AppStream {
  import opened Options
  import opened Xml

  // ---- the syntax tree ----

  /** Text: raw text, literals and inline HTML; Emphasis: both strengths; Link: images too. */
  datatype Inline =
    | Text(text: string)
    | LineBreak
    | CodeSpan(code: string)
    | Emphasis(children: seq<Inline>)
    | Link(children: seq<Inline>, dest: Option<string>, title: Option<string>)
    | AutoLink(dest: Option<string>)
    | OtherText(text: string)
    | OtherNode(children: seq<Inline>)

  /** Heading: both styles; CodeBlock: fenced and indented, with no raw text if it has no child and with what stands
      behind the opening fence; Html: with its text if it holds any. */
  datatype Block =
    | Paragraph(inlines: seq<Inline>)
    | Heading(inlines: seq<Inline>)
    | List(ordered: bool, items: seq<Item>)
    | Quote(blocks: seq<Block>)
    | CodeBlock(raw: Option<string>, info: string)
    | Html(body: Option<string>)
    | OtherBlock

  datatype Item = Item(children: seq<Block>)

  // ---- strings ----

  /** `str.isspace` of one character. */
  predicate IsSpace(c: char) {
    || '\t' <= c <= '\r' || '\U{1c}' <= c <= ' ' || c == '\U{85}' || c == '\U{a0}' || c == '\U{1680}'
    || '\U{2000}' <= c <= '\U{200a}' || c == '\U{2028}' || c == '\U{2029}' || c == '\U{202f}' || c == '\U{205f}' || c == '\U{3000}'
  }

  /** The characters `str.splitlines` breaks at. */
  predicate IsBreak(c: char) {
    '\n' <= c <= '\r' || '\U{1c}' <= c <= '\U{1e}' || c == '\U{85}' || c == '\U{2028}' || c == '\U{2029}'
  }

  function LStrip(s: string): string {
    if s != "" && IsSpace(s[0]) then LStrip(s[1..]) else s
  }

  function RStrip(s: string): string {
    if s != "" && IsSpace(s[|s| - 1]) then RStrip(s[..|s| - 1]) else s
  }

  function Strip(s: string): string { RStrip(LStrip(s)) }

  function FirstBreak(s: string): (i: nat)
    ensures i <= |s| && (i < |s| ==> IsBreak(s[i]))
  {
    if s == "" || IsBreak(s[0]) then 0 else 1 + FirstBreak(s[1..])
  }

  /** How many characters the break at the front of s takes. */
  function BreakSize(s: string): nat {
    if s == "" then 0 else if |s| > 1 && s[0] == '\r' && s[1] == '\n' then 2 else 1
  }

  function SplitLines(s: string): seq<string>
    decreases |s|
  {
    if s == "" then []
    else
      var i := FirstBreak(s);
      [s[..i]] + SplitLines(s[i + BreakSize(s[i..])..])
  }

  function Join<T>(sep: seq<T>, parts: seq<seq<T>>): seq<T> {
    if |parts| == 0 then [] else if |parts| == 1 then parts[0] else parts[0] + sep + Join(sep, parts[1..])
  }

  function NonEmpty(parts: seq<string>): seq<string> {
    if parts == [] then [] else (if parts[0] == "" then [] else [parts[0]]) + NonEmpty(parts[1..])
  }

  function NotBlank(lines: seq<string>): seq<string> {
    if lines == [] then [] else (if Strip(lines[0]) == "" then [] else [lines[0]]) + NotBlank(lines[1..])
  }

  /** A code block on one line. */
  function CollapseCode(raw: Option<string>): string {
    Join(" ", NotBlank(SplitLines(if raw.Some? then raw.value else "")))
  }

  // ---- URLs ----

  predicate IsLetter(c: char) { 'a' <= c <= 'z' || 'A' <= c <= 'Z' }

  predicate IsSchemeChar(c: char) { IsLetter(c) || '0' <= c <= '9' || c == '+' || c == '.' || c == '-' }

  function SchemeRun(s: string): (n: nat)
    ensures n <= |s|
  {
    if s != "" && IsSchemeChar(s[0]) then 1 + SchemeRun(s[1..]) else 0
  }

  /** The length of `scheme://` at the front, or 0. */
  function SchemeSize(s: string): (n: nat)
    ensures n <= |s|
  {
    var n := SchemeRun(s);
    if n > 0 && IsLetter(s[0]) && n + 3 <= |s| && s[n..n + 3] == "://" then n + 3 else 0
  }

  function StripScheme(dest: Option<string>): string {
    var s := Strip(if dest.Some? then dest.value else "");
    s[SchemeSize(s)..]
  }

  // ---- the printer ----

  const BLOCK_INDENT := "        "
  const ITEM_INDENT := "          "

  function Wrap(t: Tag, body: string): string { OpenTag(t) + body + CloseTag(t) }

  function WithUrl(text: string, url: string): string {
    if url == "" then text else (if text == "" then "" else text + " ") + "(" + Escape(url) + ")"
  }

  function RenderInline(e: Inline): string {
    match e
    case Text(s) => Escape(s)
    case LineBreak => " "
    case CodeSpan(s) => Wrap(Code, Escape(s))
    case Emphasis(cs) => Wrap(Em, RenderChildren(cs))
    case Link(cs, dest, _) => WithUrl(RenderChildren(cs), StripScheme(dest))
    case AutoLink(dest) => Escape(StripScheme(dest))
    case OtherText(s) => Escape(s)
    case OtherNode(cs) => RenderChildren(cs)
  }

  function RenderChildren(cs: seq<Inline>): string {
    if cs == [] then "" else RenderInline(cs[0]) + RenderChildren(cs[1..])
  }

  function ListTag(ordered: bool): Tag { if ordered then Ol else Ul }

  function RenderBlock(b: Block): seq<string> {
    match b
    case Paragraph(cs) => [BLOCK_INDENT + Wrap(P, RenderChildren(cs))]
    case Heading(cs) => [BLOCK_INDENT + Wrap(P, Wrap(Em, RenderChildren(cs)))]
    case List(ordered, items) =>
      [BLOCK_INDENT + OpenTag(ListTag(ordered))] + RenderItems(items) + [BLOCK_INDENT + CloseTag(ListTag(ordered))]
    case Quote(bs) => RenderBlocks(bs)
    case CodeBlock(raw, _) =>
      var code := CollapseCode(raw);
      if code == "" then [] else [BLOCK_INDENT + Wrap(P, Wrap(Code, Escape(code)))]
    case Html(body) =>
      var text := if body.Some? then Escape(Strip(body.value)) else "";
      if text == "" then [] else [BLOCK_INDENT + Wrap(P, text)]
    case OtherBlock => []
  }

  function RenderBlocks(bs: seq<Block>): seq<string> {
    if bs == [] then [] else RenderBlock(bs[0]) + RenderBlocks(bs[1..])
  }

  /** What a child of a list item adds to the item's text. */
  function RenderPart(b: Block): seq<string> {
    match b
    case Paragraph(cs) => [RenderChildren(cs)]
    case Heading(cs) => [RenderChildren(cs)]
    case CodeBlock(raw, _) =>
      var code := CollapseCode(raw);
      if code == "" then [] else [Wrap(Code, Escape(code))]
    case _ => []
  }

  function RenderParts(bs: seq<Block>): seq<string> {
    if bs == [] then [] else RenderPart(bs[0]) + RenderParts(bs[1..])
  }

  function RenderItem(i: Item): seq<string> {
    var text := Join(" ", NonEmpty(RenderParts(i.children)));
    (if text == "" then [] else [ITEM_INDENT + Wrap(Li, text)]) + RenderNested(i.children)
  }

  /** The items of the nested lists, as siblings. */
  function RenderNested(bs: seq<Block>): seq<string> {
    if bs == [] then []
    else (if bs[0].List? then RenderItems(bs[0].items) else []) + RenderNested(bs[1..])
  }

  function RenderItems(items: seq<Item>): seq<string> {
    if items == [] then [] else RenderItem(items[0]) + RenderItems(items[1..])
  }

  // ---- what a tree says ----

  /** The printer writes nothing at all for these. */
  predicate Silent(cs: seq<Inline>) {
    cs == [] || (SilentInline(cs[0]) && Silent(cs[1..]))
  }

  predicate SilentInline(e: Inline) {
    match e
    case Text(s) => s == ""
    case LineBreak => false
    case CodeSpan(_) => false
    case Emphasis(_) => false
    case Link(cs, dest, _) => Silent(cs) && StripScheme(dest) == ""
    case AutoLink(dest) => StripScheme(dest) == ""
    case OtherText(s) => s == ""
    case OtherNode(cs) => Silent(cs)
  }

  function Tagged(t: Tag, r: Rich): Rich { [Enter(t)] + r + [Leave(t)] }

  function UrlAfter(silent: bool, url: string): Rich {
    if url == "" then [] else Lit(if silent then "" else " ") + Lit("(") + Lit(url) + Lit(")")
  }

  /** Text as it is, a break as a blank, a link as its text and its URL without the scheme. */
  function Content(e: Inline): Rich {
    match e
    case Text(s) => Lit(s)
    case LineBreak => Lit(" ")
    case CodeSpan(s) => Tagged(Code, Lit(s))
    case Emphasis(cs) => Tagged(Em, Contents(cs))
    case Link(cs, dest, _) => Contents(cs) + UrlAfter(Silent(cs), StripScheme(dest))
    case AutoLink(dest) => Lit(StripScheme(dest))
    case OtherText(s) => Lit(s)
    case OtherNode(cs) => Contents(cs)
  }

  function Contents(cs: seq<Inline>): Rich {
    if cs == [] then [] else Content(cs[0]) + Contents(cs[1..])
  }

  function ContentPart(b: Block): seq<Rich> {
    match b
    case Paragraph(cs) => if Silent(cs) then [] else [Contents(cs)]
    case Heading(cs) => if Silent(cs) then [] else [Contents(cs)]
    case CodeBlock(raw, _) => if CollapseCode(raw) == "" then [] else [Tagged(Code, Lit(CollapseCode(raw)))]
    case _ => []
  }

  function ContentParts(bs: seq<Block>): seq<Rich> {
    if bs == [] then [] else ContentPart(bs[0]) + ContentParts(bs[1..])
  }

  /** The texts of an item and of the items nested in it: its own text first. */
  function ItemTexts(i: Item): seq<Rich> {
    var parts := ContentParts(i.children);
    (if parts == [] then [] else [Join(Lit(" "), parts)]) + NestedTexts(i.children)
  }

  function NestedTexts(bs: seq<Block>): seq<Rich> {
    if bs == [] then [] else (if bs[0].List? then ItemsTexts(bs[0].items) else []) + NestedTexts(bs[1..])
  }

  function ItemsTexts(items: seq<Item>): seq<Rich> {
    if items == [] then [] else ItemTexts(items[0]) + ItemsTexts(items[1..])
  }

  function BlockOuts(b: Block): seq<Out> {
    match b
    case Paragraph(cs) => [Para(Contents(cs))]
    case Heading(cs) => [Para(Tagged(Em, Contents(cs)))]
    case List(ordered, items) => [Items(ordered, ItemsTexts(items))]
    case Quote(bs) => Outs(bs)
    case CodeBlock(raw, _) => if CollapseCode(raw) == "" then [] else [Para(Tagged(Code, Lit(CollapseCode(raw))))]
    case Html(body) => if body.None? || Strip(body.value) == "" then [] else [Para(Lit(Strip(body.value)))]
    case OtherBlock => []
  }

  function Outs(bs: seq<Block>): seq<Out> {
    if bs == [] then [] else BlockOuts(bs[0]) + Outs(bs[1..])
  }

  // ---- inline markup parses as text ----

  ghost predicate ShowsIn(r: string, t: Rich, st: State) {
    HoldsInline(Top(st.stack)) ==> Scan(r, st) == Some(AddText(st, t))
  }

  /** Wherever inline content may stand, r reads as the text t. */
  ghost predicate Shows(r: string, t: Rich) {
    forall st: State :: ShowsIn(r, t, st)
  }

  lemma ShowsBoth(a: string, t: Rich, b: string, u: Rich)
    requires Shows(a, t) && Shows(b, u)
    ensures Shows(a + b, t + u)
  {
    hide Scan;
    forall st: State ensures ShowsIn(a + b, t + u, st) {
      if HoldsInline(Top(st.stack)) {
        assert ShowsIn(a, t, st) && ShowsIn(b, u, AddText(st, t));
        ScanTwo(a, b, st, AddText(st, t));
        AddTwice(st, t, u);
      }
    }
  }

  lemma ShowsEscaped(s: string)
    ensures Shows(Escape(s), Lit(s))
  {
    hide Scan, Escape;
    forall st: State ensures ShowsIn(Escape(s), Lit(s), st) {
      if HoldsInline(Top(st.stack)) { ScanEscaped(s, st); }
    }
  }

  lemma ShowsChars(s: string)
    requires forall c | c in s :: c != '&' && c != '<' && c != '>'
    ensures Shows(s, Lit(s))
  {
    ReplaceAbsent(s, '&', "&amp;");
    ReplaceAbsent(s, '<', "&lt;");
    ReplaceAbsent(s, '>', "&gt;");
    ShowsEscaped(s);
  }

  lemma PushPop(stack: seq<Tag>, t: Tag)
    ensures Top(stack + [t]) == Some(t) && (stack + [t])[..|stack + [t]| - 1] == stack
  {}

  /** Between its tags the body is read inside the element. */
  lemma ScanWrapped(t: Tag, body: string, st: State, inner: State, after: State)
    requires Step(st, Open(t)) == Some(inner) && Scan(body, inner) == Some(after)
    ensures Scan(Wrap(t, body), st) == Step(after, Close(t))
  {
    hide Scan, Step;
    ScanOpen(t, st);
    ScanTwo(OpenTag(t), body + CloseTag(t), st, inner);
    ScanTwo(body, CloseTag(t), inner, after);
    ScanClose(t, after);
    assert Wrap(t, body) == OpenTag(t) + (body + CloseTag(t));
  }

  /** Inside `em` or `code`, text that reads as t is marked text. */
  lemma TaggedIn(t: Tag, st: State, r: Rich)
    requires HoldsInline(Top(st.stack)) && (t == Em || t == Code)
    ensures var inner := st.(stack := st.stack + [t], text := st.text + [Enter(t)]);
      && Step(st, Open(t)) == Some(inner) && HoldsText(Top(inner.stack)) && (t == Em ==> HoldsInline(Top(inner.stack)))
      && Step(AddText(inner, r), Close(t)) == Some(AddText(st, Tagged(t, r)))
  {
    PushPop(st.stack, t);
    assert st.text + [Enter(t)] + r + [Leave(t)] == st.text + ([Enter(t)] + r + [Leave(t)]);
  }

  lemma ShowsEm(body: string, t: Rich)
    requires Shows(body, t)
    ensures Shows(Wrap(Em, body), Tagged(Em, t))
  {
    hide Scan, Step;
    forall st: State ensures ShowsIn(Wrap(Em, body), Tagged(Em, t), st) {
      if HoldsInline(Top(st.stack)) {
        var inner := st.(stack := st.stack + [Em], text := st.text + [Enter(Em)]);
        TaggedIn(Em, st, t);
        assert ShowsIn(body, t, inner);
        ScanWrapped(Em, body, st, inner, AddText(inner, t));
      }
    }
  }

  lemma ShowsCode(s: string)
    ensures Shows(Wrap(Code, Escape(s)), Tagged(Code, Lit(s)))
  {
    hide Scan, Step, Escape;
    forall st: State ensures ShowsIn(Wrap(Code, Escape(s)), Tagged(Code, Lit(s)), st) {
      if HoldsInline(Top(st.stack)) {
        var inner := st.(stack := st.stack + [Code], text := st.text + [Enter(Code)]);
        TaggedIn(Code, st, Lit(s));
        ScanEscaped(s, inner);
        ScanWrapped(Code, Escape(s), st, inner, AddText(inner, Lit(s)));
      }
    }
  }

  lemma {:induction false} SilentIs(cs: seq<Inline>)
    ensures Silent(cs) <==> RenderChildren(cs) == ""
  {
    if cs != [] {
      SilentIs(cs[1..]);
      SilentInlineIs(cs[0]);
    }
  }

  lemma {:induction false} SilentInlineIs(e: Inline)
    ensures SilentInline(e) <==> RenderInline(e) == ""
  {
    hide Escape;
    match e
    case Text(s) => EscapeEmpty(s);
    case Link(cs, dest, _) => SilentIs(cs);
    case AutoLink(dest) => EscapeEmpty(StripScheme(dest));
    case OtherText(s) => EscapeEmpty(s);
    case OtherNode(cs) => SilentIs(cs);
    case _ =>
  }

  lemma ShowsUrl(text: string, t: Rich, url: string)
    requires Shows(text, t) && (text == "" ==> t == [])
    ensures Shows(WithUrl(text, url), t + UrlAfter(text == "", url))
  {
    hide Shows, Escape, Lit;
    var gap := if text == "" then "" else " ";
    ShowsChars(gap);
    ShowsChars("(");
    ShowsEscaped(url);
    ShowsChars(")");
    ShowsBoth(gap, Lit(gap), "(", Lit("("));
    ShowsBoth(gap + "(", Lit(gap) + Lit("("), Escape(url), Lit(url));
    ShowsBoth(gap + "(" + Escape(url), Lit(gap) + Lit("(") + Lit(url), ")", Lit(")"));
    ShowsBoth(text, t, gap + "(" + Escape(url) + ")", Lit(gap) + Lit("(") + Lit(url) + Lit(")"));
    assert t + [] == t;
    assert text + (gap + "(" + Escape(url) + ")") == (if text == "" then "" else text + " ") + "(" + Escape(url) + ")";
  }

  lemma {:induction false} InlineShows(e: Inline)
    ensures Shows(RenderInline(e), Content(e))
  {
    hide Shows, Escape, WithUrl, Lit, Tagged, UrlAfter;
    match e
    case Text(s) => ShowsEscaped(s);
    case LineBreak => ShowsChars(" ");
    case CodeSpan(s) => ShowsCode(s);
    case Emphasis(cs) =>
      ChildrenShow(cs);
      ShowsEm(RenderChildren(cs), Contents(cs));
    case Link(cs, dest, _) =>
      ChildrenShow(cs);
      SilentIs(cs);
      if Silent(cs) { SilentSaysNothing(cs); }
      ShowsUrl(RenderChildren(cs), Contents(cs), StripScheme(dest));
    case AutoLink(dest) => ShowsEscaped(StripScheme(dest));
    case OtherText(s) => ShowsEscaped(s);
    case OtherNode(cs) => ChildrenShow(cs);
  }

  lemma NoLit()
    ensures Lit("") == []
  {}

  lemma {:induction false} ChildrenShow(cs: seq<Inline>)
    ensures Shows(RenderChildren(cs), Contents(cs))
  {
    hide Shows, Lit;
    if cs == [] {
      NoLit();
      ShowsChars("");
    } else {
      InlineShows(cs[0]);
      ChildrenShow(cs[1..]);
      ShowsBoth(RenderInline(cs[0]), Content(cs[0]), RenderChildren(cs[1..]), Contents(cs[1..]));
    }
  }

  lemma {:induction false} SilentSaysNothing(cs: seq<Inline>)
    requires Silent(cs)
    ensures Contents(cs) == []
  {
    if cs != [] {
      SilentSaysNothing(cs[1..]);
      match cs[0]
      case Link(inner, _, _) => SilentSaysNothing(inner);
      case OtherNode(inner) => SilentSaysNothing(inner);
      case _ =>
    }
  }

  // ---- blocks parse as blocks ----

  /** The lines as they stand in the file. */
  function Source(lines: seq<string>): string {
    if lines == [] then "" else lines[0] + "\n" + Source(lines[1..])
  }

  lemma {:induction false} SourceAppend(a: seq<string>, b: seq<string>)
    ensures Source(a + b) == Source(a) + Source(b)
  {
    if a == [] {
      assert a + b == b;
    } else {
      assert (a + b)[1..] == a[1..] + b;
      SourceAppend(a[1..], b);
    }
  }

  ghost predicate InList(st: State) { st.stack == [Ul] || st.stack == [Ol] }

  /** In a list, the lines read as items. */
  ghost predicate ListsIn(lines: seq<string>, texts: seq<Rich>, st: State) {
    InList(st) ==>
      var r := Scan(Source(lines), st);
      r.Some? && r.value.(text := []) == st.(items := st.items + texts, text := [])
  }

  ghost predicate Lists(lines: seq<string>, texts: seq<Rich>) {
    forall st: State :: ListsIn(lines, texts, st)
  }

  /** At the top, the lines read as blocks. */
  ghost predicate YieldsIn(lines: seq<string>, outs: seq<Out>, st: State) {
    st.stack == [] ==>
      var r := Scan(Source(lines), st);
      r.Some? && r.value.stack == [] && r.value.done == st.done + outs
  }

  ghost predicate Yields(lines: seq<string>, outs: seq<Out>) {
    forall st: State :: YieldsIn(lines, outs, st)
  }

  lemma ListsNothing()
    ensures Lists([], [])
  {}

  lemma YieldsNothing()
    ensures Yields([], [])
  {}

  lemma ListsBoth(a: seq<string>, t: seq<Rich>, b: seq<string>, u: seq<Rich>)
    requires Lists(a, t) && Lists(b, u)
    ensures Lists(a + b, t + u)
  {
    hide Scan, Source;
    SourceAppend(a, b);
    forall st: State ensures ListsIn(a + b, t + u, st) {
      if InList(st) {
        assert ListsIn(a, t, st);
        var mid := Scan(Source(a), st).value;
        assert ListsIn(b, u, mid);
        ScanTwo(Source(a), Source(b), st, mid);
        assert st.items + t + u == st.items + (t + u);
      }
    }
  }

  lemma YieldsBoth(a: seq<string>, t: seq<Out>, b: seq<string>, u: seq<Out>)
    requires Yields(a, t) && Yields(b, u)
    ensures Yields(a + b, t + u)
  {
    hide Scan, Source;
    SourceAppend(a, b);
    forall st: State ensures YieldsIn(a + b, t + u, st) {
      if st.stack == [] {
        assert YieldsIn(a, t, st);
        var mid := Scan(Source(a), st).value;
        assert YieldsIn(b, u, mid);
        ScanTwo(Source(a), Source(b), st, mid);
        assert st.done + t + u == st.done + (t + u);
      }
    }
  }

  /** A line of its own between blanks. */
  lemma ScanLine(indent: string, body: string, st: State, after: State)
    requires !HoldsText(Top(st.stack)) && !HoldsText(Top(after.stack))
    requires (forall c | c in indent :: IsBlank(c)) && Scan(body, st) == Some(after)
    ensures Scan(Source([indent + body]), st) == Some(after)
  {
    hide Scan;
    ScanBlanks(indent, st);
    ScanTwo(indent, body + "\n", st, st);
    ScanTwo(body, "\n", st, after);
    ScanBlanks("\n", after);
    assert Source([indent + body]) == indent + (body + "\n") by { assert [indent + body][1..] == []; }
  }

  lemma YieldsPara(body: string, t: Rich)
    requires Shows(body, t)
    ensures Yields([BLOCK_INDENT + Wrap(P, body)], [Para(t)])
  {
    hide Scan, Source;
    forall st: State ensures YieldsIn([BLOCK_INDENT + Wrap(P, body)], [Para(t)], st) {
      if st.stack == [] {
        var inner := st.(stack := st.stack + [P], text := []);
        PushPop(st.stack, P);
        assert ShowsIn(body, t, inner);
        ScanWrapped(P, body, st, inner, AddText(inner, t));
        assert [] + t == t;
        ScanLine(BLOCK_INDENT, Wrap(P, body), st, st.(text := t, done := st.done + [Para(t)]));
      }
    }
  }

  lemma ListsItem(body: string, t: Rich)
    requires Shows(body, t)
    ensures Lists([ITEM_INDENT + Wrap(Li, body)], [t])
  {
    hide Scan, Source;
    forall st: State ensures ListsIn([ITEM_INDENT + Wrap(Li, body)], [t], st) {
      if InList(st) {
        var inner := st.(stack := st.stack + [Li], text := []);
        PushPop(st.stack, Li);
        assert ShowsIn(body, t, inner);
        ScanWrapped(Li, body, st, inner, AddText(inner, t));
        assert [] + t == t;
        ScanLine(ITEM_INDENT, Wrap(Li, body), st, st.(text := t, items := st.items + [t]));
      }
    }
  }

  lemma YieldsList(ordered: bool, lines: seq<string>, texts: seq<Rich>)
    requires Lists(lines, texts)
    ensures Yields([BLOCK_INDENT + OpenTag(ListTag(ordered))] + lines + [BLOCK_INDENT + CloseTag(ListTag(ordered))],
                   [Items(ordered, texts)])
  {
    hide Scan, Source;
    var tag := ListTag(ordered);
    var open, close := [BLOCK_INDENT + OpenTag(tag)], [BLOCK_INDENT + CloseTag(tag)];
    SourceAppend(open + lines, close);
    SourceAppend(open, lines);
    forall st: State ensures YieldsIn(open + lines + close, [Items(ordered, texts)], st) {
      if st.stack == [] {
        var inner := st.(stack := [tag], items := []);
        assert st.stack + [tag] == [tag];
        ScanOpen(tag, st);
        ScanLine(BLOCK_INDENT, OpenTag(tag), st, inner);
        ScanTwo(Source(open), Source(lines), st, inner);
        assert ListsIn(lines, texts, inner) && InList(inner) && [] + texts == texts;
        var mid := Scan(Source(lines), inner).value;
        ScanClose(tag, mid);
        ScanLine(BLOCK_INDENT, CloseTag(tag), mid, mid.(stack := [], done := st.done + [Items(ordered, texts)]));
        ScanTwo(Source(open) + Source(lines), Source(close), st, mid);
      }
    }
  }

  // ---- the printer ----

  /** The parts of an item joined by blanks read as what the parts say joined by blanks. */
  ghost predicate AllShow(rs: seq<string>, ts: seq<Rich>) {
    |rs| == |ts| && forall i | 0 <= i < |rs| :: Shows(rs[i], ts[i]) && rs[i] != ""
  }

  lemma {:induction false} JoinShows(rs: seq<string>, ts: seq<Rich>)
    requires AllShow(rs, ts)
    ensures Shows(Join(" ", rs), Join(Lit(" "), ts)) && (Join(" ", rs) == "" <==> ts == [])
  {
    hide Shows, Lit;
    if rs == [] {
      NoLit();
      ShowsChars("");
    } else if |rs| > 1 {
      assert forall i | 0 <= i < |rs[1..]| :: rs[1..][i] == rs[i + 1] && ts[1..][i] == ts[i + 1];
      JoinShows(rs[1..], ts[1..]);
      ShowsChars(" ");
      ShowsBoth(rs[0], ts[0], " ", Lit(" "));
      ShowsBoth(rs[0] + " ", ts[0] + Lit(" "), Join(" ", rs[1..]), Join(Lit(" "), ts[1..]));
    }
  }

  lemma {:induction false} PartsShow(bs: seq<Block>)
    ensures AllShow(NonEmpty(RenderParts(bs)), ContentParts(bs))
  {
    hide Shows, RenderChildren, Contents, CollapseCode, Wrap, Escape, Lit, Tagged;
    if bs != [] {
      PartsShow(bs[1..]);
      PartShows(bs[0]);
      hide NonEmpty, RenderPart, ContentPart;
      NonEmptyAppend(RenderPart(bs[0]), RenderParts(bs[1..]));
      AllShowBoth(NonEmpty(RenderPart(bs[0])), ContentPart(bs[0]), NonEmpty(RenderParts(bs[1..])), ContentParts(bs[1..]));
      hide AllShow;
    }
  }

  lemma AllShowBoth(a: seq<string>, t: seq<Rich>, b: seq<string>, u: seq<Rich>)
    requires AllShow(a, t) && AllShow(b, u)
    ensures AllShow(a + b, t + u)
  {
    hide Shows;
  }

  lemma PartShows(b: Block)
    ensures AllShow(NonEmpty(RenderPart(b)), ContentPart(b))
  {
    hide Shows, RenderChildren, Contents, CollapseCode, Escape, Lit, Tagged;
    match b
    case Paragraph(cs) => SilentIs(cs); ChildrenShow(cs);
    case Heading(cs) => SilentIs(cs); ChildrenShow(cs);
    case CodeBlock(raw, _) => ShowsCode(CollapseCode(raw));
    case _ =>
  }

  lemma {:induction false} NonEmptyAppend(a: seq<string>, b: seq<string>)
    ensures NonEmpty(a + b) == NonEmpty(a) + NonEmpty(b)
  {
    if a == [] {
      assert a + b == b;
    } else {
      assert (a + b)[1..] == a[1..] + b;
      NonEmptyAppend(a[1..], b);
    }
  }

  lemma {:induction false} ItemLists(i: Item)
    ensures Lists(RenderItem(i), ItemTexts(i))
  {
    hide Lists, Shows, RenderParts, ContentParts, NonEmpty, Join, Wrap;
    var rs, ts := NonEmpty(RenderParts(i.children)), ContentParts(i.children);
    PartsShow(i.children);
    JoinShows(rs, ts);
    ListsItem(Join(" ", rs), Join(Lit(" "), ts));
    ListsNothing();
    NestedLists(i.children);
    var own, texts := if ts == [] then [] else [ITEM_INDENT + Wrap(Li, Join(" ", rs))], if ts == [] then [] else [Join(Lit(" "), ts)];
    ListsBoth(own, texts, RenderNested(i.children), NestedTexts(i.children));
  }

  lemma {:induction false} NestedLists(bs: seq<Block>)
    ensures Lists(RenderNested(bs), NestedTexts(bs))
  {
    hide Lists;
    ListsNothing();
    if bs != [] {
      NestedLists(bs[1..]);
      if bs[0].List? { ItemsList(bs[0].items); }
      ListsBoth(if bs[0].List? then RenderItems(bs[0].items) else [], if bs[0].List? then ItemsTexts(bs[0].items) else [],
                RenderNested(bs[1..]), NestedTexts(bs[1..]));
    }
  }

  lemma {:induction false} ItemsList(items: seq<Item>)
    ensures Lists(RenderItems(items), ItemsTexts(items))
  {
    hide Lists;
    ListsNothing();
    if items != [] {
      ItemLists(items[0]);
      ItemsList(items[1..]);
      ListsBoth(RenderItem(items[0]), ItemTexts(items[0]), RenderItems(items[1..]), ItemsTexts(items[1..]));
    }
  }

  lemma {:induction false} BlockYields(b: Block)
    ensures Yields(RenderBlock(b), BlockOuts(b))
  {
    hide Yields, Shows, Wrap, Escape, CollapseCode, Lit, Tagged;
    YieldsNothing();
    match b
    case Paragraph(cs) =>
      ChildrenShow(cs);
      YieldsPara(RenderChildren(cs), Contents(cs));
    case Heading(cs) =>
      ChildrenShow(cs);
      ShowsEm(RenderChildren(cs), Contents(cs));
      YieldsPara(Wrap(Em, RenderChildren(cs)), Tagged(Em, Contents(cs)));
    case List(ordered, items) =>
      ItemsList(items);
      YieldsList(ordered, RenderItems(items), ItemsTexts(items));
    case Quote(bs) => BlocksYield(bs);
    case CodeBlock(raw, _) =>
      ShowsCode(CollapseCode(raw));
      YieldsPara(Wrap(Code, Escape(CollapseCode(raw))), Tagged(Code, Lit(CollapseCode(raw))));
    case Html(body) =>
      if body.Some? {
        EscapeEmpty(Strip(body.value));
        ShowsEscaped(Strip(body.value));
        YieldsPara(Escape(Strip(body.value)), Lit(Strip(body.value)));
      }
    case OtherBlock =>
  }

  lemma {:induction false} BlocksYield(bs: seq<Block>)
    ensures Yields(RenderBlocks(bs), Outs(bs))
  {
    hide Yields;
    YieldsNothing();
    if bs != [] {
      BlockYields(bs[0]);
      BlocksYield(bs[1..]);
      YieldsBoth(RenderBlock(bs[0]), BlockOuts(bs[0]), RenderBlocks(bs[1..]), Outs(bs[1..]));
    }
  }

  /** Whatever the tree, the printed description is well formed, uses only the allowed elements where they
      are allowed, and says what the tree says. */
  lemma PrintedParses(doc: seq<Block>)
    ensures Parse(Source(RenderBlocks(doc))) == Some(Outs(doc))
  {
    hide Scan;
    BlocksYield(doc);
    var st := State([], [], [], []);
    assert YieldsIn(RenderBlocks(doc), Outs(doc), st);
    assert st.done + Outs(doc) == Outs(doc);
  }
}
