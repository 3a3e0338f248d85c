/** The shape of a description: what is emphasised, and in which order texts stand. */
module ReleaseShape {
  import opened Options
  import opened Xml
  import opened AppStream

  lemma OneInline(e: Inline)
    ensures Contents([e]) == Content(e)
  {
    assert [e][1..] == [] && Content(e) + [] == Content(e);
  }

  lemma OneBlock(b: Block)
    ensures Outs([b]) == BlockOuts(b)
  {
    assert [b][1..] == [] && BlockOuts(b) + [] == BlockOuts(b);
  }

  /** What the printed lines of a tree read as. */
  function Reading(doc: seq<Block>): Option<seq<Out>> { Parse(Source(RenderBlocks(doc))) }

  /** A heading reads as an emphasised paragraph, plain text as it is. */
  lemma HeadingReads(text: string)
    ensures Reading([Heading([Text(text)])]) == Some([Para([Enter(Em)] + Lit(text) + [Leave(Em)])])
    ensures Reading([Paragraph([Text(text)])]) == Some([Para(Lit(text))])
  {
    hide Parse, Source, RenderBlocks, Lit, Outs;
    PrintedParses([Heading([Text(text)])]);
    PrintedParses([Paragraph([Text(text)])]);
    OneBlock(Heading([Text(text)]));
    OneBlock(Paragraph([Text(text)]));
    OneInline(Text(text));
  }

  /** Emphasis, code and a line break inside a paragraph, each where it stood. */
  lemma InlineReads(a: string, b: string, c: string)
    ensures Reading([Paragraph([Text(a), Emphasis([Text(b)]), LineBreak, CodeSpan(c)])])
         == Some([Para(Lit(a) + ([Enter(Em)] + Lit(b) + [Leave(Em)] + (Lit(" ") + ([Enter(Code)] + Lit(c) + [Leave(Code)]))))])
  {
    hide Parse, Source, RenderBlocks, Lit, Outs;
    var cs := [Text(a), Emphasis([Text(b)]), LineBreak, CodeSpan(c)];
    PrintedParses([Paragraph(cs)]);
    OneBlock(Paragraph(cs));
    OneInline(Text(b));
    OneInline(CodeSpan(c));
    FirstInline(LineBreak, [CodeSpan(c)]);
    FirstInline(Emphasis([Text(b)]), [LineBreak, CodeSpan(c)]);
    FirstInline(Text(a), [Emphasis([Text(b)]), LineBreak, CodeSpan(c)]);
    assert [LineBreak] + [CodeSpan(c)] == [LineBreak, CodeSpan(c)];
    assert [Emphasis([Text(b)])] + [LineBreak, CodeSpan(c)] == [Emphasis([Text(b)]), LineBreak, CodeSpan(c)];
    assert [Text(a)] + [Emphasis([Text(b)]), LineBreak, CodeSpan(c)] == cs;
  }

  lemma FirstInline(e: Inline, cs: seq<Inline>)
    ensures Contents([e] + cs) == Content(e) + Contents(cs)
  {
    assert ([e] + cs)[1..] == cs;
  }

  /** A link reads as its text and then its address in parentheses, without its scheme. */
  lemma LinkReads(text: string, dest: Option<string>, title: Option<string>)
    requires text != "" && StripScheme(dest) != ""
    ensures Reading([Paragraph([Link([Text(text)], dest, title)])])
         == Some([Para(Lit(text) + (Lit(" ") + Lit("(") + Lit(StripScheme(dest)) + Lit(")")))])
  {
    hide Parse, Source, RenderBlocks, Lit, Outs, StripScheme;
    var link := Link([Text(text)], dest, title);
    PrintedParses([Paragraph([link])]);
    OneBlock(Paragraph([link]));
    OneInline(link);
    OneInline(Text(text));
    assert [Text(text)][0] == Text(text) && !Silent([Text(text)]);
  }

  /** Documents read one after another, and a quote as what it holds. */
  lemma {:induction false} OutsAppend(a: seq<Block>, b: seq<Block>)
    ensures Outs(a + b) == Outs(a) + Outs(b)
  {
    if a == [] {
      assert a + b == b;
    } else {
      assert (a + b)[1..] == a[1..] + b;
      OutsAppend(a[1..], b);
    }
  }

  lemma QuoteReads(before: seq<Block>, quoted: seq<Block>, behind: seq<Block>)
    ensures Reading(before + [Quote(quoted)] + behind) == Reading(before + quoted + behind)
  {
    hide Parse, Source, RenderBlocks;
    PrintedParses(before + [Quote(quoted)] + behind);
    PrintedParses(before + quoted + behind);
    OutsAppend(before + [Quote(quoted)], behind);
    OutsAppend(before, [Quote(quoted)]);
    OutsAppend(before + quoted, behind);
    OutsAppend(before, quoted);
    OneBlock(Quote(quoted));
  }

  /** An item's own texts come first, with blanks between them, then the items of the lists between them, in
      the outer list; the inner list's kind is lost. */
  lemma ItemReads(a: string, b: string, c: string, ordered: bool, inner: bool)
    requires a != "" && c != "" && b != ""
    ensures var nested := List(inner, [Item([Paragraph([Text(b)])])]);
      Reading([List(ordered, [Item([Paragraph([Text(a)]), nested, Paragraph([Text(c)])])])])
      == Some([Items(ordered, [Lit(a) + Lit(" ") + Lit(c), Lit(b)])])
  {
    hide Parse, Source, RenderBlocks, Lit, Outs;
    var nested := List(inner, [Item([Paragraph([Text(b)])])]);
    var item := Item([Paragraph([Text(a)]), nested, Paragraph([Text(c)])]);
    PrintedParses([List(ordered, [item])]);
    OneBlock(List(ordered, [item]));
    PlainItem(b);
    OneItem(Item([Paragraph([Text(b)])]));
    OneItem(item);
    TextPart(a);
    TextPart(c);
    Three(Paragraph([Text(a)]), nested, Paragraph([Text(c)]));
    JoinTwo(Lit(" "), Lit(a), Lit(c));
    assert [Lit(a)] + [Lit(c)] == [Lit(a), Lit(c)];
    TwoTexts(item, [Lit(a), Lit(c)], [Lit(b)]);
    assert [Lit(a) + Lit(" ") + Lit(c)] + [Lit(b)] == [Lit(a) + Lit(" ") + Lit(c), Lit(b)];
  }

  lemma JoinTwo(sep: Rich, x: Rich, y: Rich)
    ensures Join(sep, [x, y]) == x + sep + y
  {
    assert [x, y][1..] == [y];
  }

  lemma TwoTexts(item: Item, parts: seq<Rich>, nested: seq<Rich>)
    requires ContentParts(item.children) == parts && NestedTexts(item.children) == nested && parts != []
    ensures ItemTexts(item) == [Join(Lit(" "), parts)] + nested
  {}

  lemma TextPart(a: string)
    requires a != ""
    ensures ContentPart(Paragraph([Text(a)])) == [Lit(a)]
  {
    OneInline(Text(a));
    assert [Text(a)][0] == Text(a) && !Silent([Text(a)]);
  }

  lemma OneItem(i: Item)
    ensures ItemsTexts([i]) == ItemTexts(i)
  {
    assert [i][1..] == [] && ItemTexts(i) + [] == ItemTexts(i);
  }

  lemma PlainItem(b: string)
    requires b != ""
    ensures ItemTexts(Item([Paragraph([Text(b)])])) == [Lit(b)]
  {
    var p := Paragraph([Text(b)]);
    TextPart(b);
    assert [p][1..] == [];
    assert ContentParts([p]) == ContentPart(p) + ContentParts([]) && NestedTexts([p]) == [] + NestedTexts([]);
  }

  lemma Three(a: Block, b: Block, c: Block)
    requires b.List? && !a.List? && !c.List?
    ensures ContentParts([a, b, c]) == ContentPart(a) + ContentPart(c) && NestedTexts([a, b, c]) == ItemsTexts(b.items)
  {
    var none: seq<Block> := [];
    FirstChild(a, [b, c]);
    FirstChild(b, [c]);
    FirstChild(c, none);
    hide ContentPart, ItemsTexts;
    assert [a] + [b, c] == [a, b, c] && [b] + [c] == [b, c] && [c] + none == [c];
    assert ContentParts([c]) == ContentPart(c) && NestedTexts([c]) == [];
    NoPart(b);
  }

  lemma NoPart(b: Block)
    requires b.List?
    ensures ContentPart(b) == []
  {}

  lemma FirstChild(b: Block, bs: seq<Block>)
    ensures ContentParts([b] + bs) == ContentPart(b) + ContentParts(bs)
    ensures NestedTexts([b] + bs) == (if b.List? then ItemsTexts(b.items) else []) + NestedTexts(bs)
    ensures ContentParts([]) == [] && NestedTexts([]) == []
  {
    assert ([b] + bs)[1..] == bs;
  }
}
