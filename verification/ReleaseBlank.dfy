/** Release notes with nothing to show: when the printer fails on them, when it prints a list without items,
    and when it prints a description in which there is nothing to see. */
module ReleaseBlank {
  import opened Options
  import opened Xml
  import opened AppStream
  import opened ReleaseNotes
  import opened ReleaseUrls
  import opened ReleaseText

  // ---- blank text ----

  /** White space only. */
  predicate Blank(s: string) { forall c | c in s :: IsSpace(c) }

  predicate BlankMaybe(s: Option<string>) { s.None? || Blank(s.value) }

  lemma {:induction false} BlankInk(s: string)
    ensures InkOf(s) == multiset{} <==> Blank(s)
  {
    if s != "" {
      BlankInk(s[1..]);
      assert s == [s[0]] + s[1..];
      NoSum(if IsSpace(s[0]) then multiset{} else multiset{s[0]}, InkOf(s[1..]));
    }
  }

  lemma BlankMaybeInk(s: Option<string>)
    ensures InkOfMaybe(s) == multiset{} <==> BlankMaybe(s)
  {
    BlankInk(if s.Some? then s.value else "");
  }

  lemma {:induction false} RStripEnds(s: string)
    ensures RStrip(s) != "" ==> !IsSpace(RStrip(s)[|RStrip(s)| - 1])
  {
    if s != "" && IsSpace(s[|s| - 1]) { RStripEnds(s[..|s| - 1]); }
  }

  lemma InkAt(s: string, i: nat)
    requires i < |s| && !IsSpace(s[i])
    ensures InkOf(s) != multiset{}
  {
    BlankInk(s);
    assert s[i] in s;
  }

  /** What stripping leaves ends in a visible character. */
  lemma StripBlank(s: string)
    ensures Strip(s) == "" <==> Blank(s)
  {
    RStripEnds(LStrip(s));
    InkStrip(s);
    BlankInk(s);
    if Strip(s) != "" { InkAt(Strip(s), |Strip(s)| - 1); }
  }

  /** Stripping cuts off white space at both ends, all of it and nothing else. */
  lemma StripIs(s: string) returns (i: nat, j: nat)
    ensures i <= j <= |s| && Strip(s) == s[i..j] && Blank(s[..i]) && Blank(s[j..])
    ensures i < j ==> !IsSpace(s[i]) && !IsSpace(s[j - 1])
  {
    i := LStripIs(s);
    var n := RStripIs(LStrip(s));
    j := i + n;
    assert s[i..][n..] == s[j..];
  }

  lemma {:induction false} LStripIs(s: string) returns (i: nat)
    ensures i <= |s| && LStrip(s) == s[i..] && Blank(s[..i]) && (i < |s| ==> !IsSpace(s[i]))
  {
    if s != "" && IsSpace(s[0]) {
      i := LStripIs(s[1..]);
      assert s[..i + 1] == [s[0]] + s[1..][..i];
      i := i + 1;
    } else {
      i := 0;
    }
  }

  lemma {:induction false} RStripIs(s: string) returns (n: nat)
    ensures n <= |s| && RStrip(s) == s[..n] && Blank(s[n..]) && (0 < n ==> !IsSpace(s[n - 1]))
  {
    if s != "" && IsSpace(s[|s| - 1]) {
      n := RStripIs(s[..|s| - 1]);
      assert s[n..] == s[..|s| - 1][n..] + [s[|s| - 1]];
    } else {
      n := |s|;
    }
  }

  /** So does what is shown of an address. */
  lemma UrlBlank(dest: Option<string>)
    ensures InkOf(StripScheme(dest)) == multiset{} <==> StripScheme(dest) == ""
  {
    var s := Dest(dest);
    RStripEnds(LStrip(if dest.Some? then dest.value else ""));
    hide InkOf, SchemeSize, RStrip, LStrip;
    var url := StripScheme(dest);
    assert url == s[SchemeSize(s)..];
    if url != "" { InkAt(url, |url| - 1); } else { NoInk(); }
  }

  lemma {:induction false} NotBlankInk(lines: seq<string>)
    ensures NotBlank(lines) != [] ==> InkOfAll(NotBlank(lines)) != multiset{}
  {
    if lines != [] {
      NotBlankInk(lines[1..]);
      StripBlank(lines[0]);
      BlankInk(lines[0]);
      var rest := NotBlank(lines[1..]);
      if Strip(lines[0]) != "" {
        assert NotBlank(lines)[1..] == rest;
        NoSum(InkOf(lines[0]), InkOfAll(rest));
      } else {
        assert NotBlank(lines) == rest;
      }
    }
  }

  /** Only code without a visible character collapses to nothing. */
  lemma CollapseBlank(raw: Option<string>)
    ensures CollapseCode(raw) == "" <==> BlankMaybe(raw)
  {
    var lines := NotBlank(SplitLines(if raw.Some? then raw.value else ""));
    NotBlankInk(SplitLines(if raw.Some? then raw.value else ""));
    InkJoinLines(lines);
    InkCollapse(raw);
    BlankMaybeInk(raw);
    NoInk();
  }

  // ---- when the printer fails ----

  /** A block the printer makes no line of. */
  predicate Unprinted(b: Block) {
    match b
    case CodeBlock(raw, _) => BlankMaybe(raw)
    case Html(body) => BlankMaybe(body)
    case Quote(bs) => AllUnprinted(bs)
    case OtherBlock => true
    case _ => false
  }

  predicate AllUnprinted(bs: seq<Block>) { bs == [] || (Unprinted(bs[0]) && AllUnprinted(bs[1..])) }

  lemma {:induction false} UnprintedIs(b: Block)
    ensures RenderBlock(b) == [] <==> Unprinted(b)
  {
    hide BlankMaybe, CollapseCode, Strip, Escape;
    match b
    case Quote(bs) => FailsExactly(bs);
    case CodeBlock(raw, _) => CollapseBlank(raw);
    case Html(body) => HtmlUnprinted(body);
    case _ =>
  }

  lemma HtmlUnprinted(body: Option<string>)
    ensures RenderBlock(Html(body)) == [] <==> BlankMaybe(body)
  {
    if body.Some? {
      StripBlank(body.value);
      EscapeEmpty(Strip(body.value));
    }
  }

  /** No line is printed, and so the printer fails, exactly on notes of nothing but blank code, blank HTML and
      other blocks, in quotes or not. An empty paragraph or a list is enough for it not to fail. */
  lemma {:induction false} FailsExactly(doc: seq<Block>)
    ensures RenderBlocks(doc) == [] <==> AllUnprinted(doc)
    ensures Outs(doc) == [] <==> AllUnprinted(doc)
  {
    hide RenderBlock, Unprinted, BlockOuts;
    NothingPrinted(doc);
    if doc != [] {
      UnprintedIs(doc[0]);
      FailsExactly(doc[1..]);
    }
  }

  // ---- when a list has no items ----

  /** A child of a list item that gives no item any text. */
  predicate Textless(b: Block) {
    match b
    case Paragraph(cs) => Silent(cs)
    case Heading(cs) => Silent(cs)
    case CodeBlock(raw, _) => BlankMaybe(raw)
    case List(_, items) => ItemsTextless(items)
    case _ => true
  }

  predicate AllTextless(bs: seq<Block>) { bs == [] || (Textless(bs[0]) && AllTextless(bs[1..])) }

  predicate ItemsTextless(items: seq<Item>) {
    items == [] || (AllTextless(items[0].children) && ItemsTextless(items[1..]))
  }

  lemma {:induction false} ChildrenTextless(bs: seq<Block>)
    ensures ContentParts(bs) == [] && NestedTexts(bs) == [] <==> AllTextless(bs)
  {
    hide CollapseCode, BlankMaybe, Contents;
    if bs != [] {
      ChildrenTextless(bs[1..]);
      match bs[0]
      case CodeBlock(raw, _) => CollapseBlank(raw);
      case List(_, items) => ItemlessExactly(items);
      case _ =>
    }
  }

  /** A list is printed without items exactly when no child at any depth is a paragraph or a heading that is not
      silent, or code that is not blank. */
  lemma {:induction false} ItemlessExactly(items: seq<Item>)
    ensures ItemsTexts(items) == [] <==> ItemsTextless(items)
  {
    hide ContentParts, NestedTexts, AllTextless;
    if items != [] {
      ChildrenTextless(items[0].children);
      ItemlessExactly(items[1..]);
    }
  }

  predicate Itemless(out: Out) { out.Items? && out.texts == [] }

  /** A list that is no part of another, and that no item has text in. */
  predicate HasItemless(b: Block) {
    match b
    case List(_, items) => ItemsTextless(items)
    case Quote(bs) => AnyItemless(bs)
    case _ => false
  }

  predicate AnyItemless(bs: seq<Block>) { bs != [] && (HasItemless(bs[0]) || AnyItemless(bs[1..])) }

  lemma {:induction false} BlockItemless(b: Block)
    ensures (exists out | out in BlockOuts(b) :: Itemless(out)) <==> HasItemless(b)
  {
    hide ItemsTexts, ItemsTextless, Contents, CollapseCode, Strip, Lit;
    match b
    case List(ordered, items) =>
      ItemlessExactly(items);
      assert Items(ordered, ItemsTexts(items)) in BlockOuts(b);
    case Quote(bs) => EmptyListExactly(bs);
    case _ =>
  }

  /** So the description has a list without items exactly for such a list in the notes. */
  lemma {:induction false} EmptyListExactly(doc: seq<Block>)
    ensures (exists out | out in Outs(doc) :: Itemless(out)) <==> AnyItemless(doc)
  {
    hide BlockOuts, HasItemless, Itemless;
    if doc != [] {
      BlockItemless(doc[0]);
      EmptyListExactly(doc[1..]);
      assert forall out :: out in Outs(doc) <==> out in BlockOuts(doc[0]) || out in Outs(doc[1..]);
    }
  }

  // ---- when there is nothing to see ----

  /** An inline element of which no visible character is printed. */
  predicate Faint(e: Inline) {
    match e
    case Text(s) => Blank(s)
    case LineBreak => true
    case CodeSpan(s) => Blank(s)
    case Emphasis(cs) => AllFaint(cs)
    case Link(cs, dest, _) => AllFaint(cs) && StripScheme(dest) == ""
    case AutoLink(dest) => StripScheme(dest) == ""
    case OtherText(s) => Blank(s)
    case OtherNode(cs) => AllFaint(cs)
  }

  predicate AllFaint(cs: seq<Inline>) { cs == [] || (Faint(cs[0]) && AllFaint(cs[1..])) }

  predicate FaintBlock(b: Block) {
    match b
    case Paragraph(cs) => AllFaint(cs)
    case Heading(cs) => AllFaint(cs)
    case List(_, items) => FaintItems(items)
    case Quote(bs) => FaintBlocks(bs)
    case CodeBlock(raw, _) => BlankMaybe(raw)
    case Html(body) => BlankMaybe(body)
    case OtherBlock => true
  }

  predicate FaintBlocks(bs: seq<Block>) { bs == [] || (FaintBlock(bs[0]) && FaintBlocks(bs[1..])) }

  /** Quotes and HTML directly in an item are not printed, whatever they hold. */
  predicate FaintChildren(bs: seq<Block>) {
    bs == [] || ((bs[0].Quote? || bs[0].Html? || FaintBlock(bs[0])) && FaintChildren(bs[1..]))
  }

  predicate FaintItems(items: seq<Item>) {
    items == [] || (FaintChildren(items[0].children) && FaintItems(items[1..]))
  }

  lemma LitBlank(s: string)
    ensures InkIn(Lit(s)) == multiset{} <==> Blank(s)
  {
    InkInLit(s);
    BlankInk(s);
  }

  lemma {:induction false} InlineFaint(e: Inline)
    ensures InkIn(Content(e)) == multiset{} <==> Faint(e)
  {
    hide InkIn, InkOf, Lit, StripScheme, Blank, Contents, AllFaint;
    match e
    case Text(s) => LitBlank(s);
    case LineBreak =>
      NoInk();
      InkInLit(" ");
    case CodeSpan(s) =>
      InkInTagged(Code, Lit(s));
      LitBlank(s);
    case Emphasis(cs) =>
      InkInTagged(Em, Contents(cs));
      InlinesFaint(cs);
    case Link(cs, dest, _) =>
      InlinesFaint(cs);
      LinkFaint(Contents(cs), Silent(cs), dest);
    case AutoLink(dest) =>
      InkInLit(StripScheme(dest));
      UrlBlank(dest);
    case OtherText(s) => LitBlank(s);
    case OtherNode(cs) => InlinesFaint(cs);
  }

  lemma LinkFaint(text: Rich, silent: bool, dest: Option<string>)
    ensures InkIn(text + UrlAfter(silent, StripScheme(dest))) == multiset{} <==> InkIn(text) == multiset{} && StripScheme(dest) == ""
  {
    hide InkIn, InkOf, UrlAfter, StripScheme;
    var url := StripScheme(dest);
    InkUrl(silent, url);
    UrlBlank(dest);
    InkInAppend(text, UrlAfter(silent, url));
    NoSum(InkIn(text), InkIn(UrlAfter(silent, url)));
    NoSum(InkOf(url), if url == "" then multiset{} else multiset{'(', ')'});
  }

  lemma {:induction false} InlinesFaint(cs: seq<Inline>)
    ensures InkIn(Contents(cs)) == multiset{} <==> AllFaint(cs)
  {
    hide InkIn, Content, Faint;
    if cs == [] {
      InkOfNone();
    } else {
      InlineFaint(cs[0]);
      InlinesFaint(cs[1..]);
      InkInAppend(Content(cs[0]), Contents(cs[1..]));
      NoSum(InkIn(Content(cs[0])), InkIn(Contents(cs[1..])));
    }
  }

  lemma CodeFaint(raw: Option<string>)
    ensures var code := CollapseCode(raw); code == "" || InkIn(Tagged(Code, Lit(code))) == multiset{} <==> BlankMaybe(raw)
  {
    hide InkIn, InkOf, CollapseCode, Lit, BlankMaybe;
    var code := CollapseCode(raw);
    CollapseBlank(raw);
    InkCollapse(raw);
    BlankMaybeInk(raw);
    InkInTagged(Code, Lit(code));
    InkInLit(code);
  }

  lemma {:induction false} ChildFaint(b: Block)
    ensures InkInAll(ContentPart(b)) == multiset{} && (b.List? ==> InkInAll(ItemsTexts(b.items)) == multiset{})
      <==> b.Quote? || b.Html? || FaintBlock(b)
  {
    hide InkIn, InkInAll, ItemsTexts, FaintItems, Contents, AllFaint, CollapseCode, BlankMaybe, Lit;
    NoneInAll();
    match b
    case Paragraph(cs) => PartFaint(cs);
    case Heading(cs) => PartFaint(cs);
    case List(_, items) => ItemsFaint(items);
    case CodeBlock(raw, _) =>
      InkInOne(Tagged(Code, Lit(CollapseCode(raw))));
      CodeFaint(raw);
    case _ =>
  }

  lemma PartFaint(cs: seq<Inline>)
    ensures InkInAll(if Silent(cs) then [] else [Contents(cs)]) == multiset{} <==> AllFaint(cs)
  {
    hide InkIn, InkInAll, AllFaint;
    InlinesFaint(cs);
    InkInOne(Contents(cs));
    NoneInAll();
    if Silent(cs) {
      SilentSaysNothing(cs);
      InkOfNone();
    }
  }

  lemma {:induction false} ChildrenFaint(bs: seq<Block>)
    ensures InkInAll(ContentParts(bs)) == multiset{} && InkInAll(NestedTexts(bs)) == multiset{} <==> FaintChildren(bs)
  {
    hide InkInAll, ContentPart, ItemsTexts, FaintBlock;
    NoneInAll();
    if bs != [] {
      var nested := if bs[0].List? then ItemsTexts(bs[0].items) else [];
      ChildFaint(bs[0]);
      ChildrenFaint(bs[1..]);
      InkInAllAppend(ContentPart(bs[0]), ContentParts(bs[1..]));
      InkInAllAppend(nested, NestedTexts(bs[1..]));
      NoSum(InkInAll(ContentPart(bs[0])), InkInAll(ContentParts(bs[1..])));
      NoSum(InkInAll(nested), InkInAll(NestedTexts(bs[1..])));
    }
  }

  lemma ItemFaint(i: Item)
    ensures InkInAll(ItemTexts(i)) == multiset{} <==> FaintChildren(i.children)
  {
    hide InkInAll, InkIn, Join, FaintChildren;
    var parts := ContentParts(i.children);
    var own := if parts == [] then [] else [Join(Lit(" "), parts)];
    ChildrenFaint(i.children);
    NoneInAll();
    InkJoin(parts);
    InkInOne(Join(Lit(" "), parts));
    InkInAllAppend(own, NestedTexts(i.children));
    NoSum(InkInAll(own), InkInAll(NestedTexts(i.children)));
  }

  lemma {:induction false} ItemsFaint(items: seq<Item>)
    ensures InkInAll(ItemsTexts(items)) == multiset{} <==> FaintItems(items)
  {
    hide InkInAll, ItemTexts, FaintChildren;
    NoneInAll();
    if items != [] {
      ItemFaint(items[0]);
      ItemsFaint(items[1..]);
      InkInAllAppend(ItemTexts(items[0]), ItemsTexts(items[1..]));
      NoSum(InkInAll(ItemTexts(items[0])), InkInAll(ItemsTexts(items[1..])));
    }
  }

  lemma {:induction false} BlockFaint(b: Block)
    ensures InkOfOuts(BlockOuts(b)) == multiset{} <==> FaintBlock(b)
  {
    hide InkIn, InkInAll, InkOfOuts, ItemsTexts, Contents, CollapseCode, Strip, Lit, AllFaint, FaintItems, BlankMaybe;
    InkOfNone();
    match b
    case Paragraph(cs) =>
      InlinesFaint(cs);
      InkOfOne(Para(Contents(cs)));
    case Heading(cs) =>
      InlinesFaint(cs);
      InkInTagged(Em, Contents(cs));
      InkOfOne(Para(Tagged(Em, Contents(cs))));
    case List(ordered, items) =>
      ItemsFaint(items);
      InkOfOne(Items(ordered, ItemsTexts(items)));
    case Quote(bs) => NothingSeen(bs);
    case CodeBlock(raw, _) =>
      CodeFaint(raw);
      InkOfOne(Para(Tagged(Code, Lit(CollapseCode(raw)))));
    case Html(body) => HtmlFaint(body);
    case OtherBlock =>
  }

  lemma HtmlFaint(body: Option<string>)
    ensures InkOfOuts(BlockOuts(Html(body))) == multiset{} <==> BlankMaybe(body)
  {
    hide InkOf, InkIn, InkOfOuts, Strip, Lit;
    InkOfNone();
    BlankMaybeInk(body);
    if body.Some? {
      InkStrip(body.value);
      InkInLit(Strip(body.value));
      InkOfOne(Para(Lit(Strip(body.value))));
    }
  }

  /** There is no visible character in the description exactly when there is none in the notes, but for what
      is not printed: quotes and HTML in items, schemes, titles and what stands behind a fence. */
  lemma {:induction false} NothingSeen(doc: seq<Block>)
    ensures InkOfOuts(Outs(doc)) == multiset{} <==> FaintBlocks(doc)
  {
    hide InkOfOuts, BlockOuts, FaintBlock;
    InkOfNone();
    if doc != [] {
      BlockFaint(doc[0]);
      NothingSeen(doc[1..]);
      InkOutsAppend(BlockOuts(doc[0]), Outs(doc[1..]));
      NoSum(InkOfOuts(BlockOuts(doc[0])), InkOfOuts(Outs(doc[1..])));
    }
  }

  /** The check for notes without text misses a description with nothing to see in it exactly
      when all blocks are faint and one is a paragraph, a heading or a list. */
  lemma BlankDescription(doc: seq<Block>)
    ensures RenderBlocks(doc) != [] && InkOfOuts(Outs(doc)) == multiset{} <==> FaintBlocks(doc) && HasFrame(doc)
  {
    hide RenderBlocks, InkOfOuts, Outs;
    FailsExactly(doc);
    NothingSeen(doc);
    if FaintBlocks(doc) { FramesPrint(doc); }
  }

  /** A paragraph, a heading or a list, in quotes or not: printed with its tags even when it is empty. */
  predicate Framed(b: Block) { b.Paragraph? || b.Heading? || b.List? || (b.Quote? && HasFrame(b.blocks)) }

  predicate HasFrame(bs: seq<Block>) { bs != [] && (Framed(bs[0]) || HasFrame(bs[1..])) }

  lemma {:induction false} FramesPrint(bs: seq<Block>)
    requires FaintBlocks(bs)
    ensures HasFrame(bs) <==> !AllUnprinted(bs)
  {
    if bs != [] {
      if bs[0].Quote? { FramesPrint(bs[0].blocks); }
      FramesPrint(bs[1..]);
    }
  }

  /** An empty paragraph, and a list whose only item is a quote: both are printed, and there is nothing to see. */
  lemma BlankExamples(text: string, ordered: bool)
    ensures forall doc | doc in [[Paragraph([])], [List(ordered, [Item([Quote([Paragraph([Text(text)])])])])]] ::
      RenderBlocks(doc) != [] && InkOfOuts(Outs(doc)) == multiset{}
  {
    var quote := Quote([Paragraph([Text(text)])]);
    var list := List(ordered, [Item([quote])]);
    QuoteFaint(quote, Item([quote]));
    OnlyFaint(list);
    OnlyFaint(Paragraph([]));
  }

  lemma QuoteFaint(quote: Block, item: Item)
    requires quote.Quote? && item == Item([quote])
    ensures FaintItems([item])
  {
    assert [item][1..] == [] && item.children[1..] == [];
    assert FaintChildren(item.children[1..]);
    assert FaintChildren(item.children);
    assert FaintItems([item][1..]);
  }

  lemma OnlyFaint(b: Block)
    requires FaintBlock(b) && Framed(b)
    ensures RenderBlocks([b]) != [] && InkOfOuts(Outs([b])) == multiset{}
  {
    hide RenderBlocks, InkOfOuts, Outs, FaintBlock, Framed;
    assert [b][1..] == [];
    BlankDescription([b]);
  }
}
