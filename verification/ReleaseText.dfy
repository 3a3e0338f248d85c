/** What the printer keeps of the notes' text: all but some blocks inside list items, the schemes of links, their
    titles, and what stands behind a code fence. */
module ReleaseText {
  import opened Options
  import opened Xml
  import opened AppStream
  import opened ReleaseUrls

  type Ink = multiset<char>

  /** The visible characters of a text. */
  function InkOf(s: string): Ink {
    if s == "" then multiset{} else (if IsSpace(s[0]) then multiset{} else multiset{s[0]}) + InkOf(s[1..])
  }

  lemma {:induction false} InkAppend(a: string, b: string)
    ensures InkOf(a + b) == InkOf(a) + InkOf(b)
  {
    if a == "" {
      assert a + b == b;
    } else {
      assert (a + b)[1..] == a[1..] + b;
      InkAppend(a[1..], b);
    }
  }

  function InkOfMaybe(s: Option<string>): Ink { InkOf(if s.Some? then s.value else "") }

  /** The same for text with inline markup. */
  function InkIn(r: Rich): Ink {
    if r == [] then multiset{}
    else (if r[0].Letter? && !IsSpace(r[0].c) then multiset{r[0].c} else multiset{}) + InkIn(r[1..])
  }

  lemma {:induction false} InkInAppend(a: Rich, b: Rich)
    ensures InkIn(a + b) == InkIn(a) + InkIn(b)
  {
    if a == [] {
      assert a + b == b;
    } else {
      assert (a + b)[1..] == a[1..] + b;
      InkInAppend(a[1..], b);
    }
  }

  lemma {:induction false} InkInLit(s: string)
    ensures InkIn(Lit(s)) == InkOf(s)
  {
    if s != "" {
      assert Lit(s)[1..] == Lit(s[1..]);
      InkInLit(s[1..]);
    }
  }

  lemma InkInTagged(t: Tag, r: Rich)
    ensures InkIn(Tagged(t, r)) == InkIn(r)
  {
    InkInAppend([Enter(t)] + r, [Leave(t)]);
    InkInAppend([Enter(t)], r);
    assert [Enter(t)][1..] == [] && [Leave(t)][1..] == [];
  }

  function InkInAll(parts: seq<Rich>): Ink {
    if parts == [] then multiset{} else InkIn(parts[0]) + InkInAll(parts[1..])
  }

  lemma {:induction false} InkInAllAppend(a: seq<Rich>, b: seq<Rich>)
    ensures InkInAll(a + b) == InkInAll(a) + InkInAll(b)
  {
    if a == [] {
      assert a + b == b;
    } else {
      assert (a + b)[1..] == a[1..] + b;
      InkInAllAppend(a[1..], b);
    }
  }

  lemma {:induction false} InkJoin(parts: seq<Rich>)
    ensures InkIn(Join(Lit(" "), parts)) == InkInAll(parts)
  {
    if |parts| == 1 {
      assert InkInAll(parts[1..]) == multiset{};
    } else if |parts| > 1 {
      InkJoin(parts[1..]);
      InkBlank(parts[0], Join(Lit(" "), parts[1..]));
    }
  }

  lemma InkBlank(a: Rich, b: Rich)
    ensures InkIn(a + Lit(" ") + b) == InkIn(a) + InkIn(b)
  {
    InkInAppend(a + Lit(" "), b);
    InkInAppend(a, Lit(" "));
    InkInLit(" ");
    assert InkOf(" ") == multiset{};
  }

  function InkOfAll(lines: seq<string>): Ink {
    if lines == [] then multiset{} else InkOf(lines[0]) + InkOfAll(lines[1..])
  }

  lemma {:induction false} InkJoinLines(lines: seq<string>)
    ensures InkOf(Join(" ", lines)) == InkOfAll(lines)
  {
    if |lines| == 1 {
      assert InkOfAll(lines[1..]) == multiset{};
    } else if |lines| > 1 {
      InkJoinLines(lines[1..]);
      InkBlankLine(lines[0], Join(" ", lines[1..]));
    }
  }

  lemma InkBlankLine(a: string, b: string)
    ensures InkOf(a + " " + b) == InkOf(a) + InkOf(b)
  {
    InkAppend(a + " ", b);
    InkAppend(a, " ");
    assert InkOf(" ") == multiset{};
  }

  // ---- stripping and collapsing lose no ink ----

  lemma {:induction false} InkLStrip(s: string)
    ensures InkOf(LStrip(s)) == InkOf(s)
  {
    if s != "" && IsSpace(s[0]) { InkLStrip(s[1..]); }
  }

  lemma {:induction false} InkRStrip(s: string)
    ensures InkOf(RStrip(s)) == InkOf(s)
  {
    if s != "" && IsSpace(s[|s| - 1]) {
      InkRStrip(s[..|s| - 1]);
      assert s == s[..|s| - 1] + [s[|s| - 1]];
      InkAppend(s[..|s| - 1], [s[|s| - 1]]);
      assert [s[|s| - 1]][1..] == "";
    }
  }

  lemma InkStrip(s: string)
    ensures InkOf(Strip(s)) == InkOf(s)
  {
    InkLStrip(s);
    InkRStrip(LStrip(s));
  }

  lemma {:induction false} InkNotBlank(lines: seq<string>)
    ensures InkOfAll(NotBlank(lines)) == InkOfAll(lines)
  {
    if lines != [] {
      InkNotBlank(lines[1..]);
      InkStrip(lines[0]);
      var rest := NotBlank(lines[1..]);
      if Strip(lines[0]) == "" {
        assert NotBlank(lines) == rest && InkOf(lines[0]) == multiset{};
      } else {
        assert NotBlank(lines)[1..] == rest;
      }
    }
  }

  lemma BreakHasNoInk(s: string)
    requires s != "" && IsBreak(s[0])
    ensures InkOf(s) == InkOf(s[BreakSize(s)..])
  {}

  lemma {:induction false} InkSplitLines(s: string)
    ensures InkOfAll(SplitLines(s)) == InkOf(s)
    decreases |s|
  {
    if s != "" {
      var i := FirstBreak(s);
      var next := s[i + BreakSize(s[i..])..];
      InkSplitLines(next);
      InkOfFirst(s, i);
      assert SplitLines(s) == [s[..i]] + SplitLines(next) && ([s[..i]] + SplitLines(next))[1..] == SplitLines(next);
    }
  }

  lemma InkOfFirst(s: string, i: nat)
    requires i <= |s| && (i < |s| ==> IsBreak(s[i]))
    ensures InkOf(s) == InkOf(s[..i]) + InkOf(s[i + BreakSize(s[i..])..])
  {
    var rest := s[i..];
    assert s == s[..i] + rest && rest[BreakSize(rest)..] == s[i + BreakSize(rest)..];
    InkAppend(s[..i], rest);
    if i < |s| { BreakHasNoInk(rest); }
  }

  lemma InkCollapse(raw: Option<string>)
    ensures InkOf(CollapseCode(raw)) == InkOfMaybe(raw)
  {
    var lines := SplitLines(if raw.Some? then raw.value else "");
    InkSplitLines(if raw.Some? then raw.value else "");
    InkNotBlank(lines);
    InkJoinLines(NotBlank(lines));
  }

  // ---- the text of a tree, wherever it stands ----

  /** All a reader of the source sees of an element: of a link its text, its whole address and its title. */
  function Said(e: Inline): Ink {
    match e
    case Text(s) => InkOf(s)
    case LineBreak => multiset{}
    case CodeSpan(s) => InkOf(s)
    case Emphasis(cs) => SaidBy(cs)
    case Link(cs, dest, title) => SaidBy(cs) + InkOfMaybe(dest) + InkOfMaybe(title)
    case AutoLink(dest) => InkOfMaybe(dest)
    case OtherText(s) => InkOf(s)
    case OtherNode(cs) => SaidBy(cs)
  }

  function SaidBy(cs: seq<Inline>): Ink {
    if cs == [] then multiset{} else Said(cs[0]) + SaidBy(cs[1..])
  }

  function TextOf(b: Block): Ink {
    match b
    case Paragraph(cs) => SaidBy(cs)
    case Heading(cs) => SaidBy(cs)
    case List(_, items) => TextOfItems(items)
    case Quote(bs) => TextOfBlocks(bs)
    case CodeBlock(raw, info) => InkOfMaybe(raw) + InkOf(info)
    case Html(body) => InkOfMaybe(body)
    case OtherBlock => multiset{}
  }

  function TextOfBlocks(bs: seq<Block>): Ink {
    if bs == [] then multiset{} else TextOf(bs[0]) + TextOfBlocks(bs[1..])
  }

  function TextOfItems(items: seq<Item>): Ink {
    if items == [] then multiset{} else TextOfBlocks(items[0].children) + TextOfItems(items[1..])
  }

  /** The text in quotes and HTML blocks that stand directly in a list item. */
  function Skipped(b: Block): Ink {
    match b
    case List(_, items) => SkippedInItems(items)
    case Quote(bs) => SkippedInBlocks(bs)
    case _ => multiset{}
  }

  function SkippedInBlocks(bs: seq<Block>): Ink {
    if bs == [] then multiset{} else Skipped(bs[0]) + SkippedInBlocks(bs[1..])
  }

  function SkippedInChildren(bs: seq<Block>): Ink {
    if bs == [] then multiset{}
    else (if bs[0].Quote? || bs[0].Html? then TextOf(bs[0]) else Skipped(bs[0])) + SkippedInChildren(bs[1..])
  }

  function SkippedInItems(items: seq<Item>): Ink {
    if items == [] then multiset{} else SkippedInChildren(items[0].children) + SkippedInItems(items[1..])
  }

  // ---- what is printed with changes ----

  /** The elements whose printing adds or drops something. */
  datatype Element = Linked(link: Inline) | Fenced(info: string)

  /** The elements among inline content, at any depth. */
  function ElementsOfInline(e: Inline): seq<Element> {
    match e
    case Emphasis(cs) => ElementsOfInlines(cs)
    case OtherNode(cs) => ElementsOfInlines(cs)
    case Link(cs, _, _) => [Linked(e)] + ElementsOfInlines(cs)
    case AutoLink(_) => [Linked(e)]
    case _ => []
  }

  function ElementsOfInlines(cs: seq<Inline>): seq<Element> {
    if cs == [] then [] else ElementsOfInline(cs[0]) + ElementsOfInlines(cs[1..])
  }

  /** The elements in all that is not skipped. */
  function ElementsOf(b: Block): seq<Element> {
    match b
    case Paragraph(cs) => ElementsOfInlines(cs)
    case Heading(cs) => ElementsOfInlines(cs)
    case List(_, items) => ElementsOfItems(items)
    case Quote(bs) => Elements(bs)
    case CodeBlock(_, info) => [Fenced(info)]
    case _ => []
  }

  function Elements(bs: seq<Block>): seq<Element> {
    if bs == [] then [] else ElementsOf(bs[0]) + Elements(bs[1..])
  }

  function ElementsOfChildren(bs: seq<Block>): seq<Element> {
    if bs == [] then []
    else (if bs[0].Quote? || bs[0].Html? then [] else ElementsOf(bs[0])) + ElementsOfChildren(bs[1..])
  }

  function ElementsOfItems(items: seq<Item>): seq<Element> {
    if items == [] then [] else ElementsOfChildren(items[0].children) + ElementsOfItems(items[1..])
  }

  function SchemeOf(dest: Option<string>): string { Dest(dest)[..SchemeSize(Dest(dest))] }

  /** What an element loses: the scheme of its address, its title, what stands behind the fence. */
  function Lost(e: Element): Ink {
    match e
    case Linked(Link(_, dest, title)) => InkOf(SchemeOf(dest)) + InkOfMaybe(title)
    case Linked(AutoLink(dest)) => InkOf(SchemeOf(dest))
    case Linked(_) => multiset{}
    case Fenced(info) => InkOf(info)
  }

  /** What an element gains: the parentheses around the address of a link. */
  function Gained(e: Element): Ink {
    if e.Linked? && e.link.Link? && StripScheme(e.link.dest) != "" then multiset{'(', ')'} else multiset{}
  }

  function AllLost(es: seq<Element>): Ink { if es == [] then multiset{} else Lost(es[0]) + AllLost(es[1..]) }

  function AllGained(es: seq<Element>): Ink { if es == [] then multiset{} else Gained(es[0]) + AllGained(es[1..]) }

  lemma {:induction false} LostAppend(a: seq<Element>, b: seq<Element>)
    ensures AllLost(a + b) == AllLost(a) + AllLost(b) && AllGained(a + b) == AllGained(a) + AllGained(b)
  {
    hide Lost, Gained;
    if a == [] {
      assert a + b == b;
    } else {
      assert (a + b)[1..] == a[1..] + b;
      LostAppend(a[1..], b);
    }
  }

  lemma LostOne(e: Element)
    ensures AllLost([e]) == Lost(e) && AllGained([e]) == Gained(e)
  {}

  /** What of a text's ink is printed, what is lost of it and what is added. */
  ghost predicate Balanced(shown: Ink, skipped: Ink, es: seq<Element>, text: Ink) {
    shown + skipped + AllLost(es) == text + AllGained(es)
  }

  lemma BothBalanced(s: Ink, k: Ink, es: seq<Element>, t: Ink, s': Ink, k': Ink, es': seq<Element>, t': Ink)
    requires Balanced(s, k, es, t) && Balanced(s', k', es', t')
    ensures Balanced(s + s', k + k', es + es', t + t')
  {
    LostAppend(es, es');
    hide AllLost, AllGained;
    Swap(s, k, s', k');
    Swap(s + k, AllLost(es), s' + k', AllLost(es'));
    Swap(t, AllGained(es), t', AllGained(es'));
  }

  lemma Swap(a: Ink, b: Ink, c: Ink, d: Ink)
    ensures a + b + (c + d) == a + c + (b + d)
  {}

  // ---- inline content ----

  lemma InkDest(dest: Option<string>)
    ensures InkOf(SchemeOf(dest)) + InkOf(StripScheme(dest)) == InkOfMaybe(dest)
  {
    hide InkOf, Strip, SchemeSize;
    var s := Dest(dest);
    InkStrip(if dest.Some? then dest.value else "");
    InkAppend(s[..SchemeSize(s)], s[SchemeSize(s)..]);
    assert s[..SchemeSize(s)] + s[SchemeSize(s)..] == s;
  }

  lemma InkUrl(silent: bool, url: string)
    ensures InkIn(UrlAfter(silent, url)) == InkOf(url) + if url == "" then multiset{} else multiset{'(', ')'}
  {
    hide InkIn;
    var blank := if silent then "" else " ";
    NoInk();
    if url == "" {
      InkInLit("");
    } else {
      InkInAppend(Lit(blank) + Lit("(") + Lit(url), Lit(")"));
      InkInAppend(Lit(blank) + Lit("("), Lit(url));
      InkInAppend(Lit(blank), Lit("("));
      InkInLit(blank);
      InkInLit("(");
      InkInLit(url);
      InkInLit(")");
    }
  }

  lemma NoInk()
    ensures InkOf("") == multiset{} && InkOf(" ") == multiset{} && InkOf("(") == multiset{'('} && InkOf(")") == multiset{')'}
  {}

  lemma {:induction false} InlineKeeps(e: Inline)
    ensures Balanced(InkIn(Content(e)), multiset{}, ElementsOfInline(e), Said(e))
  {
    hide InkIn, InkOf, Lit, StripScheme, SchemeOf;
    match e
    case Text(s) => InkInLit(s);
    case LineBreak =>
      NoInk();
      InkInLit(" ");
    case CodeSpan(s) =>
      InkInTagged(Code, Lit(s));
      InkInLit(s);
    case Emphasis(cs) =>
      InkInTagged(Em, Contents(cs));
      InlinesKeep(cs);
    case Link(cs, dest, title) =>
      InlinesKeep(cs);
      LinkKeeps(cs, dest, title);
    case AutoLink(dest) =>
      InkInLit(StripScheme(dest));
      InkDest(dest);
      LostOne(Linked(e));
    case OtherText(s) => InkInLit(s);
    case OtherNode(cs) => InlinesKeep(cs);
  }

  lemma LinkKeeps(cs: seq<Inline>, dest: Option<string>, title: Option<string>)
    requires Balanced(InkIn(Contents(cs)), multiset{}, ElementsOfInlines(cs), SaidBy(cs))
    ensures var e := Link(cs, dest, title); Balanced(InkIn(Content(e)), multiset{}, ElementsOfInline(e), Said(e))
  {
    hide InkIn, InkOf, InkOfMaybe, SchemeOf, StripScheme, UrlAfter, Contents, SaidBy, ElementsOfInlines, AllLost, AllGained, Silent;
    var e := Link(cs, dest, title);
    InkDest(dest);
    InkUrl(Silent(cs), StripScheme(dest));
    InkInAppend(Contents(cs), UrlAfter(Silent(cs), StripScheme(dest)));
    LostOne(Linked(e));
    LostAppend([Linked(e)], ElementsOfInlines(cs));
    LinkSums(
      InkIn(Contents(cs)), AllLost(ElementsOfInlines(cs)), SaidBy(cs), AllGained(ElementsOfInlines(cs)),
      InkOf(SchemeOf(dest)), InkOf(StripScheme(dest)), InkOfMaybe(title), Gained(Linked(e)));
  }

  lemma LinkSums(shown: Ink, lost: Ink, said: Ink, gained: Ink, scheme: Ink, url: Ink, title: Ink, around: Ink)
    requires shown + lost == said + gained
    ensures shown + (url + around) + (scheme + title + lost) == said + (scheme + url) + title + (around + gained)
  {
    var left := shown + (url + around) + (scheme + title + lost);
    var right := said + (scheme + url) + title + (around + gained);
    forall c: char ensures left[c] == right[c] {
      assert (shown + lost)[c] == (said + gained)[c];
      assert left[c] == shown[c] + url[c] + around[c] + scheme[c] + title[c] + lost[c];
      assert right[c] == said[c] + scheme[c] + url[c] + title[c] + around[c] + gained[c];
    }
  }

  lemma {:induction false} InlinesKeep(cs: seq<Inline>)
    ensures Balanced(InkIn(Contents(cs)), multiset{}, ElementsOfInlines(cs), SaidBy(cs))
  {
    hide InkIn, Content, Said, ElementsOfInline, Balanced;
    if cs == [] {
      InkOfNone();
      NothingBalanced();
    } else {
      InlineKeeps(cs[0]);
      InlinesKeep(cs[1..]);
      InkInAppend(Content(cs[0]), Contents(cs[1..]));
      BothBalanced(InkIn(Content(cs[0])), multiset{}, ElementsOfInline(cs[0]), Said(cs[0]),
                   InkIn(Contents(cs[1..])), multiset{}, ElementsOfInlines(cs[1..]), SaidBy(cs[1..]));
      var none: Ink := multiset{};
      assert none + none == none;
    }
  }

  lemma NothingBalanced()
    ensures Balanced(multiset{}, multiset{}, [], multiset{})
  {}

  // ---- blocks ----

  function InkOfOut(out: Out): Ink {
    match out
    case Para(text) => InkIn(text)
    case Items(_, texts) => InkInAll(texts)
  }

  function InkOfOuts(outs: seq<Out>): Ink {
    if outs == [] then multiset{} else InkOfOut(outs[0]) + InkOfOuts(outs[1..])
  }

  lemma InkOfNone()
    ensures InkOfOuts([]) == multiset{} && InkOf("") == multiset{} && InkIn([]) == multiset{}
  {}

  lemma InkOfOne(out: Out)
    ensures InkOfOuts([out]) == InkOfOut(out)
  {}

  lemma {:induction false} InkOutsAppend(a: seq<Out>, b: seq<Out>)
    ensures InkOfOuts(a + b) == InkOfOuts(a) + InkOfOuts(b)
  {
    if a == [] {
      assert a + b == b;
    } else {
      assert (a + b)[1..] == a[1..] + b;
      InkOutsAppend(a[1..], b);
    }
  }

  // ---- conservation ----

  lemma {:induction false} ItemKeeps(i: Item)
    ensures Balanced(InkInAll(ItemTexts(i)), SkippedInChildren(i.children), ElementsOfChildren(i.children), TextOfBlocks(i.children))
  {
    hide Balanced, InkIn;
    var parts := ContentParts(i.children);
    var own := if parts == [] then [] else [Join(Lit(" "), parts)];
    InkJoin(parts);
    InkInAllAppend(own, NestedTexts(i.children));
    assert InkInAll(own) == InkInAll(parts) by { assert own != [] ==> own[1..] == []; }
    ChildrenKeep(i.children);
  }

  lemma {:induction false} ChildrenKeep(bs: seq<Block>)
    ensures Balanced(InkInAll(ContentParts(bs)) + InkInAll(NestedTexts(bs)), SkippedInChildren(bs), ElementsOfChildren(bs), TextOfBlocks(bs))
  {
    hide Balanced, InkInAll, ContentPart, ItemsTexts, Skipped, ElementsOf, TextOf;
    NoneInAll();
    NothingBalanced();
    if bs != [] {
      ChildrenKeep(bs[1..]);
      var b := bs[0];
      var aside := b.Quote? || b.Html?;
      var nested := if b.List? then ItemsTexts(b.items) else [];
      InkInAllAppend(ContentPart(b), ContentParts(bs[1..]));
      InkInAllAppend(nested, NestedTexts(bs[1..]));
      ChildKeeps(b);
      BothBalanced(
        InkInAll(ContentPart(b)) + InkInAll(nested), if aside then TextOf(b) else Skipped(b), if aside then [] else ElementsOf(b), TextOf(b),
        InkInAll(ContentParts(bs[1..])) + InkInAll(NestedTexts(bs[1..])), SkippedInChildren(bs[1..]), ElementsOfChildren(bs[1..]), TextOfBlocks(bs[1..]));
      Swap(InkInAll(ContentPart(b)), InkInAll(nested), InkInAll(ContentParts(bs[1..])), InkInAll(NestedTexts(bs[1..])));
    }
  }

  lemma NoneInAll()
    ensures InkInAll([]) == multiset{} && InkInAll([]) + InkInAll([]) == multiset{}
  {}

  lemma InkInOne(r: Rich)
    ensures InkInAll([r]) == InkIn(r)
  {
    assert [r][1..] == [];
  }

  lemma {:induction false} ChildKeeps(b: Block)
    ensures var aside := b.Quote? || b.Html?;
      Balanced(InkInAll(ContentPart(b)) + InkInAll(if b.List? then ItemsTexts(b.items) else []),
               if aside then TextOf(b) else Skipped(b), if aside then [] else ElementsOf(b), TextOf(b))
  {
    hide InkIn, InkOf, InkInAll, ItemsTexts, SaidBy, ElementsOfInlines, Contents, CollapseCode;
    NoneInAll();
    NothingBalanced();
    match b
    case Paragraph(cs) => PartKeeps(cs);
    case Heading(cs) => PartKeeps(cs);
    case List(_, items) => ItemsKeep(items);
    case CodeBlock(raw, info) =>
      InkInOne(Tagged(Code, Lit(CollapseCode(raw))));
      CodeKeeps(raw, info);
    case _ =>
  }

  lemma PartKeeps(cs: seq<Inline>)
    ensures Balanced(InkInAll(if Silent(cs) then [] else [Contents(cs)]), multiset{}, ElementsOfInlines(cs), SaidBy(cs))
  {
    hide Balanced;
    InlinesKeep(cs);
    InkInOne(Contents(cs));
    if Silent(cs) { SilentSaysNothing(cs); }
  }

  lemma CodeKeeps(raw: Option<string>, info: string)
    ensures var code := CollapseCode(raw);
      Balanced(if code == "" then multiset{} else InkIn(Tagged(Code, Lit(code))), multiset{}, [Fenced(info)], InkOfMaybe(raw) + InkOf(info))
  {
    hide InkIn, InkOf, InkOfMaybe, CollapseCode;
    var code := CollapseCode(raw);
    InkCollapse(raw);
    InkInLit(code);
    InkInTagged(Code, Lit(code));
    NoInk();
    LostOne(Fenced(info));
  }

  lemma {:induction false} ItemsKeep(items: seq<Item>)
    ensures Balanced(InkInAll(ItemsTexts(items)), SkippedInItems(items), ElementsOfItems(items), TextOfItems(items))
  {
    hide Balanced, InkInAll, ItemTexts, SkippedInChildren, ElementsOfChildren, TextOfBlocks;
    NoneInAll();
    NothingBalanced();
    if items != [] {
      ItemKeeps(items[0]);
      ItemsKeep(items[1..]);
      InkInAllAppend(ItemTexts(items[0]), ItemsTexts(items[1..]));
      BothBalanced(
        InkInAll(ItemTexts(items[0])), SkippedInChildren(items[0].children), ElementsOfChildren(items[0].children), TextOfBlocks(items[0].children),
        InkInAll(ItemsTexts(items[1..])), SkippedInItems(items[1..]), ElementsOfItems(items[1..]), TextOfItems(items[1..]));
    }
  }

  lemma {:induction false} BlockKeeps(b: Block)
    ensures Balanced(InkOfOuts(BlockOuts(b)), Skipped(b), ElementsOf(b), TextOf(b))
  {
    hide InkIn, InkInAll, InkOfOuts, CollapseCode, Contents, Strip, SaidBy, ElementsOfInlines, Balanced, InkOf, Lit;
    match b
    case Paragraph(cs) => ParagraphKeeps(cs);
    case Heading(cs) => HeadingKeeps(cs);
    case List(ordered, items) =>
      ItemsKeep(items);
      InkOfOne(Items(ordered, ItemsTexts(items)));
    case Quote(bs) =>
      TextConserved(bs);
      BalancedIs(InkOfOuts(Outs(bs)), SkippedInBlocks(bs), Elements(bs), TextOfBlocks(bs));
    case CodeBlock(raw, info) => CodeBlockKeeps(raw, info);
    case Html(body) => HtmlKeeps(body);
    case OtherBlock =>
      InkOfNone();
      NothingBalanced();
  }

  lemma BalancedIs(shown: Ink, skipped: Ink, es: seq<Element>, text: Ink)
    ensures Balanced(shown, skipped, es, text) <==> shown + skipped + AllLost(es) == text + AllGained(es)
  {}

  lemma ParagraphKeeps(cs: seq<Inline>)
    ensures Balanced(InkOfOuts(BlockOuts(Paragraph(cs))), multiset{}, ElementsOfInlines(cs), SaidBy(cs))
  {
    InlinesKeep(cs);
    InkOfOne(Para(Contents(cs)));
  }

  lemma HeadingKeeps(cs: seq<Inline>)
    ensures Balanced(InkOfOuts(BlockOuts(Heading(cs))), multiset{}, ElementsOfInlines(cs), SaidBy(cs))
  {
    hide Balanced, Contents, InkIn;
    InlinesKeep(cs);
    InkInTagged(Em, Contents(cs));
    InkOfOne(Para(Tagged(Em, Contents(cs))));
  }

  lemma CodeBlockKeeps(raw: Option<string>, info: string)
    ensures Balanced(InkOfOuts(BlockOuts(CodeBlock(raw, info))), multiset{}, [Fenced(info)], InkOfMaybe(raw) + InkOf(info))
  {
    hide Balanced, InkIn, InkOf, InkOfOuts, Lit, CollapseCode;
    InkOfNone();
    CodeKeeps(raw, info);
    InkOfOne(Para(Tagged(Code, Lit(CollapseCode(raw)))));
  }

  lemma HtmlKeeps(body: Option<string>)
    ensures Balanced(InkOfOuts(BlockOuts(Html(body))), multiset{}, [], InkOfMaybe(body))
  {
    hide InkOf, InkIn, InkOfOuts, Strip;
    InkOfNone();
    if body.Some? {
      InkStrip(body.value);
      InkInLit(Strip(body.value));
      InkOfOne(Para(Lit(Strip(body.value))));
    }
  }

  /** What is printed, what is skipped and what the printed elements lose are together the whole text and the
      parentheses that links gain. */
  lemma {:induction false} TextConserved(doc: seq<Block>)
    ensures InkOfOuts(Outs(doc)) + SkippedInBlocks(doc) + AllLost(Elements(doc)) == TextOfBlocks(doc) + AllGained(Elements(doc))
  {
    hide InkOfOuts, BlockOuts, Skipped, TextOf, ElementsOf;
    InkOfNone();
    if doc != [] {
      BlockKeeps(doc[0]);
      TextConserved(doc[1..]);
      InkOutsAppend(BlockOuts(doc[0]), Outs(doc[1..]));
      BothBalanced(
        InkOfOuts(BlockOuts(doc[0])), Skipped(doc[0]), ElementsOf(doc[0]), TextOf(doc[0]),
        InkOfOuts(Outs(doc[1..])), SkippedInBlocks(doc[1..]), Elements(doc[1..]), TextOfBlocks(doc[1..]));
    }
  }

  /** No scheme in front of the address, and no title and no info with anything to see. */
  ghost predicate Lossless(e: Element) {
    match e
    case Linked(Link(_, dest, title)) => !HasScheme(Dest(dest)) && InkOfMaybe(title) == multiset{}
    case Linked(AutoLink(dest)) => !HasScheme(Dest(dest))
    case Linked(_) => true
    case Fenced(info) => InkOf(info) == multiset{}
  }

  lemma SchemeInk(dest: Option<string>)
    ensures InkOf(SchemeOf(dest)) == multiset{} <==> !HasScheme(Dest(dest))
  {
    var s := Dest(dest);
    if HasScheme(s) {
      var n: nat :| SchemeAt(s, 0, n);
      SizeIs(s, n);
      assert SchemeOf(dest)[0] == s[0] && s[0] in InkOf(SchemeOf(dest));
    } else if SchemeSize(s) > 0 {
      SizeIs(s, SchemeSize(s) - 3);
    }
  }

  lemma {:induction false} NoneLost(es: seq<Element>)
    ensures AllLost(es) == multiset{} <==> forall e | e in es :: Lossless(e)
  {
    hide Lost, Lossless;
    if es != [] {
      NoneLost(es[1..]);
      LosslessIs(es[0]);
      NoSum(Lost(es[0]), AllLost(es[1..]));
      assert es == [es[0]] + es[1..];
    }
  }

  lemma LosslessIs(e: Element)
    ensures Lost(e) == multiset{} <==> Lossless(e)
  {
    hide InkOf, SchemeOf, HasScheme;
    match e
    case Linked(Link(_, dest, title)) =>
      SchemeInk(dest);
      NoSum(InkOf(SchemeOf(dest)), InkOfMaybe(title));
    case Linked(AutoLink(dest)) => SchemeInk(dest);
    case _ =>
  }

  lemma NoSum(a: Ink, b: Ink)
    ensures a + b == multiset{} <==> a == multiset{} && b == multiset{}
  {
    assert |a + b| == |a| + |b|;
  }

  /** Of its characters nothing is dropped and nothing but parentheses is added exactly when no list item has a quote or an HTML block
      with text in it, and no printed link an address with a scheme or a title, and no printed fence an info string. */
  lemma NothingDropped(doc: seq<Block>)
    ensures InkOfOuts(Outs(doc)) == TextOfBlocks(doc) + AllGained(Elements(doc))
      <==> SkippedInBlocks(doc) == multiset{} && forall e | e in Elements(doc) :: Lossless(e)
  {
    hide Lossless;
    TextConserved(doc);
    NoneLost(Elements(doc));
    var skipped, lost := SkippedInBlocks(doc), AllLost(Elements(doc));
    NoSum(skipped, lost);
    NoneOver(InkOfOuts(Outs(doc)), skipped + lost);
    SumsJoin(InkOfOuts(Outs(doc)), skipped, lost);
  }

  lemma SumsJoin(a: Ink, b: Ink, c: Ink)
    ensures a + (b + c) == a + b + c
  {}

  lemma NoneOver(a: Ink, b: Ink)
    ensures a == a + b <==> b == multiset{}
  {
    assert |a + b| == |a| + |b|;
  }

  /** Of an autolink the scheme is gone, although nothing is skipped. */
  lemma SchemeDropped(dest: Option<string>)
    ensures var doc := [Paragraph([AutoLink(dest)])];
      && SkippedInBlocks(doc) == multiset{} && AllGained(Elements(doc)) == multiset{}
      && InkOfOuts(Outs(doc)) == InkOf(StripScheme(dest)) && TextOfBlocks(doc) == InkOfMaybe(dest)
  {
    var b := Paragraph([AutoLink(dest)]);
    OnlyBlock(b);
    OneAutoLink(dest);
    hide InkIn, InkOf, Lit, StripScheme;
    InkOfOne(Para(Lit(StripScheme(dest))));
    InkInLit(StripScheme(dest));
  }

  lemma OneAutoLink(dest: Option<string>)
    ensures var b := Paragraph([AutoLink(dest)]);
      && BlockOuts(b) == [Para(Lit(StripScheme(dest)))] && TextOf(b) == InkOfMaybe(dest)
      && Skipped(b) == multiset{} && AllGained(ElementsOf(b)) == multiset{}
  {
    hide InkOf, Lit, StripScheme, InkOfMaybe;
    var cs := [AutoLink(dest)];
    assert cs[1..] == [];
    assert SaidBy(cs) == InkOfMaybe(dest);
    assert Contents(cs) == Lit(StripScheme(dest));
    assert ElementsOfInlines(cs) == [Linked(cs[0])];
    LostOne(Linked(cs[0]));
  }

  /** A quote in a list item is gone, and the list is printed without items. */
  lemma QuoteInItemDropped(text: string, ordered: bool)
    ensures var doc := [List(ordered, [Item([Quote([Paragraph([Text(text)])])])])];
      Outs(doc) == [Items(ordered, [])] && TextOfBlocks(doc) == InkOf(text)
  {
    var quote := Quote([Paragraph([Text(text)])]);
    var item := Item([quote]);
    OnlyQuote(item, quote);
    OnlyItem(item);
    OnlyBlock(List(ordered, [item]));
    OnlyBlock(quote);
    OnlyBlock(Paragraph([Text(text)]));
    OnlyText(text);
  }

  lemma OnlyText(text: string)
    ensures SaidBy([Text(text)]) == InkOf(text)
  {
    assert [Text(text)][1..] == [];
  }

  lemma OnlyBlock(b: Block)
    ensures TextOfBlocks([b]) == TextOf(b) && Outs([b]) == BlockOuts(b) && SkippedInBlocks([b]) == Skipped(b) && Elements([b]) == ElementsOf(b)
  {}

  lemma OnlyItem(item: Item)
    ensures TextOfItems([item]) == TextOfBlocks(item.children) && ItemsTexts([item]) == ItemTexts(item)
  {}

  lemma OnlyQuote(item: Item, quote: Block)
    requires quote.Quote? && item.children == [quote]
    ensures ItemTexts(item) == []
  {
    assert item.children[1..] == [];
    NoChildren();
    assert ContentParts(item.children) == ContentPart(quote) + ContentParts([]);
  }

  lemma NoChildren()
    ensures ContentParts([]) == [] && NestedTexts([]) == []
  {}
}
