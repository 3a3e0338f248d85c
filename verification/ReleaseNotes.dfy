/** The loops of the release-note printer. */
module ReleaseNotes {
  import opened Options
  import opened Xml
  import opened AppStream

  // ---- the loops ----

  /** The description's lines, or a failure when there are none. */
  method Describe(doc: seq<Block>) returns (lines: Option<seq<string>>)
    ensures lines == if RenderBlocks(doc) == [] then None else Some(RenderBlocks(doc))
    ensures lines.Some? ==> Parse(Source(lines.value)) == Some(Outs(doc))
  {
    var all: seq<string> := [];
    for k := 0 to |doc|
      invariant all + RenderBlocks(doc[k..]) == RenderBlocks(doc)
    {
      var more := PrintBlock(doc[k]);
      all := all + more;
      assert doc[k..][1..] == doc[k + 1..];
    }
    assert doc[|doc|..] == [] && all + [] == all;
    PrintedParses(doc);
    hide RenderBlocks, Outs, Parse, Source;
    lines := if all == [] then None else Some(all);
  }

  method PrintBlock(b: Block) returns (lines: seq<string>)
    ensures lines == RenderBlock(b)
    decreases b
  {
    match b
    case Paragraph(cs) => lines := [BLOCK_INDENT + Wrap(P, RenderChildren(cs))];
    case Heading(cs) => lines := [BLOCK_INDENT + Wrap(P, Wrap(Em, RenderChildren(cs)))];
    case List(ordered, items) =>
      var tag := ListTag(ordered);
      var inside := PrintItems(items);
      lines := [BLOCK_INDENT + OpenTag(tag)] + inside + [BLOCK_INDENT + CloseTag(tag)];
    case Quote(bs) => lines := PrintBlocks(bs);
    case CodeBlock(raw, _) =>
      var code := CollapseCode(raw);
      lines := if code == "" then [] else [BLOCK_INDENT + Wrap(P, Wrap(Code, Escape(code)))];
    case Html(body) =>
      var text := if body.Some? then Escape(Strip(body.value)) else "";
      lines := if text == "" then [] else [BLOCK_INDENT + Wrap(P, text)];
    case OtherBlock => lines := [];
  }

  method PrintBlocks(bs: seq<Block>) returns (lines: seq<string>)
    ensures lines == RenderBlocks(bs)
    decreases bs
  {
    hide RenderBlock;
    lines := [];
    for k := 0 to |bs|
      invariant lines + RenderBlocks(bs[k..]) == RenderBlocks(bs)
    {
      var more := PrintBlock(bs[k]);
      lines := lines + more;
      assert bs[k..][1..] == bs[k + 1..];
    }
    assert bs[|bs|..] == [];
  }

  function ListsOf(bs: seq<Block>): (r: seq<Block>)
    ensures forall b | b in r :: b in bs && b.List?
  {
    if bs == [] then [] else (if bs[0].List? then [bs[0]] else []) + ListsOf(bs[1..])
  }

  lemma {:induction false} NestedOfLists(bs: seq<Block>)
    ensures RenderNested(ListsOf(bs)) == RenderNested(bs)
  {
    if bs != [] {
      NestedOfLists(bs[1..]);
      var rest := ListsOf(bs[1..]);
      if bs[0].List? {
        assert ([bs[0]] + rest)[1..] == rest;
        assert RenderNested([bs[0]] + rest) == RenderItems(bs[0].items) + RenderNested(rest);
      } else {
        assert ListsOf(bs) == rest && RenderNested(bs) == RenderNested(bs[1..]);
      }
    }
  }

  /** The texts and the nested lists among an item's children. */
  method Gather(bs: seq<Block>) returns (parts: seq<string>, nested: seq<Block>)
    ensures parts == RenderParts(bs) && nested == ListsOf(bs)
  {
    assert bs[0..] == bs;
    hide RenderPart, RenderParts, ListsOf;
    parts, nested := [], [];
    for k := 0 to |bs|
      invariant parts + RenderParts(bs[k..]) == RenderParts(bs)
      invariant nested + ListsOf(bs[k..]) == ListsOf(bs)
    {
      GatherStep(bs, k, parts, nested);
      if bs[k].List? {
        nested := nested + [bs[k]];
      } else {
        parts := parts + RenderPart(bs[k]);
      }
    }
    assert bs[|bs|..] == [];
    GatherEnd();
    assert parts + [] == parts && nested + [] == nested;
  }

  lemma GatherEnd()
    ensures RenderParts([]) == [] && ListsOf([]) == []
  {}

  lemma Assoc<T>(a: seq<T>, b: seq<T>, c: seq<T>)
    ensures a + (b + c) == a + b + c && a + [] == a
  {}

  lemma FirstParts(bs: seq<Block>)
    requires bs != []
    ensures RenderParts(bs) == (if bs[0].List? then [] else RenderPart(bs[0])) + RenderParts(bs[1..])
    ensures ListsOf(bs) == (if bs[0].List? then [bs[0]] else []) + ListsOf(bs[1..])
  {}

  lemma GatherStep(bs: seq<Block>, k: nat, parts: seq<string>, nested: seq<Block>)
    requires k < |bs|
    ensures parts + RenderParts(bs[k..]) == parts + (if bs[k].List? then [] else RenderPart(bs[k])) + RenderParts(bs[k + 1..])
    ensures nested + ListsOf(bs[k..]) == nested + (if bs[k].List? then [bs[k]] else []) + ListsOf(bs[k + 1..])
    ensures parts + [] == parts && nested + [] == nested
  {
    assert bs[k..][0] == bs[k] && bs[k..][1..] == bs[k + 1..];
    FirstParts(bs[k..]);
    hide RenderPart, RenderParts, ListsOf;
    Assoc(parts, if bs[k].List? then [] else RenderPart(bs[k]), RenderParts(bs[k + 1..]));
    Assoc(nested, if bs[k].List? then [bs[k]] else [], ListsOf(bs[k + 1..]));
  }

  /** One list item: its text first, then the items of its nested lists in its place. */
  method PrintItem(i: Item) returns (lines: seq<string>)
    ensures lines == RenderItem(i)
    decreases i
  {
    var parts, nested := Gather(i.children);
    NestedOfLists(i.children);
    hide RenderParts, ListsOf, NonEmpty, Join, Wrap;
    var text := Join(" ", NonEmpty(parts));
    lines := if text == "" then [] else [ITEM_INDENT + Wrap(Li, text)];
    for k := 0 to |nested|
      invariant lines + RenderNested(nested[k..]) == RenderItem(i)
    {
      assert nested[k] in i.children;
      var more := PrintItems(nested[k].items);
      lines := lines + more;
      assert nested[k..][1..] == nested[k + 1..];
    }
    assert nested[|nested|..] == [];
  }

  method PrintItems(items: seq<Item>) returns (lines: seq<string>)
    ensures lines == RenderItems(items)
    decreases items
  {
    lines := [];
    for k := 0 to |items|
      invariant lines + RenderItems(items[k..]) == RenderItems(items)
    {
      var more := PrintItem(items[k]);
      lines := lines + more;
      assert items[k..][1..] == items[k + 1..];
    }
  }

  /** Lines are printed exactly for a description with a paragraph or a list, were it an empty one. */
  lemma {:induction false} NothingPrinted(doc: seq<Block>)
    ensures RenderBlocks(doc) == [] <==> Outs(doc) == []
  {
    if doc != [] {
      NothingOf(doc[0]);
      NothingPrinted(doc[1..]);
    }
  }

  lemma {:induction false} NothingOf(b: Block)
    ensures RenderBlock(b) == [] <==> BlockOuts(b) == []
  {
    match b
    case Quote(bs) => NothingPrinted(bs);
    case Html(body) => if body.Some? { EscapeEmpty(Strip(body.value)); }
    case _ =>
  }
}
