/** URLs in release notes: AppStream forbids `scheme://` in a description, so the printer drops a link's scheme.
    What it drops, and where one is printed nevertheless. */
module ReleaseUrls {
  import opened Options
  import opened Xml
  import opened AppStream

  // ---- one URL ----

  /** At place i of s stands a scheme of n characters and `://`. */
  ghost predicate SchemeAt(s: string, i: nat, n: nat) {
    && 0 < n && i + n + 3 <= |s| && IsLetter(s[i]) && (forall k | i <= k < i + n :: IsSchemeChar(s[k]))
    && s[i + n] == ':' && s[i + n + 1] == '/' && s[i + n + 2] == '/'
  }

  lemma {:induction false} RunIs(s: string, n: nat)
    requires n <= |s| && (forall i | 0 <= i < n :: IsSchemeChar(s[i])) && (n < |s| ==> !IsSchemeChar(s[n]))
    ensures SchemeRun(s) == n
    decreases n
  {
    if n > 0 {
      assert forall i | 0 <= i < n - 1 :: s[1..][i] == s[i + 1];
      RunIs(s[1..], n - 1);
    }
  }

  lemma {:induction false} RunHolds(s: string)
    ensures forall i | 0 <= i < SchemeRun(s) :: IsSchemeChar(s[i])
  {
    if s != "" && IsSchemeChar(s[0]) {
      RunHolds(s[1..]);
      assert forall i | 0 < i < SchemeRun(s) :: s[i] == s[1..][i - 1];
    }
  }

  lemma SizeIs(s: string, n: nat)
    ensures SchemeSize(s) == n + 3 <==> SchemeAt(s, 0, n)
  {
    RunHolds(s);
    if SchemeAt(s, 0, n) {
      RunIs(s, n);
      assert s[n..n + 3] == "://";
    }
  }

  /** s starts with a scheme. */
  ghost predicate HasScheme(s: string) { exists n: nat :: SchemeAt(s, 0, n) }

  function Dest(dest: Option<string>): string { Strip(if dest.Some? then dest.value else "") }

  /** A leading scheme is dropped, and nothing else. */
  lemma UrlShown(dest: Option<string>)
    ensures forall n: nat | SchemeAt(Dest(dest), 0, n) :: StripScheme(dest) == Dest(dest)[n + 3..]
    ensures !HasScheme(Dest(dest)) ==> StripScheme(dest) == Dest(dest)
  {
    var s := Dest(dest);
    forall n: nat | SchemeAt(s, 0, n) ensures SchemeSize(s) == n + 3 { SizeIs(s, n); }
    if SchemeSize(s) > 0 { SizeIs(s, SchemeSize(s) - 3); }
  }

  /** What is shown of a URL still starts with a scheme exactly when a second scheme follows the first. */
  lemma SchemeLeft(dest: Option<string>)
    ensures HasScheme(StripScheme(dest)) <==> exists n: nat :: SchemeAt(Dest(dest), 0, n) && HasScheme(Dest(dest)[n + 3..])
  {
    UrlShown(dest);
  }

  lemma SchemeThen(name: string, rest: string)
    requires name != "" && IsLetter(name[0]) && forall c | c in name :: IsSchemeChar(c)
    ensures var s := name + "://" + rest; SchemeAt(s, 0, |name|) && s[|name| + 3..] == rest
  {}

  lemma SchemeLeftExample()
    ensures HasScheme(StripScheme(Some("http" + "://" + ("http" + "://" + "x"))))
  {
    hide SchemeAt, StripScheme;
    var inner := "http" + "://" + "x";
    var url := "http" + "://" + inner;
    SchemeThen("http", "x");
    SchemeThen("http", inner);
    StripStays(url);
    UrlShown(Some(url));
  }

  lemma StripStays(s: string)
    requires s != "" && !IsSpace(s[0]) && !IsSpace(s[|s| - 1])
    ensures Strip(s) == s
  {}

  // ---- a scheme anywhere in a text ----

  ghost predicate SchemeIn(s: string) { exists i: nat, n: nat :: SchemeAt(s, i, n) }

  ghost predicate AnyScheme(runs: seq<string>) { exists r | r in runs :: SchemeIn(r) }

  /** What the printer puts between texts: no part of any scheme. */
  ghost predicate Separates(sep: string) { sep != "" && forall c | c in sep :: c == ' ' || c == '(' || c == ')' }

  /** Nothing printed between two texts joins them to a scheme. */
  lemma SchemeApart(a: string, sep: string, b: string)
    requires Separates(sep)
    ensures SchemeIn(a + sep + b) <==> SchemeIn(a) || SchemeIn(b)
  {
    hide SchemeAt, Separates;
    var s := a + sep + b;
    if SchemeIn(s) {
      var i: nat, n: nat :| SchemeAt(s, i, n);
      SchemeOnOneSide(a, sep, b, i, n);
    }
    if SchemeIn(a) { SchemeInFront(a, sep + b); }
    if SchemeIn(b) { SchemeBehind(a + sep, b); }
    assert a + (sep + b) == s;
  }

  lemma SchemeInFront(a: string, b: string)
    requires SchemeIn(a)
    ensures SchemeIn(a + b)
  {
    hide SchemeAt;
    var i: nat, n: nat :| SchemeAt(a, i, n);
    SchemeFits(a, i, n);
    SchemeSame(a, i, a + b, i, n);
  }

  lemma SchemeBehind(a: string, b: string)
    requires SchemeIn(b)
    ensures SchemeIn(a + b)
  {
    hide SchemeAt;
    var i: nat, n: nat :| SchemeAt(b, i, n);
    SchemeFits(b, i, n);
    SchemeSame(b, i, a + b, |a| + i, n);
  }

  lemma SchemeOnOneSide(a: string, sep: string, b: string, i: nat, n: nat)
    requires Separates(sep) && SchemeAt(a + sep + b, i, n)
    ensures SchemeIn(a) || SchemeIn(b)
  {
    var s := a + sep + b;
    SchemeAvoids(s, i, n, |a|, sep);
    SchemeFits(s, i, n);
    hide SchemeAt, Separates;
    if i + n + 3 <= |a| {
      SchemeSame(s, i, a, i, n);
      assert SchemeAt(a, i, n);
    } else {
      SchemeSame(s, i, b, i - |a + sep|, n);
      assert SchemeAt(b, i - |a + sep|, n);
    }
  }

  lemma SchemeFits(s: string, i: nat, n: nat)
    requires SchemeAt(s, i, n)
    ensures i + n + 3 <= |s|
  {}

  lemma SchemeSame(s: string, i: nat, t: string, j: nat, n: nat)
    requires SchemeAt(s, i, n) && j + n + 3 <= |t| && t[j..j + n + 3] == s[i..i + n + 3]
    ensures SchemeAt(t, j, n)
  {
    var u := s[i..i + n + 3];
    assert u[0] == s[i] && u[n] == s[i + n] && u[n + 1] == s[i + n + 1] && u[n + 2] == s[i + n + 2];
    assert u[0] == t[j] && u[n] == t[j + n] && u[n + 1] == t[j + n + 1] && u[n + 2] == t[j + n + 2];
    forall k | j <= k < j + n ensures IsSchemeChar(t[k]) {
      assert t[k] == u[k - j] == s[i + (k - j)];
    }
  }

  lemma SchemeHasNone(s: string, i: nat, n: nat, k: nat)
    requires SchemeAt(s, i, n) && i <= k < i + n + 3
    ensures k < |s| && s[k] != ' ' && s[k] != '(' && s[k] != ')'
  {}

  lemma SchemeAvoids(s: string, i: nat, n: nat, at: nat, sep: string)
    requires SchemeAt(s, i, n) && Separates(sep) && at + |sep| <= |s| && s[at..at + |sep|] == sep
    ensures i + n + 3 <= at || at + |sep| <= i
  {
    hide SchemeAt;
    assert sep != "";
    if at < i + n + 3 && i < at + |sep| {
      var k := if at < i then i else at;
      assert s[k] == sep[k - at] && sep[k - at] in sep;
      SchemeHasNone(s, i, n, k);
    }
  }

  // ---- texts made of runs ----

  /** s has the runs in order, each two with something that separates them in between. */
  ghost predicate Woven(s: string, runs: seq<string>)
    decreases |runs|
  {
    if |runs| <= 1 then runs == [s]
    else exists sep, rest | Separates(sep) && Woven(rest, runs[1..]) :: s == runs[0] + sep + rest
  }

  lemma WovenFrom(first: string, sep: string, rest: string, runs: seq<string>)
    requires Separates(sep) && Woven(rest, runs)
    ensures Woven(first + sep + rest, [first] + runs)
  {
    assert ([first] + runs)[1..] == runs;
  }

  lemma WovenInto(s: string, runs: seq<string>) returns (sep: string, rest: string)
    requires Woven(s, runs) && |runs| > 1
    ensures Separates(sep) && Woven(rest, runs[1..]) && s == runs[0] + sep + rest
  {
    sep, rest :| Separates(sep) && Woven(rest, runs[1..]) && s == runs[0] + sep + rest;
  }

  lemma {:induction false} WovenScheme(s: string, runs: seq<string>)
    requires Woven(s, runs)
    ensures SchemeIn(s) <==> AnyScheme(runs)
    decreases |runs|
  {
    hide SchemeIn, Separates;
    if |runs| > 1 {
      var sep, rest := WovenInto(s, runs);
      WovenScheme(rest, runs[1..]);
      SchemeApart(runs[0], sep, rest);
      AnyAppend([runs[0]], runs[1..]);
      assert [runs[0]] + runs[1..] == runs;
    }
  }

  lemma AnyAppend(a: seq<string>, b: seq<string>)
    ensures AnyScheme(a + b) <==> AnyScheme(a) || AnyScheme(b)
  {
    assert forall r :: r in a + b <==> r in a || r in b;
  }

  /** The last run of one text goes on in the first of the next. */
  function Glue(a: seq<string>, b: seq<string>): (r: seq<string>)
    requires a != [] && b != []
    ensures r != []
  {
    a[..|a| - 1] + [a[|a| - 1] + b[0]] + b[1..]
  }

  lemma {:induction false} WovenGlue(s: string, a: seq<string>, t: string, b: seq<string>)
    requires a != [] && b != [] && Woven(s, a) && Woven(t, b)
    ensures Woven(s + t, Glue(a, b))
    decreases |a|
  {
    hide Separates, Woven, Glue;
    GlueIs(a, b);
    if |a| > 1 {
      var sep, rest := WovenInto(s, a);
      WovenGlue(rest, a[1..], t, b);
      WovenFrom(a[0], sep, rest + t, Glue(a[1..], b));
      FourTexts(a[0], sep, rest, t);
    } else {
      WovenOnly(s, a);
      if |b| > 1 {
        var sep, rest := WovenInto(t, b);
        WovenFrom(s + b[0], sep, rest, b[1..]);
        FourTexts(s, b[0], sep, rest);
      } else {
        WovenOnly(t, b);
        WovenOne(s + t);
        assert b[1..] == [] && [s + t] + [] == [s + t];
      }
    }
  }

  lemma WovenOnly(s: string, runs: seq<string>)
    requires Woven(s, runs) && |runs| == 1
    ensures runs == [s]
  {}

  lemma GlueIs(a: seq<string>, b: seq<string>)
    requires a != [] && b != []
    ensures |a| > 1 ==> Glue(a, b) == [a[0]] + Glue(a[1..], b)
    ensures |a| == 1 ==> Glue(a, b) == [a[0] + b[0]] + b[1..]
  {}

  lemma FourTexts(a: string, b: string, c: string, d: string)
    ensures a + b + (c + d) == a + b + c + d == a + (b + c + d)
  {}

  lemma {:induction false} WovenApart(s: string, a: seq<string>, sep: string, t: string, b: seq<string>)
    requires a != [] && Woven(s, a) && Separates(sep) && Woven(t, b)
    ensures Woven(s + sep + t, a + b)
    decreases |a|
  {
    hide Separates;
    if |a| > 1 {
      var sep', rest := WovenInto(s, a);
      WovenApart(rest, a[1..], sep, t, b);
      WovenFrom(a[0], sep', rest + sep + t, a[1..] + b);
      assert [a[0]] + (a[1..] + b) == a + b;
      assert a[0] + sep' + (rest + sep + t) == s + sep + t;
    } else {
      WovenFrom(s, sep, t, b);
    }
  }

  // ---- the runs of a tree: texts that are printed with nothing in between ----

  function Run(e: Inline): (r: seq<string>)
    ensures r != []
  {
    match e
    case Text(s) => [s]
    case LineBreak => ["", ""]
    case CodeSpan(s) => [s]
    case Emphasis(cs) => Runs(cs)
    case Link(cs, dest, _) => Runs(cs) + if StripScheme(dest) == "" then [] else [StripScheme(dest), ""]
    case AutoLink(dest) => [StripScheme(dest)]
    case OtherText(s) => [s]
    case OtherNode(cs) => Runs(cs)
  }

  function Runs(cs: seq<Inline>): (r: seq<string>)
    ensures r != []
  {
    if cs == [] then [""] else Glue(Run(cs[0]), Runs(cs[1..]))
  }

  function RunsOf(b: Block): seq<string> {
    match b
    case Paragraph(cs) => Runs(cs)
    case Heading(cs) => Runs(cs)
    case List(_, items) => RunsOfItems(items)
    case Quote(bs) => RunsOfBlocks(bs)
    case CodeBlock(raw, _) => [CollapseCode(raw)]
    case Html(body) => [if body.Some? then Strip(body.value) else ""]
    case OtherBlock => []
  }

  function RunsOfBlocks(bs: seq<Block>): seq<string> {
    if bs == [] then [] else RunsOf(bs[0]) + RunsOfBlocks(bs[1..])
  }

  /** Quotes and HTML blocks directly in an item are not printed. */
  function RunsOfChildren(bs: seq<Block>): seq<string> {
    if bs == [] then []
    else (if bs[0].Quote? || bs[0].Html? then [] else RunsOf(bs[0])) + RunsOfChildren(bs[1..])
  }

  function RunsOfItems(items: seq<Item>): seq<string> {
    if items == [] then [] else RunsOfChildren(items[0].children) + RunsOfItems(items[1..])
  }

  // ---- what is printed ----

  /** The text without its markup. */
  function Letters(r: Rich): string {
    if r == [] then "" else LetterOf(r[0]) + Letters(r[1..])
  }

  function LetterOf(g: Glyph): string { if g.Letter? then [g.c] else "" }

  lemma {:induction false} LettersAppend(a: Rich, b: Rich)
    ensures Letters(a + b) == Letters(a) + Letters(b)
  {
    hide LetterOf;
    if a == [] {
      assert a + b == b;
    } else {
      assert (a + b)[1..] == a[1..] + b;
      LettersAppend(a[1..], b);
    }
  }

  lemma {:induction false} LettersLit(s: string)
    ensures Letters(Lit(s)) == s
  {
    if s != "" {
      assert Lit(s)[1..] == Lit(s[1..]);
      LettersLit(s[1..]);
    }
  }

  lemma LettersTagged(t: Tag, r: Rich)
    ensures Letters(Tagged(t, r)) == Letters(r)
  {
    LettersAppend([Enter(t)] + r, [Leave(t)]);
    LettersAppend([Enter(t)], r);
    assert [Enter(t)][1..] == [] && [Leave(t)][1..] == [];
  }

  lemma {:induction false} InlineWoven(e: Inline)
    ensures Woven(Letters(Content(e)), Run(e))
  {
    hide Letters, Lit;
    match e
    case Text(s) => LettersLit(s);
    case LineBreak =>
      LettersLit(" ");
      WovenOne("");
      WovenFrom("", " ", "", [""]);
      assert "" + " " + "" == " " && [""] + [""] == ["", ""];
    case CodeSpan(s) =>
      LettersTagged(Code, Lit(s));
      LettersLit(s);
    case Emphasis(cs) =>
      LettersTagged(Em, Contents(cs));
      RunsWoven(cs);
    case Link(cs, dest, _) =>
      RunsWoven(cs);
      LinkWoven(Contents(cs), Runs(cs), Silent(cs), StripScheme(dest));
    case AutoLink(dest) => LettersLit(StripScheme(dest));
    case OtherText(s) => LettersLit(s);
    case OtherNode(cs) => RunsWoven(cs);
  }

  lemma LinkWoven(text: Rich, runs: seq<string>, silent: bool, url: string)
    requires runs != [] && Woven(Letters(text), runs)
    ensures Woven(Letters(text + UrlAfter(silent, url)), runs + if url == "" then [] else [url, ""])
  {
    hide Woven, Letters;
    if url == "" {
      assert text + [] == text && runs + [] == runs;
    } else {
      var sep := (if silent then "" else " ") + "(";
      UrlLetters(silent, url);
      LettersAppend(text, UrlAfter(silent, url));
      WovenOne("");
      WovenFrom(url, ")", "", [""]);
      WovenApart(Letters(text), runs, sep, url + ")" + "", [url] + [""]);
      hide UrlAfter;
      assert [url] + [""] == [url, ""] && url + ")" + "" == url + ")";
      FourTexts(Letters(text), sep, url, ")");
    }
  }

  lemma WovenOne(s: string)
    ensures Woven(s, [s])
  {}

  lemma UrlLetters(silent: bool, url: string)
    requires url != ""
    ensures Letters(UrlAfter(silent, url)) == (if silent then "" else " ") + "(" + url + ")"
  {
    hide Letters, Lit;
    var blank := if silent then "" else " ";
    LettersAppend(Lit(blank) + Lit("(") + Lit(url), Lit(")"));
    LettersAppend(Lit(blank) + Lit("("), Lit(url));
    LettersAppend(Lit(blank), Lit("("));
    LettersLit(blank);
    LettersLit("(");
    LettersLit(url);
    LettersLit(")");
  }

  lemma {:induction false} RunsWoven(cs: seq<Inline>)
    ensures Woven(Letters(Contents(cs)), Runs(cs))
  {
    if cs == [] {
      WovenOne("");
    } else {
      InlineWoven(cs[0]);
      RunsWoven(cs[1..]);
      hide Woven, Letters, Glue;
      WovenGlue(Letters(Content(cs[0])), Run(cs[0]), Letters(Contents(cs[1..])), Runs(cs[1..]));
      LettersAppend(Content(cs[0]), Contents(cs[1..]));
    }
  }

  lemma ContentsScheme(cs: seq<Inline>)
    ensures SchemeIn(Letters(Contents(cs))) <==> AnyScheme(Runs(cs))
  {
    RunsWoven(cs);
    WovenScheme(Letters(Contents(cs)), Runs(cs));
  }

  function Texts(outs: seq<Out>): seq<Rich> {
    if outs == [] then []
    else (match outs[0] case Para(text) => [text] case Items(_, texts) => texts) + Texts(outs[1..])
  }

  ghost predicate AnyShown(texts: seq<Rich>) { exists t | t in texts :: SchemeIn(Letters(t)) }

  lemma ShownAppend(a: seq<Rich>, b: seq<Rich>)
    ensures AnyShown(a + b) <==> AnyShown(a) || AnyShown(b)
  {
    assert forall t :: t in a + b <==> t in a || t in b;
  }

  lemma OneShown(t: Rich)
    ensures AnyShown([t]) <==> SchemeIn(Letters(t))
  {
    assert t in [t];
  }

  lemma NoneShown()
    ensures !AnyShown([]) && !AnyScheme([]) && !AnyScheme([""])
  {}

  lemma OneRun(s: string)
    ensures AnyScheme([s]) <==> SchemeIn(s)
  {
    assert s in [s];
  }

  lemma {:induction false} TextsAppend(a: seq<Out>, b: seq<Out>)
    ensures Texts(a + b) == Texts(a) + Texts(b)
  {
    if a == [] {
      assert a + b == b;
    } else {
      assert (a + b)[1..] == a[1..] + b;
      TextsAppend(a[1..], b);
    }
  }

  lemma {:induction false} JoinShown(parts: seq<Rich>)
    ensures parts != [] ==> (SchemeIn(Letters(Join(Lit(" "), parts))) <==> AnyShown(parts))
  {
    hide SchemeIn, Letters, Lit;
    if |parts| == 1 {
      OneShown(parts[0]);
      assert parts == [parts[0]];
    } else if |parts| > 1 {
      var rest := Join(Lit(" "), parts[1..]);
      JoinShown(parts[1..]);
      LettersAppend(parts[0] + Lit(" "), rest);
      LettersAppend(parts[0], Lit(" "));
      LettersLit(" ");
      SchemeApart(Letters(parts[0]), " ", Letters(rest));
      OneShown(parts[0]);
      ShownAppend([parts[0]], parts[1..]);
      assert [parts[0]] + parts[1..] == parts;
    }
  }

  lemma CodeScheme(raw: Option<string>)
    ensures var code := CollapseCode(raw);
      AnyScheme([code]) <==> code != "" && SchemeIn(Letters(Tagged(Code, Lit(code))))
  {
    hide SchemeIn, Letters, Lit;
    var code := CollapseCode(raw);
    LettersTagged(Code, Lit(code));
    LettersLit(code);
    OneRun(code);
    NoneShown();
  }

  lemma {:induction false} BlockScheme(b: Block)
    ensures AnyShown(Texts(BlockOuts(b))) <==> AnyScheme(RunsOf(b))
  {
    hide SchemeIn, Letters, Lit, AnyShown, AnyScheme, CollapseCode, Strip;
    NoneShown();
    match b
    case Paragraph(cs) =>
      ContentsScheme(cs);
      OneText(Contents(cs));
    case Heading(cs) =>
      ContentsScheme(cs);
      LettersTagged(Em, Contents(cs));
      OneText(Tagged(Em, Contents(cs)));
    case List(ordered, items) =>
      ItemsScheme(items);
      assert Texts([Items(ordered, ItemsTexts(items))]) == ItemsTexts(items) by { assert ItemsTexts(items) + [] == ItemsTexts(items); }
    case Quote(bs) => SchemeShown(bs);
    case CodeBlock(raw, _) =>
      CodeScheme(raw);
      OneText(Tagged(Code, Lit(CollapseCode(raw))));
    case Html(body) =>
      if body.Some? {
        LettersLit(Strip(body.value));
        OneText(Lit(Strip(body.value)));
        OneRun(Strip(body.value));
      }
    case OtherBlock =>
  }

  lemma OneText(t: Rich)
    ensures Texts([Para(t)]) == [t] && (AnyShown([t]) <==> SchemeIn(Letters(t)))
  {
    OneShown(t);
    assert [Para(t)][1..] == [];
  }

  lemma {:induction false} ItemScheme(i: Item)
    ensures AnyShown(ItemTexts(i)) <==> AnyScheme(RunsOfChildren(i.children))
  {
    hide SchemeIn, Letters, Lit, AnyShown, AnyScheme, Join;
    NoneShown();
    var parts := ContentParts(i.children);
    var own := Join(Lit(" "), parts);
    JoinShown(parts);
    OneShown(own);
    ShownAppend(if parts == [] then [] else [own], NestedTexts(i.children));
    ChildrenScheme(i.children);
  }

  lemma {:induction false} ChildrenScheme(bs: seq<Block>)
    ensures AnyShown(ContentParts(bs)) || AnyShown(NestedTexts(bs)) <==> AnyScheme(RunsOfChildren(bs))
  {
    hide SchemeIn, Letters, Lit, AnyShown, AnyScheme, ContentPart, RunsOf, ItemsTexts;
    NoneShown();
    if bs != [] {
      ChildrenScheme(bs[1..]);
      ChildScheme(bs[0]);
      ShownAppend(ContentPart(bs[0]), ContentParts(bs[1..]));
      ShownAppend(if bs[0].List? then ItemsTexts(bs[0].items) else [], NestedTexts(bs[1..]));
      AnyAppend(if bs[0].Quote? || bs[0].Html? then [] else RunsOf(bs[0]), RunsOfChildren(bs[1..]));
    }
  }

  lemma {:induction false} ChildScheme(b: Block)
    ensures AnyShown(ContentPart(b)) || AnyShown(if b.List? then ItemsTexts(b.items) else [])
      <==> AnyScheme(if b.Quote? || b.Html? then [] else RunsOf(b))
  {
    hide SchemeIn, Letters, Lit, AnyShown, AnyScheme, CollapseCode;
    NoneShown();
    match b
    case Paragraph(cs) => PartScheme(cs);
    case Heading(cs) => PartScheme(cs);
    case List(_, items) => ItemsScheme(items);
    case CodeBlock(raw, _) =>
      CodeScheme(raw);
      OneShown(Tagged(Code, Lit(CollapseCode(raw))));
    case _ =>
  }

  lemma PartScheme(cs: seq<Inline>)
    ensures AnyShown(if Silent(cs) then [] else [Contents(cs)]) <==> AnyScheme(Runs(cs))
  {
    ContentsScheme(cs);
    OneShown(Contents(cs));
    if Silent(cs) {
      SilentSaysNothing(cs);
      NoneShown();
      OneRun("");
    }
  }

  lemma {:induction false} ItemsScheme(items: seq<Item>)
    ensures AnyShown(ItemsTexts(items)) <==> AnyScheme(RunsOfItems(items))
  {
    hide AnyShown, AnyScheme, ItemTexts, RunsOfChildren;
    NoneShown();
    if items != [] {
      ItemScheme(items[0]);
      ItemsScheme(items[1..]);
      ShownAppend(ItemTexts(items[0]), ItemsTexts(items[1..]));
      AnyAppend(RunsOfChildren(items[0].children), RunsOfItems(items[1..]));
    }
  }

  /** The description has `scheme://` somewhere in a paragraph or an item exactly when a single run has. */
  lemma {:induction false} SchemeShown(doc: seq<Block>)
    ensures AnyShown(Texts(Outs(doc))) <==> AnyScheme(RunsOfBlocks(doc))
  {
    hide AnyShown, AnyScheme, BlockOuts, RunsOf;
    NoneShown();
    if doc != [] {
      BlockScheme(doc[0]);
      SchemeShown(doc[1..]);
      TextsAppend(BlockOuts(doc[0]), Outs(doc[1..]));
      ShownAppend(Texts(BlockOuts(doc[0])), Texts(Outs(doc[1..])));
      AnyAppend(RunsOf(doc[0]), RunsOfBlocks(doc[1..]));
    }
  }

  /** A URL written as text keeps its scheme, even when markup runs through it. */
  lemma SchemeInText(a: string, b: string)
    ensures AnyShown(Texts(Outs([Paragraph([Emphasis([Text(a)]), Text(b)])]))) <==> SchemeIn(a + b)
  {
    hide AnyShown, AnyScheme, SchemeIn, Outs, Texts, Run, Runs;
    var cs := [Emphasis([Text(a)]), Text(b)];
    SchemeShown([Paragraph(cs)]);
    TwoRuns(a, b);
    OneBlock(Paragraph(cs));
    OneRun(a + b);
  }

  lemma OneBlock(b: Block)
    ensures RunsOfBlocks([b]) == RunsOf(b)
  {}

  lemma TwoRuns(a: string, b: string)
    ensures Runs([Emphasis([Text(a)]), Text(b)]) == [a + b]
  {
    var em, none: seq<Inline> := Emphasis([Text(a)]), [];
    FirstRun(em, [Text(b)]);
    FirstRun(Text(a), none);
    FirstRun(Text(b), none);
    assert [em] + [Text(b)] == [em, Text(b)] && [Text(a)] + none == [Text(a)] && [Text(b)] + none == [Text(b)];
    assert a + "" == a && b + "" == b;
    assert Runs([Text(a)]) == [a] && Runs([Text(b)]) == [b];
    assert Run(em) == [a];
  }

  lemma FirstRun(e: Inline, cs: seq<Inline>)
    ensures Runs([e] + cs) == Glue(Run(e), Runs(cs))
  {
    assert ([e] + cs)[1..] == cs;
  }
}
