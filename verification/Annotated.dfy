/** The Android light reader, HtmlToAnnotated.kt: a sanitized DOM becomes a flat list of styled runs. */
module Annotated {
  import opened Wrappers
  import opened Chars
  import opened Reader
  import ReaderMarkup

  datatype Span = Span(text: string, bold: bool, italic: bool, monospace: bool, heading: bool, link: Option<string>)

  datatype Style = Style(bold: bool, italic: bool, monospace: bool, heading: bool, link: Option<string>)

  const DEFAULT: Style := Style(false, false, false, false, None)

  function Separator(text: string): Span {
    Span(text, false, false, false, false, None)
  }

  // ----- Characters -------------------------------------------------------

  /** `\s` as the JVM's regular expressions read it. */
  predicate IsJvmSpace(c: char) {
    c == ' ' || '\t' <= c <= '\r'
  }

  /** Kotlin's Char.isWhitespace. */
  predicate IsKotlinSpace(c: char) {
    || IsJvmSpace(c)
    || '\U{1C}' <= c <= '\U{1F}'
    || c == '\U{A0}' || c == '\U{1680}' || '\U{2000}' <= c <= '\U{200A}'
    || c == '\U{2028}' || c == '\U{2029}' || c == '\U{202F}' || c == '\U{205F}' || c == '\U{3000}'
  }

  /** Kotlin and Rust differ on five characters. */
  lemma KotlinSpaceIs(c: char)
    ensures IsKotlinSpace(c) <==>
            (IsWhitespace(c) && c != '\U{85}') || c in {'\U{1C}', '\U{1D}', '\U{1E}', '\U{1F}'}
  {
  }

  predicate IsKotlinBlank(s: string) {
    forall i :: 0 <= i < |s| ==> IsKotlinSpace(s[i])
  }

  /** Every run of white space becomes one space. `ws` is what the regular-expression engine takes `\s` for;
      `inRun` says that the run's space is written already. */
  function Squashed(ws: char -> bool, s: string, inRun: bool): string {
    if s == [] then ""
    else if ws(s[0]) then (if inRun then "" else " ") + Squashed(ws, s[1..], true)
    else [s[0]] + Squashed(ws, s[1..], false)
  }

  // ----- What the runs should be ------------------------------------------

  /** An element on the way from the body down to a text. */
  datatype Ancestor = Ancestor(tag: Tag, href: Option<string>)

  predicate MakesBold(tag: Tag) { tag.B? || tag.Strong? || IsHeading(tag) }
  predicate MakesItalic(tag: Tag) { tag.I? || tag.Em? }
  predicate MakesMonospace(tag: Tag) { tag.Code? || tag.Pre? }

  predicate EndsBlock(tag: Tag) {
    tag.P? || tag.Div? || tag.Blockquote? || tag.Li? || tag.Pre? || IsHeading(tag)
  }

  function Target(href: Option<string>): Option<string> {
    if href.None? || IsKotlinBlank(href.value) then None else href
  }

  /** The target of the innermost anchor on the path. */
  function LinkAt(path: seq<Ancestor>): Option<string> {
    if path == [] then None
    else
      var last := path[|path| - 1];
      if last.tag.A? then Target(last.href) else LinkAt(path[..|path| - 1])
  }

  predicate Below(path: seq<Ancestor>, p: Tag -> bool) {
    exists i :: 0 <= i < |path| && p(path[i].tag)
  }

  /** The style of text below the elements of `path`. */
  function StyleAt(path: seq<Ancestor>): Style {
    Style(
      Below(path, MakesBold), Below(path, MakesItalic), Below(path, MakesMonospace), Below(path, IsHeading),
      LinkAt(path))
  }

  /** A text with the elements around it, or a break. */
  datatype Leaf = TextLeaf(text: string, path: seq<Ancestor>) | Break(text: string)

  /** Texts and breaks in document order. */
  function Leaves(n: Node, path: seq<Ancestor>): seq<Leaf>
    decreases n, 0
  {
    match n
    case Text(text) => [TextLeaf(text, path)]
    case Other => []
    case Element(tag, href, _, children) =>
      if tag.Br? then [Break("\n")]
      else LeavesAll(children, path + [Ancestor(tag, href)]) + (if EndsBlock(tag) then [Break("\n\n")] else [])
  }

  function LeavesAll(ns: seq<Node>, path: seq<Ancestor>): seq<Leaf>
    decreases ns, 0
  {
    if ns == [] then [] else LeavesAll(ns[..|ns| - 1], path) + Leaves(ns[|ns| - 1], path)
  }

  function SpanOf(ws: char -> bool, leaf: Leaf): Span {
    match leaf
    case TextLeaf(text, path) =>
      var st := StyleAt(path);
      Span(Squashed(ws, text, false), st.bold, st.italic, st.monospace, st.heading, st.link)
    case Break(text) => Separator(text)
  }

  /** Blank text is skipped as long as nothing has been written. */
  function Kept(ws: char -> bool, spans: seq<Span>, leaves: seq<Leaf>): seq<Span>
    decreases |leaves|
  {
    if leaves == [] then spans
    else
      var n := |leaves| - 1;
      var before := Kept(ws, spans, leaves[..n]);
      if leaves[n].TextLeaf? && before == [] && IsKotlinBlank(Squashed(ws, leaves[n].text, false)) then before
      else before + [SpanOf(ws, leaves[n])]
  }

  lemma {:induction false} KeptConcat(ws: char -> bool, spans: seq<Span>, a: seq<Leaf>, b: seq<Leaf>)
    ensures Kept(ws, spans, a + b) == Kept(ws, Kept(ws, spans, a), b)
    decreases |b|
  {
    if b == [] {
      assert a + b == a;
    } else {
      var n := |b| - 1;
      KeptConcat(ws, spans, a, b[..n]);
      assert (a + b)[..|a + b| - 1] == a + b[..n];
    }
  }

  /** The link of a run is the target of the nearest enclosing anchor, whatever stands farther out. */
  lemma {:induction false} NearestAnchorLinks(path: seq<Ancestor>, i: nat)
    requires i < |path| && path[i].tag.A? && forall j :: i < j < |path| ==> !path[j].tag.A?
    ensures path[i].href.Some? && !IsKotlinBlank(path[i].href.value) ==> StyleAt(path).link == path[i].href
    ensures path[i].href.None? || IsKotlinBlank(path[i].href.value) ==> StyleAt(path).link == None
  {
    if i < |path| - 1 {
      NearestAnchorLinks(path[..|path| - 1], i);
    }
  }

  lemma {:induction false} NoAnchorNoLink(path: seq<Ancestor>)
    requires forall j :: 0 <= j < |path| ==> !path[j].tag.A?
    ensures StyleAt(path).link == None
  {
    if path != [] {
      NoAnchorNoLink(path[..|path| - 1]);
    }
  }

  // ----- The walk ---------------------------------------------------------

  function ChildStyle(style: Style, tag: Tag, href: Option<string>): Style {
    match tag
    case B | Strong => style.(bold := true)
    case I | Em => style.(italic := true)
    case Code | Pre => style.(monospace := true)
    case H1 | H2 | H3 | H4 | H5 | H6 => style.(bold := true, heading := true)
    case A => style.(link := Target(href))
    case _ => style
  }

  lemma BelowOneMore(path: seq<Ancestor>, a: Ancestor, p: Tag -> bool)
    ensures Below(path + [a], p) <==> Below(path, p) || p(a.tag)
  {
    var longer := path + [a];
    assert longer[|path|] == a;
    if i :| 0 <= i < |path| && p(path[i].tag) {
      assert p(longer[i].tag);
    }
  }

  lemma ChildStyleFields(style: Style, tag: Tag, href: Option<string>)
    ensures ChildStyle(style, tag, href) ==
            Style(style.bold || MakesBold(tag), style.italic || MakesItalic(tag),
                  style.monospace || MakesMonospace(tag),
                  style.heading || IsHeading(tag), if tag.A? then Target(href) else style.link)
  {
  }

  lemma LinkOneMore(path: seq<Ancestor>, a: Ancestor)
    ensures LinkAt(path + [a]) == if a.tag.A? then Target(a.href) else LinkAt(path)
  {
    assert (path + [a])[..|path|] == path;
  }

  /** Copying the style on the way down gives the style of the whole path. */
  lemma ChildStyleIsStyleBelow(path: seq<Ancestor>, tag: Tag, href: Option<string>)
    ensures ChildStyle(StyleAt(path), tag, href) == StyleAt(path + [Ancestor(tag, href)])
  {
    var a := Ancestor(tag, href);
    ChildStyleFields(StyleAt(path), tag, href);
    LinkOneMore(path, a);
    BelowOneMore(path, a, MakesBold);
    BelowOneMore(path, a, MakesItalic);
    BelowOneMore(path, a, MakesMonospace);
    BelowOneMore(path, a, IsHeading);
  }

  class SpanList {
    var spans: seq<Span>

    constructor ()
      ensures spans == []
    {
      spans := [];
    }

    method Add(span: Span)
      modifies this
      ensures spans == old(spans) + [span]
    {
      spans := spans + [span];
    }
  }

  lemma LeavesAllSnoc(ws: char -> bool, spans: seq<Span>, ns: seq<Node>, path: seq<Ancestor>, i: nat)
    requires i < |ns|
    ensures Kept(ws, spans, LeavesAll(ns[..i + 1], path)) ==
            Kept(ws, Kept(ws, spans, LeavesAll(ns[..i], path)), Leaves(ns[i], path))
  {
    assert ns[..i + 1][..i] == ns[..i];
    KeptConcat(ws, spans, LeavesAll(ns[..i], path), Leaves(ns[i], path));
  }

  lemma KeptOne(ws: char -> bool, spans: seq<Span>, leaf: Leaf)
    ensures Kept(ws, spans, [leaf]) ==
            if leaf.TextLeaf? && spans == [] && IsKotlinBlank(Squashed(ws, leaf.text, false))
            then spans else spans + [SpanOf(ws, leaf)]
  {
    assert [leaf][..0] == [];
    assert Kept(ws, spans, []) == spans;
  }

  /** Appends the runs of the children; `style` is the style of the path down to them. */
  method Walk(ws: char -> bool, children: seq<Node>, style: Style, out: SpanList, ghost path: seq<Ancestor>)
    requires style == StyleAt(path)
    modifies out
    ensures out.spans == Kept(ws, old(out.spans), LeavesAll(children, path))
    decreases children
  {
    for i := 0 to |children|
      invariant out.spans == Kept(ws, old(out.spans), LeavesAll(children[..i], path))
    {
      LeavesAllSnoc(ws, old(out.spans), children, path, i);
      WalkChild(ws, children[i], style, out, path);
    }
    assert children[..|children|] == children;
  }

  method WalkChild(ws: char -> bool, child: Node, style: Style, out: SpanList, ghost path: seq<Ancestor>)
    requires style == StyleAt(path)
    modifies out
    ensures out.spans == Kept(ws, old(out.spans), Leaves(child, path))
    decreases child
  {
    match child
    case Text(wholeText) =>
      KeptOne(ws, out.spans, TextLeaf(wholeText, path));
      var text := Squashed(ws, wholeText, false);
      if !IsKotlinBlank(text) || out.spans != [] {
        out.Add(Span(text, style.bold, style.italic, style.monospace, style.heading, style.link));
      }
    case Element(tag, href, _, grandchildren) =>
      var childStyle := ChildStyle(style, tag, href);
      if tag.Br? {
        KeptOne(ws, out.spans, Break("\n"));
        out.Add(Separator("\n"));
        return;
      }
      ChildStyleIsStyleBelow(path, tag, href);
      ghost var below := path + [Ancestor(tag, href)];
      Walk(ws, grandchildren, childStyle, out, below);
      if EndsBlock(tag) {
        KeptConcat(ws, old(out.spans), LeavesAll(grandchildren, below), [Break("\n\n")]);
        KeptOne(ws, out.spans, Break("\n\n"));
        out.Add(Separator("\n\n"));
      } else {
        assert LeavesAll(grandchildren, below) + [] == LeavesAll(grandchildren, below);
      }
    case Other =>
  }

  function NonEmpty(spans: seq<Span>): seq<Span> {
    if spans == [] then []
    else NonEmpty(spans[..|spans| - 1]) + (if spans[|spans| - 1].text == "" then [] else [spans[|spans| - 1]])
  }

  function TextOf(spans: seq<Span>): string {
    if spans == [] then "" else TextOf(spans[..|spans| - 1]) + spans[|spans| - 1].text
  }

  /** htmlToSpans, from the sanitized and parsed body on. */
  method HtmlToSpans(ws: char -> bool, body: seq<Node>) returns (spans: seq<Span>)
    ensures spans == NonEmpty(Kept(ws, [], LeavesAll(body, [])))
  {
    var out := new SpanList();
    assert StyleAt([]) == DEFAULT;
    Walk(ws, body, DEFAULT, out, []);
    spans := NonEmpty(out.spans);
  }

  predicate BlankText(ws: char -> bool, leaf: Leaf) {
    leaf.TextLeaf? && IsKotlinBlank(Squashed(ws, leaf.text, false))
  }

  function SpansOf(ws: char -> bool, leaves: seq<Leaf>): (spans: seq<Span>)
    ensures |spans| == |leaves|
  {
    seq(|leaves|, i requires 0 <= i < |leaves| => SpanOf(ws, leaves[i]))
  }

  /** What the walk leaves out are the blank texts at the very beginning, before anything else, and nothing more:
      every later text and every break has its run, in order. */
  lemma {:induction false} OnlyLeadingBlanksAreSkipped(ws: char -> bool, leaves: seq<Leaf>) returns (n: nat)
    ensures n <= |leaves| && forall i :: 0 <= i < n ==> BlankText(ws, leaves[i])
    ensures n < |leaves| ==> !BlankText(ws, leaves[n])
    ensures Kept(ws, [], leaves) == SpansOf(ws, leaves[n..])
  {
    if leaves == [] {
      n := 0;
    } else {
      var last := |leaves| - 1;
      n := OnlyLeadingBlanksAreSkipped(ws, leaves[..last]);
      if n < last {
        assert leaves[n..] == leaves[..last][n..] + [leaves[last]];
      } else if BlankText(ws, leaves[last]) {
        n := |leaves|;
      }
    }
  }

  // ----- Nothing but white space is added or lost -------------------------

  /** White space of either language, and the desktop's list bullet. */
  predicate Inkless(c: char) {
    IsKotlinSpace(c) || c == '\U{85}' || c == '\U{2022}'
  }

  ghost predicate OnlySpace(ws: char -> bool) {
    forall c :: ws(c) ==> Inkless(c)
  }

  /** Android's own engine reads `\s` as a Unicode class, the JVM as six characters. */
  lemma BothEnginesTakeOnlySpace()
    ensures OnlySpace(IsJvmSpace) && OnlySpace(IsWhitespace)
  {
  }

  /** The characters of `s` that are neither white space nor list bullets. */
  function Ink(s: string): string {
    if s == [] then ""
    else Ink(s[..|s| - 1]) + (if Inkless(s[|s| - 1]) then "" else [s[|s| - 1]])
  }

  lemma {:induction false} InkConcat(a: string, b: string)
    ensures Ink(a + b) == Ink(a) + Ink(b)
    decreases |b|
  {
    if b == [] {
      assert a + b == a;
    } else {
      InkConcat(a, b[..|b| - 1]);
      assert (a + b)[..|a + b| - 1] == a + b[..|b| - 1];
    }
  }

  lemma {:induction false} BlankHasNoInk(s: string)
    requires IsKotlinBlank(s)
    ensures Ink(s) == ""
  {
    if s != [] {
      BlankHasNoInk(s[..|s| - 1]);
    }
  }

  lemma InkOfFirst(c: char, rest: string)
    ensures Ink([c] + rest) == (if Inkless(c) then "" else [c]) + Ink(rest)
  {
    InkConcat([c], rest);
    assert [c][..0] == "";
  }

  lemma {:induction false} SquashKeepsInk(ws: char -> bool, s: string, inRun: bool)
    requires OnlySpace(ws)
    ensures Ink(Squashed(ws, s, inRun)) == Ink(s)
  {
    if s != [] {
      var rest := Squashed(ws, s[1..], ws(s[0]));
      SquashKeepsInk(ws, s[1..], ws(s[0]));
      InkOfFirst(s[0], s[1..]);
      assert [s[0]] + s[1..] == s;
      InkOfFirst(if ws(s[0]) then ' ' else s[0], rest);
      assert "" + rest == rest && "" + Ink(rest) == Ink(rest);
    }
  }

  /** After squashing the only white space left is single spaces. */
  lemma {:induction false} SquashMeans(ws: char -> bool, s: string, inRun: bool, i: nat)
    requires i < |Squashed(ws, s, inRun)|
    ensures ws(Squashed(ws, s, inRun)[i]) ==> Squashed(ws, s, inRun)[i] == ' '
    ensures ws(Squashed(ws, s, inRun)[i]) && i == 0 ==> !inRun
    ensures ws(Squashed(ws, s, inRun)[i]) && i > 0 ==> !ws(Squashed(ws, s, inRun)[i - 1])
  {
    if s != [] {
      var space := ws(s[0]);
      var rest := Squashed(ws, s[1..], space);
      if space && inRun {
        SquashMeans(ws, s[1..], true, i);
      } else if i > 0 {
        assert Squashed(ws, s, inRun)[1..] == rest;
        SquashMeans(ws, s[1..], space, i - 1);
      }
    }
  }

  lemma {:induction false} SquashConcat(ws: char -> bool, a: string, b: string, inRun: bool)
    requires a != [] ==> !ws(a[|a| - 1])
    ensures Squashed(ws, a + b, inRun) == Squashed(ws, a, inRun) + Squashed(ws, b, inRun && a == [])
  {
    if a == [] {
      assert a + b == b;
    } else {
      assert (a + b)[1..] == a[1..] + b;
      SquashConcat(ws, a[1..], b, ws(a[0]));
    }
  }

  lemma {:induction false} RunIsSquashed(ws: char -> bool, run: string, b: string)
    requires (forall c :: c in run ==> ws(c)) && (b != [] ==> !ws(b[0]))
    ensures Squashed(ws, run + b, true) == Squashed(ws, b, false)
  {
    if run == [] {
      assert run + b == b;
    } else {
      assert (run + b)[1..] == run[1..] + b;
      RunIsSquashed(ws, run[1..], b);
    }
  }

  /** Every maximal run of white space becomes exactly one space, wherever it stands. */
  lemma RunBecomesOneSpace(ws: char -> bool, a: string, run: string, b: string)
    requires run != [] && forall c :: c in run ==> ws(c)
    requires (a != [] ==> !ws(a[|a| - 1])) && (b != [] ==> !ws(b[0]))
    ensures Squashed(ws, a + run + b, false) == Squashed(ws, a, false) + " " + Squashed(ws, b, false)
  {
    assert a + run + b == a + (run + b);
    SquashConcat(ws, a, run + b, false);
    assert (run + b)[1..] == run[1..] + b;
    RunIsSquashed(ws, run[1..], b);
  }

  /** And text without white space stays as it is. */
  lemma {:induction false} NothingToSquash(ws: char -> bool, s: string, inRun: bool)
    requires forall c :: c in s ==> !ws(c)
    ensures Squashed(ws, s, inRun) == s
  {
    if s != [] {
      NothingToSquash(ws, s[1..], false);
    }
  }

  function Raw(leaves: seq<Leaf>): string {
    if leaves == [] then "" else Raw(leaves[..|leaves| - 1]) + leaves[|leaves| - 1].text
  }

  function InkOfLeaves(leaves: seq<Leaf>): string {
    Ink(Raw(leaves))
  }

  lemma {:induction false} RawConcat(a: seq<Leaf>, b: seq<Leaf>)
    ensures Raw(a + b) == Raw(a) + Raw(b)
    decreases |b|
  {
    if b == [] {
      assert a + b == a;
    } else {
      RawConcat(a, b[..|b| - 1]);
      assert (a + b)[..|a + b| - 1] == a + b[..|b| - 1];
    }
  }

  lemma InkOfLeavesConcat(a: seq<Leaf>, b: seq<Leaf>)
    ensures InkOfLeaves(a + b) == InkOfLeaves(a) + InkOfLeaves(b)
  {
    RawConcat(a, b);
    InkConcat(Raw(a), Raw(b));
  }

  lemma InkOfOneMore(spans: seq<Span>, span: Span)
    ensures Ink(TextOf(spans + [span])) == Ink(TextOf(spans)) + Ink(span.text)
  {
    assert (spans + [span])[..|spans|] == spans;
    InkConcat(TextOf(spans), span.text);
  }

  lemma {:induction false} KeptKeepsInk(ws: char -> bool, leaves: seq<Leaf>)
    requires OnlySpace(ws)
    ensures Ink(TextOf(Kept(ws, [], leaves))) == InkOfLeaves(leaves)
  {
    if leaves != [] {
      var init, leaf := leaves[..|leaves| - 1], leaves[|leaves| - 1];
      KeptKeepsInk(ws, init);
      InkConcat(Raw(init), leaf.text);
      SquashKeepsInk(ws, leaf.text, false);
      InkOfOneMore(Kept(ws, [], init), SpanOf(ws, leaf));
      if Kept(ws, [], leaves) == Kept(ws, [], init) {
        BlankHasNoInk(Squashed(ws, leaf.text, false));
      }
    }
  }

  lemma {:induction false} NonEmptyKeepsText(spans: seq<Span>)
    ensures TextOf(NonEmpty(spans)) == TextOf(spans)
  {
    if spans != [] {
      var init, last := spans[..|spans| - 1], spans[|spans| - 1];
      NonEmptyKeepsText(init);
      if last.text != "" {
        assert (NonEmpty(init) + [last])[..|NonEmpty(init)|] == NonEmpty(init);
      } else {
        assert NonEmpty(init) + [] == NonEmpty(init);
        assert TextOf(init) + "" == TextOf(init);
      }
    }
  }

  predicate NoImages(n: Node) {
    n.Element? ==> !n.tag.Img? && forall i :: 0 <= i < |n.children| ==> NoImages(n.children[i])
  }

  lemma {:induction false} SameInk(n: Node, path: seq<Ancestor>)
    requires NoImages(n)
    ensures Ink(Plain(n)) == InkOfLeaves(Leaves(n, path))
    decreases n, 0
  {
    match n
    case Text(text) =>
      assert [TextLeaf(text, path)][..0] == [];
      assert Raw([TextLeaf(text, path)]) == Raw([]) + text == text;
    case Other =>
    case Element(tag, href, _, children) =>
      BlankHasNoInk("\n");
      BlankHasNoInk("\n\n");
      if tag.Br? {
        assert [Break("\n")][..0] == [];
      } else {
        SameInkBelow(tag, href, children, path);
      }
  }

  lemma {:induction false} SameInkBelow(tag: Tag, href: Option<string>, children: seq<Node>, path: seq<Ancestor>)
    requires forall i :: 0 <= i < |children| ==> NoImages(children[i])
    ensures Ink(Lead(tag) + PlainAll(children) + Trail(tag)) ==
            InkOfLeaves(LeavesAll(children, path + [Ancestor(tag, href)]) +
                        (if EndsBlock(tag) then [Break("\n\n")] else []))
    decreases children, 1
  {
    var below := path + [Ancestor(tag, href)];
    SameInkAll(children, below);
    LeadAndTrailHaveNoInk(tag);
    InkInTheMiddle(Lead(tag), PlainAll(children), Trail(tag));
    if EndsBlock(tag) {
      InkOfLeavesConcat(LeavesAll(children, below), [Break("\n\n")]);
      BreakHasNoInk();
    } else {
      assert LeavesAll(children, below) + [] == LeavesAll(children, below);
    }
  }

  lemma InkInTheMiddle(a: string, b: string, c: string)
    requires Ink(a) == "" && Ink(c) == ""
    ensures Ink(a + b + c) == Ink(b)
  {
    InkConcat(a + b, c);
    InkConcat(a, b);
  }

  lemma BreakHasNoInk()
    ensures InkOfLeaves([Break("\n\n")]) == ""
  {
    BlankHasNoInk("\n\n");
    assert [Break("\n\n")][..0] == [];
    assert Raw([Break("\n\n")]) == "" + "\n\n" == "\n\n";
  }

  lemma LeadAndTrailHaveNoInk(tag: Tag)
    ensures Ink(Lead(tag)) == "" && Ink(Trail(tag)) == ""
  {
    BlankHasNoInk(Trail(tag));
    var bullet := Lead(tag);
    if bullet != "" {
      assert bullet[..1] == "\U{2022}" && bullet[..1][..0] == "";
    }
  }

  lemma {:induction false} SameInkAll(ns: seq<Node>, path: seq<Ancestor>)
    requires forall i :: 0 <= i < |ns| ==> NoImages(ns[i])
    ensures Ink(PlainAll(ns)) == InkOfLeaves(LeavesAll(ns, path))
    decreases ns, 0
  {
    if ns != [] {
      var n := |ns| - 1;
      SameInkAll(ns[..n], path);
      SameInk(ns[n], path);
      InkConcat(PlainAll(ns[..n]), Plain(ns[n]));
      InkOfLeavesConcat(LeavesAll(ns[..n], path), Leaves(ns[n], path));
    }
  }

  /** The two readers show the same document: but for white space and the desktop's list bullets, the text
      of the runs is the plain text of the desktop's markup, for every tree without images. */
  lemma {:induction false} BothReadersShowTheSame(ws: char -> bool, body: seq<Node>)
    requires OnlySpace(ws)
    requires forall i :: 0 <= i < |body| ==> NoImages(body[i])
    ensures Ink(TextOf(NonEmpty(Kept(ws, [], LeavesAll(body, []))))) == Ink(PlainAll(body))
  {
    NonEmptyKeepsText(Kept(ws, [], LeavesAll(body, [])));
    KeptKeepsInk(ws, LeavesAll(body, []));
    SameInkAll(body, []);
  }

  // ----- The same breaks and the same styles ------------------------------

  /** No image, list, section or article: the elements that only the desktop, or either in its own way, sets off. */
  predicate BreaksAlike(n: Node) {
    n.Element? ==>
      && !n.tag.Img? && !n.tag.Li? && !n.tag.Ul? && !n.tag.Ol? && !n.tag.Section? && !n.tag.Article?
      && forall i :: 0 <= i < |n.children| ==> BreaksAlike(n.children[i])
  }

  lemma RawOfOne(leaf: Leaf)
    ensures Raw([leaf]) == leaf.text
  {
    assert [leaf][..0] == [];
    assert Raw([leaf]) == "" + leaf.text;
  }

  lemma {:induction false} SameRaw(n: Node, path: seq<Ancestor>)
    requires BreaksAlike(n)
    ensures Raw(Leaves(n, path)) == Plain(n)
    decreases n, 0
  {
    match n
    case Text(text) => RawOfOne(TextLeaf(text, path));
    case Other =>
    case Element(tag, href, _, children) =>
      if tag.Br? {
        RawOfOne(Break("\n"));
      } else {
        var below := path + [Ancestor(tag, href)];
        SameRawAll(children, below);
        var after := if EndsBlock(tag) then [Break("\n\n")] else [];
        RawConcat(LeavesAll(children, below), after);
        RawOfOne(Break("\n\n"));
        assert Raw(after) == Trail(tag);
        assert "" + PlainAll(children) == PlainAll(children);
      }
  }

  lemma {:induction false} SameRawAll(ns: seq<Node>, path: seq<Ancestor>)
    requires forall i :: 0 <= i < |ns| ==> BreaksAlike(ns[i])
    ensures Raw(LeavesAll(ns, path)) == PlainAll(ns)
    decreases ns, 0
  {
    if ns != [] {
      var n := |ns| - 1;
      SameRawAll(ns[..n], path);
      SameRaw(ns[n], path);
      RawConcat(LeavesAll(ns[..n], path), Leaves(ns[n], path));
    }
  }

  /** Both readers end the same elements with an empty line, but for sections and articles, which the port does not
      know, and list items, after which only the port leaves one. */
  lemma BlocksOfBothReaders(tag: Tag)
    ensures EndsBlock(tag) && !tag.Li? ==> Trail(tag) == "\n\n"
    ensures EndsBlock(tag) <== Trail(tag) == "\n\n" && !tag.Section? && !tag.Article?
    ensures EndsBlock(Li) && Trail(Li) == "\n" && !EndsBlock(Ul) && !EndsBlock(Ol) && Trail(Ul) == Trail(Ol) == "\n"
    ensures !EndsBlock(Section) && !EndsBlock(Reader.Article) && Trail(Section) == Trail(Reader.Article) == "\n\n"
  {
  }

  /** Before white space is squashed, both readers have the same text with the same breaks in the same places, for
      every tree without images, lists, sections and articles. */
  lemma BothReadersBreakTheSame(body: seq<Node>)
    requires forall i :: 0 <= i < |body| ==> BreaksAlike(body[i])
    ensures Raw(LeavesAll(body, [])) == PlainAll(body)
  {
    SameRawAll(body, []);
  }

  /** The marks the desktop's markup puts around text below the elements of `path`. */
  function MarksAt(path: seq<Ancestor>): seq<Mark> {
    if path == [] then []
    else
      var last := path[|path| - 1];
      MarksAt(path[..|path| - 1]) + ReaderMarkup.Tags(last.tag, last.href)
  }

  /** The innermost link among the marks. */
  function InnermostLink(marks: seq<Mark>): Option<string> {
    if marks == [] then None
    else if marks[|marks| - 1].Link? then Some(marks[|marks| - 1].target)
    else InnermostLink(marks[..|marks| - 1])
  }

  lemma BelowSplits(path: seq<Ancestor>, p: Tag -> bool)
    requires path != []
    ensures Below(path, p) <==> Below(path[..|path| - 1], p) || p(path[|path| - 1].tag)
  {
    BelowOneMore(path[..|path| - 1], path[|path| - 1], p);
    assert path == path[..|path| - 1] + [path[|path| - 1]];
  }

  /** Monospace on the desktop only. */
  predicate DesktopMonospace(tag: Tag) {
    tag.Tt? || tag.Kbd? || tag.Samp?
  }

  lemma TagsAreStyles(tag: Tag, href: Option<string>)
    ensures Named("b") in ReaderMarkup.Tags(tag, href) <==> MakesBold(tag)
    ensures Named("i") in ReaderMarkup.Tags(tag, href) <==> MakesItalic(tag)
    ensures Named("big") in ReaderMarkup.Tags(tag, href) <==> IsHeading(tag)
    ensures Named("tt") in ReaderMarkup.Tags(tag, href) <==> MakesMonospace(tag) || DesktopMonospace(tag)
  {
  }

  /** Wherever a text stands, both readers make it bold, italic and a heading alike, and monospace alike but below the
      three elements that only the desktop knows. */
  lemma {:induction false} BothReadersStyleTheSame(path: seq<Ancestor>)
    ensures StyleAt(path).bold <==> Named("b") in MarksAt(path)
    ensures StyleAt(path).italic <==> Named("i") in MarksAt(path)
    ensures StyleAt(path).heading <==> Named("big") in MarksAt(path)
    ensures Named("tt") in MarksAt(path) <==> StyleAt(path).monospace || Below(path, DesktopMonospace)
  {
    if path != [] {
      var last := path[|path| - 1];
      BothReadersStyleTheSame(path[..|path| - 1]);
      TagsAreStyles(last.tag, last.href);
      BelowSplits(path, MakesBold);
      BelowSplits(path, MakesItalic);
      BelowSplits(path, MakesMonospace);
      BelowSplits(path, DesktopMonospace);
      BelowSplits(path, IsHeading);
    }
  }

  lemma {:induction false} LinkAfter(marks: seq<Mark>, more: seq<Mark>)
    requires forall m :: m in more ==> !m.Link?
    ensures InnermostLink(marks + more) == InnermostLink(marks)
    decreases |more|
  {
    if more == [] {
      assert marks + more == marks;
    } else {
      LinkAfter(marks, more[..|more| - 1]);
      assert (marks + more)[..|marks + more| - 1] == marks + more[..|more| - 1];
    }
  }

  lemma NoLinkElsewhere(tag: Tag, href: Option<string>)
    requires !tag.A?
    ensures forall m :: m in ReaderMarkup.Tags(tag, href) ==> !m.Link?
  {
  }

  /** Below an anchor with a non-blank target both readers link to that target. */
  lemma {:induction false} BothReadersLinkTheSame(path: seq<Ancestor>, i: nat)
    requires i < |path| && path[i].tag.A? && forall j :: i < j < |path| ==> !path[j].tag.A?
    requires path[i].href.Some? && !IsKotlinBlank(path[i].href.value)
    ensures StyleAt(path).link == path[i].href == InnermostLink(MarksAt(path))
  {
    NearestAnchorLinks(path, i);
    var n := |path| - 1;
    if i < n {
      BothReadersLinkTheSame(path[..n], i);
      NoLinkElsewhere(path[n].tag, path[n].href);
      LinkAfter(MarksAt(path[..n]), ReaderMarkup.Tags(path[n].tag, path[n].href));
    } else {
      var marks := MarksAt(path);
      assert marks[|marks| - 1] == Link(path[i].href.value);
    }
  }
}
